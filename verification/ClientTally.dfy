/** What the history of a client says about one service, and how the request list is counted. */
module ClientTally {
  import opened Bytes
  import opened Frame
  import opened ClientSpec

  /** Counts over the history for one handle, restarted when the handle is registered:
      OKAY and WRTE frames sent with it, WRTE frames received for it, WRTE frames sent and not yet
      answered by a READY, whether an OKAY preceded every WRTE, whether both always carried the id of its
      peer, and whether its connect has failed. */
  datatype Tally = Tally(opens: nat, closes: nat, peer: nat,
                         okays: nat, datas: nat, writes: nat, unacked: nat, ordered: bool, named: bool, failed: bool)

  function Count(t: Tally, e: Entry, h: nat): Tally {
    match e
    case Registered(i, peer) =>
      if i == h then Tally(t.opens + 1, t.closes, peer, 0, 0, 0, 0, true, true, t.failed) else t
    case ConnectFailed(i) => if i == h then t.(failed := true) else t
    case Closed(i) => if i == h then t.(closes := t.closes + 1) else t
    case Offered(_, m, _) =>
      if m.arg0 != h then t
      else if m.command == A_OKAY then t.(okays := t.okays + 1, named := t.named && m.arg1 == t.peer)
      else if m.command == A_WRTE then
        t.(datas := t.datas + 1, unacked := t.unacked + 1, ordered := t.ordered && t.okays > 0,
           named := t.named && m.arg1 == t.peer)
      else t
    case Got(_, m, _) =>
      if m.arg1 != h then t
      else if m.command == A_OKAY then t.(unacked := 0)
      else if m.command == A_WRTE && (m.arg0 == 0 || m.arg0 == t.peer) then t.(writes := t.writes + 1)
      else t
    case Freed(_) => t
    case Passed(_, _, _) => t
    case Fetched(_, _) => t
    case Answered(_, _, _, _) => t
  }

  function TallyOf(log: seq<Entry>, h: nat): Tally {
    if log == [] then Tally(0, 0, 0, 0, 0, 0, 0, true, true, false)
    else Count(TallyOf(log[..|log| - 1], h), log[|log| - 1], h)
  }

  lemma TallyAppend(log: seq<Entry>, e: Entry)
    ensures forall h :: TallyOf(log + [e], h) == Count(TallyOf(log, h), e, h)
  {
    assert (log + [e])[..|log|] == log;
  }

  lemma TallyLast(log: seq<Entry>, h: nat)
    requires log != []
    ensures TallyOf(log, h) == Count(TallyOf(log[..|log| - 1], h), log[|log| - 1], h)
  {
  }

  /** How often the history disposes of a packet: freed, offered to the transport, or left with a service. */
  function Disposals(log: seq<Entry>, pid: nat): nat {
    if log == [] then 0
    else Disposals(log[..|log| - 1], pid) + (if Disposes(log[|log| - 1], pid) then 1 else 0)
  }

  predicate Disposes(e: Entry, pid: nat) {
    match e
    case Freed(q) => q == pid
    case Offered(q, _, _) => q == pid
    case Passed(q, _, _) => q == pid
    case _ => false
  }

  // ---------- requests ----------

  function Pids(rs: seq<Request>): multiset<nat> {
    if rs == [] then multiset{} else Pids(rs[..|rs| - 1]) + multiset{rs[|rs| - 1].packet.pid}
  }

  /** The pid of a request if it is queued on the socket of h. */
  function Share(r: Request, h: nat): multiset<nat> {
    if r.target == Socket(h) then multiset{r.packet.pid} else multiset{}
  }

  lemma RequestsAppend(rs: seq<Request>, r: Request)
    ensures Pids(rs + [r]) == Pids(rs) + multiset{r.packet.pid}
    ensures forall h :: QueuedFor(rs + [r], h) == QueuedFor(rs, h) + Share(r, h)
  {
    assert (rs + [r])[..|rs|] == rs;
  }

  lemma {:induction false} PidsRemove(rs: seq<Request>, i: nat)
    requires i < |rs|
    ensures Pids(rs) == Pids(Cut(rs, i)) + multiset{rs[i].packet.pid}
  {
    var n := |rs| - 1;
    if i == n {
      assert Cut(rs, i) == rs[..n];
    } else {
      PidsRemove(rs[..n], i);
      CutLast(rs, i);
    }
  }

  lemma {:induction false} QueuedRemove(rs: seq<Request>, i: nat, h: nat)
    requires i < |rs|
    ensures QueuedFor(rs, h) == QueuedFor(Cut(rs, i), h) + Share(rs[i], h)
  {
    var n := |rs| - 1;
    if i == n {
      assert Cut(rs, i) == rs[..n];
    } else {
      QueuedRemove(rs[..n], i, h);
      CutLast(rs, i);
    }
  }

  lemma {:induction false} NotForSplits(rs: seq<Request>, h: nat)
    ensures Pids(NotFor(rs, h)) + QueuedFor(rs, h) == Pids(rs)
  {
    if rs != [] {
      NotForSplits(rs[..|rs| - 1], h);
      NotForLast(rs, h);
    }
  }

  lemma NotForLast(rs: seq<Request>, h: nat)
    requires rs != []
    ensures var less, last := rs[..|rs| - 1], rs[|rs| - 1];
            if last.target == Socket(h) then NotFor(rs, h) == NotFor(less, h)
            else
              && NotFor(rs, h) == NotFor(less, h) + [last]
              && Pids(NotFor(rs, h)) == Pids(NotFor(less, h)) + multiset{last.packet.pid}
              && forall g :: QueuedFor(NotFor(rs, h), g) == QueuedFor(NotFor(less, h), g) + Share(last, g)
  {
    RequestsAppend(NotFor(rs[..|rs| - 1], h), rs[|rs| - 1]);
  }

  lemma {:induction false} NotForQueued(rs: seq<Request>, h: nat, g: nat)
    ensures QueuedFor(NotFor(rs, h), g) == if g == h then multiset{} else QueuedFor(rs, g)
  {
    if rs != [] {
      NotForQueued(rs[..|rs| - 1], h, g);
      NotForLast(rs, h);
    }
  }

  lemma {:induction false} NotForMember(rs: seq<Request>, h: nat, r: Request)
    ensures r in NotFor(rs, h) <==> r in rs && r.target != Socket(h)
  {
    if rs != [] {
      NotForMember(rs[..|rs| - 1], h, r);
      assert rs == rs[..|rs| - 1] + [rs[|rs| - 1]];
    }
  }

  lemma {:induction false} QueuedMember(rs: seq<Request>, r: Request, h: nat)
    requires r in rs && r.target == Socket(h)
    ensures r.packet.pid in QueuedFor(rs, h)
  {
    var less, last := rs[..|rs| - 1], rs[|rs| - 1];
    if r != last {
      assert rs == less + [last];
      QueuedMember(less, r, h);
    }
  }
}
