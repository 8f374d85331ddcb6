/** The invariant of a client over all its runs, and its preservation by the primitive operations. */
module ClientInvariant {
  import opened Bytes
  import opened Frame
  import opened ClientSpec
  import opened ClientTally

  // ---------- pool ----------

  function CurPid(s: State): multiset<nat> {
    if s.cur.Some? then multiset{s.cur.value.pid} else multiset{}
  }

  /** Every packet somebody holds between two callbacks. */
  function Owned(s: State): multiset<nat> {
    Pids(s.requests) + s.leaked + CurPid(s)
  }

  /** frame_count in terms of the live packets; `hand` are those the running callback holds. An open client
      has not lost them all. */
  ghost predicate PoolOk(s: State, hand: multiset<nat>) {
    Counted(Owned(s) + hand, s.frameCount, s.nextPid) && (s.open ==> |s.leaked| < FRAME_MAX)
  }

  ghost predicate Counted(live: multiset<nat>, frameCount: int, nextPid: nat) {
    && 0 <= frameCount <= FRAME_MAX + 1
    && |live| == Min(frameCount, FRAME_MAX)
    && forall pid :: pid in live ==> live[pid] == 1 && pid < nextPid
  }

  lemma CountedLess(live: multiset<nat>, pid: nat, frameCount: int, nextPid: nat)
    requires Counted(live + multiset{pid}, frameCount, nextPid)
    ensures frameCount > 0
    ensures Counted(live, if frameCount > FRAME_MAX then FRAME_MAX - 1 else frameCount - 1, nextPid)
  {
    var more := live + multiset{pid};
    assert |more| == |live| + 1;
    forall q | q in live ensures live[q] == 1 && q < nextPid {
      assert q in more && more[q] == 1;
    }
  }

  // ---------- services ----------

  /** What the running callback still has to send for one service. */
  datatype Due = Nothing | WriteAck(h: nat) | OpenAck(h: nat) | Unblock(h: nat)

  predicate Failed(priv: Private) {
    priv.Stream? && priv.state == ErrorClose
  }

  /** F_WAIT_ACK, or `wait_ack` of a shell. */
  predicate Waiting(priv: Private) {
    (priv.Stream? && priv.state == WaitAck) || (priv.Shell? && priv.waitAck)
  }

  /** A stream reads only while connected with nothing unacknowledged; a shell never while waiting. */
  predicate ReadingOk(priv: Private) {
    match priv
    case Sync => true
    case Stream(state, reading) => reading ==> state == Connected
    case Shell(waitAck, reading) => reading ==> !waitAck
  }

  /** One listed service against its tally t and the number q of packets queued on its socket. */
  predicate ServiceOk(v: Service, t: Tally, q: nat, due: Due) {
    && v.handle > 0 && v.peer != 0
    && v.id == (if Failed(v.priv) then 0 else v.handle)
    && ReadingOk(v.priv)
    && t.opens == 1 && t.closes == 0 && t.peer == v.peer && t.failed == Failed(v.priv)
    && (Failed(v.priv) ==> q == 0)
    && (!Failed(v.priv) ==> WireOk(v, t, q, due))
  }

  predicate WireOk(v: Service, t: Tally, q: nat, due: Due) {
    var owed := if due == WriteAck(v.handle) || due == OpenAck(v.handle) then 1 else 0;
    && t.okays + q + owed == (if Accepts(v.priv) then 1 else 0) + t.writes
    && (Accepts(v.priv) && due != OpenAck(v.handle) ==> t.okays >= 1)
    && (!Accepts(v.priv) ==> t.okays == 0 && t.datas == 0 && q == 0 && due != OpenAck(v.handle))
    && t.ordered && t.named
    && (!v.priv.Sync? ==> t.unacked == (if Waiting(v.priv) && due != Unblock(v.handle) then 1 else 0))
  }

  ghost predicate ServiceAt(v: Service, nextId: nat, rs: seq<Request>, log: seq<Entry>, due: Due) {
    v.handle < nextId && ServiceOk(v, TallyOf(log, v.handle), |QueuedFor(rs, v.handle)|, due)
  }

  ghost predicate ServicesOk(nextId: nat, ss: seq<Service>, rs: seq<Request>, log: seq<Entry>, due: Due) {
    forall v :: v in ss ==> ServiceAt(v, nextId, rs, log, due)
  }

  /** The newest service is first, so handles (and non-zero ids) strictly decrease along the list. */
  ghost predicate Descending(ss: seq<Service>) {
    forall i, j :: 0 <= i < j < |ss| ==> ss[i].handle > ss[j].handle
  }

  ghost predicate Listed(ss: seq<Service>, h: nat) {
    exists v :: v in ss && v.handle == h
  }

  /** A reply waiting behind its OKAY belongs to the sync service or to a one-shot service. */
  ghost predicate RequestOk(r: Request, nextId: nat, ss: seq<Service>) {
    match r.target
    case Socket(h) => Listed(ss, h)
    case Transport =>
      r.packet.writeLen > 0 ==>
        && r.packet.msg.command == A_OKAY && 0 < r.packet.msg.arg0 < nextId
        && r.packet.writeLen <= |r.packet.data|
        && forall v :: v in ss && v.id == r.packet.msg.arg0 ==> v.priv.Sync? && v.peer == r.packet.msg.arg1
  }

  ghost predicate RequestsOk(nextId: nat, ss: seq<Service>, rs: seq<Request>) {
    forall r :: r in rs ==> RequestOk(r, nextId, ss)
  }

  /** A handle is registered at most once, closed at most once, and listed exactly in between. */
  ghost predicate HandleOk(h: nat, nextId: nat, ss: seq<Service>, log: seq<Entry>) {
    var t := TallyOf(log, h);
    && t.closes <= t.opens <= 1
    && (t.opens == 1 ==> 0 < h < nextId)
    && (t.failed ==> t.opens == 1)
    && (t.opens == 1 && t.closes == 0 <==> Listed(ss, h))
  }

  ghost predicate HandlesOk(nextId: nat, ss: seq<Service>, log: seq<Entry>) {
    forall h: nat :: HandleOk(h, nextId, ss, log)
  }

  ghost predicate Wire(nextId: nat, ss: seq<Service>, rs: seq<Request>, log: seq<Entry>, due: Due) {
    && nextId > 0
    && ServicesOk(nextId, ss, rs, log, due)
    && Descending(ss)
    && RequestsOk(nextId, ss, rs)
    && HandlesOk(nextId, ss, log)
  }

  /** The CLOSE of a failed connect, with local id zero. */
  predicate IsReport(e: Entry, peer: nat) {
    e.Offered? && e.msg.command == A_CLSE && e.msg.arg0 == 0 && e.msg.arg1 == peer
  }

  /** A CLOSE from the peer for local id zero. */
  predicate IsHostClose(e: Entry) {
    e.Got? && e.msg.command == A_CLSE && e.msg.arg1 == 0
  }

  /** The header says how long the payload is and how its bytes add up. */
  predicate IsSealed(m: Message, payload: seq<byte>) {
    m.dataLength == |payload| && m == Seal(m, payload)
  }

  /** A frame is offered complete. The connect of a stream fails before it is closed, and then it is closed only
      after its report, or for a CLOSE from the peer. */
  predicate Explained(log: seq<Entry>, e: Entry) {
    && (e.Offered? ==> IsSealed(e.msg, e.payload))
    && (e.ConnectFailed? ==> TallyOf(log, e.handle).closes == 0)
    && (e.Closed? && TallyOf(log, e.handle).failed ==>
          log != [] && (IsReport(log[|log| - 1], TallyOf(log, e.handle).peer) || IsHostClose(log[|log| - 1])))
  }

  predicate Honest(log: seq<Entry>) {
    log == [] || (Honest(log[..|log| - 1]) && Explained(log[..|log| - 1], log[|log| - 1]))
  }

  lemma HonestAppend(log: seq<Entry>, e: Entry)
    ensures Honest(log + [e]) <==> Honest(log) && Explained(log, e)
  {
    assert (log + [e])[..|log|] == log;
  }

  ghost predicate WireOf(s: State, due: Due) {
    Wire(s.nextId, s.services, s.requests, s.log, due) && Honest(s.log)
  }

  // ---------- wakeups ----------

  /** A party that waits for a packet and that only a kick will serve. */
  predicate Idle(priv: Private) {
    match priv
    case Sync => false
    case Stream(state, reading) => state == NotifyClient || state == ErrorClose || (state == Connected && !reading)
    case Shell(waitAck, reading) => !waitAck && !reading
  }

  ghost predicate Settled(s: State, upto: int) {
    || s.frameCount == FRAME_MAX + 1
    || (s.reading && forall k :: 0 <= k < upto && k < |s.services| ==> !Idle(s.services[k].priv))
  }

  /** Nobody waits for a packet unless the pool carries the mark of a refused allocation. */
  ghost predicate WakeOk(s: State) {
    Settled(s, |s.services|)
  }

  ghost predicate Inv(s: State) {
    PoolOk(s, multiset{}) && WireOf(s, Nothing) && WakeOk(s)
  }

  lemma InitInv()
    ensures Inv(Init())
  {
  }

  // ---------- the pool through the primitives ----------

  lemma AllocatePool(s: State, hand: multiset<nat>)
    requires PoolOk(s, hand)
    ensures var (s1, pid) := Allocate(s);
            if pid.Some? then PoolOk(s1, hand + multiset{pid.value}) && s1.frameCount <= FRAME_MAX
            else PoolOk(s1, hand) && s1.frameCount == FRAME_MAX + 1
  {
    var (s1, pid) := Allocate(s);
    var all := Owned(s) + hand;
    if pid.Some? {
      assert Owned(s1) + (hand + multiset{pid.value}) == all + multiset{pid.value};
      assert pid.value !in all;
    } else {
      assert Owned(s1) + hand == all;
    }
  }

  lemma SendFramePool(s: State, p: Packet, ok: bool, hand: multiset<nat>)
    requires PoolOk(s, hand + multiset{p.pid})
    ensures PoolOk(SendFrame(s, p, ok), hand)
  {
    SendOwned(s, p, ok);
    hide Counted;
    hide Owned;
    hide SendFrame;
    assert Owned(s) + multiset{p.pid} + hand == Owned(s) + (hand + multiset{p.pid});
  }

  lemma SendOwned(s: State, p: Packet, ok: bool)
    ensures var s1 := SendFrame(s, p, ok);
            && Owned(s1) == Owned(s) + multiset{p.pid}
            && s1.frameCount == s.frameCount && s1.nextPid == s.nextPid
            && (s1.open ==> s.open && s1.leaked == s.leaked)
            && (s1.open ==> s1.requests == s.requests + [Request(Transport, p.(msg := Seal(p.msg, Payload(p))))])
  {
    RequestsAppend(s.requests, Request(Transport, p.(msg := Seal(p.msg, Payload(p)))));
  }

  /** The same live packets, some perhaps in other hands. */
  lemma PoolMoved(s: State, hand: multiset<nat>, s1: State, hand1: multiset<nat>)
    requires PoolOk(s, hand) && Owned(s1) + hand1 == Owned(s) + hand
    requires s1.frameCount == s.frameCount && s1.nextPid == s.nextPid
    requires s1.open ==> s.open && s1.leaked == s.leaked
    ensures PoolOk(s1, hand1)
  {
    hide Counted;
    hide Owned;
  }

  /** Closing a service loses the packets queued on its socket, but never all packets: there is one
      that is not queued there. */
  lemma OrphanPool(s: State, h: nat, hand: multiset<nat>)
    requires PoolOk(s, hand) && (s.open ==> |hand| + |Pids(NotFor(s.requests, h))| > 0)
    ensures PoolOk(Orphan(s, h), hand)
  {
    hide NotFor;
    hide QueuedFor;
    hide Pids;
    NotForSplits(s.requests, h);
    var rs := Pids(NotFor(s.requests, h));
    assert Owned(Orphan(s, h)) == Owned(s);
    assert |Owned(s) + hand| == |rs| + |s.leaked + QueuedFor(s.requests, h)| + |CurPid(s)| + |hand|;
  }

  lemma NotForKeeps(rs: seq<Request>, h: nat, r: Request)
    requires r.target == Transport
    ensures |Pids(NotFor(rs + [r], h))| > 0
  {
    NotForLast(rs + [r], h);
  }

  lemma ClosePool(s: State, k: nat, p: Option<Packet>, ok: bool, hand: multiset<nat>)
    requires k < |s.services| && (p.None? ==> |hand| > 0)
    requires PoolOk(s, hand + (if p.Some? then multiset{p.value.pid} else multiset{}))
    ensures PoolOk(CloseService(s, k, p, ok), hand)
  {
    hide Counted;
    var v := s.services[k];
    var s1 := s.(services := Cut(s.services, k));
    assert Owned(s1) == Owned(s);
    if p.Some? {
      var q := Headed(p.value, A_CLSE, v.id, v.peer, 0).(writeLen := 0);
      SendFramePool(s1, q, ok, hand);
      SendOwned(s1, q, ok);
      NotForKeeps(s1.requests, v.handle, Request(Transport, q.(msg := Seal(q.msg, Payload(q)))));
      hide PoolOk;
      OrphanPool(SendClose(s1, p.value, v.id, v.peer, ok), v.handle, hand);
    } else {
      assert hand + multiset{} == hand;
      OrphanPool(s1, v.handle, hand);
    }
  }

  lemma TryPool(s: State, k: nat, ok: bool, hand: multiset<nat>)
    requires k < |s.services| && PoolOk(s, hand)
    ensures PoolOk(TryClose(s, k, ok), hand)
    ensures PoolOk(TryConnect(s, k, ok), hand)
  {
    AllocatePool(s, hand);
    var (s1, pid) := Allocate(s);
    if pid.Some? {
      ClosePool(s1, k, Some(Fresh(pid.value)), ok, hand);
      var v := s.services[k];
      var s2 := SetPrivate(s1, k, Stream(Connected, true));
      assert Owned(s2) == Owned(s1);
      SendFramePool(s2, Headed(Fresh(pid.value).(writeLen := 0), A_OKAY, v.id, v.peer, 0), ok, hand);
    }
  }

  lemma SetPrivatePool(s: State, k: nat, priv: Private, hand: multiset<nat>)
    requires k < |s.services| && PoolOk(s, hand)
    ensures PoolOk(SetPrivate(s, k, priv), hand)
  {
  }

  lemma KickPool(s: State, k: nat, ok: bool, hand: multiset<nat>)
    requires k < |s.services| && PoolOk(s, hand)
    ensures PoolOk(OnKick(s, k, ok), hand)
  {
    hide TryClose;
    hide TryConnect;
    TryPool(s, k, ok, hand);
    match s.services[k].priv
    case Shell(waitAck, _) => SetPrivatePool(s, k, Shell(waitAck, true), hand);
    case Stream(Connected, _) => SetPrivatePool(s, k, Stream(Connected, true), hand);
    case _ =>
  }

  lemma {:induction false} KickFromPool(s: State, k: nat, ok: bool, hand: multiset<nat>)
    requires PoolOk(s, hand)
    ensures PoolOk(KickFrom(s, k, ok), hand)
    decreases |s.services| - k
  {
    if k < |s.services| {
      KickPool(s, k, ok, hand);
      var s1 := OnKick(s, k, ok);
      KickFromPool(s1, if |s1.services| < |s.services| then k else k + 1, ok, hand);
    }
  }

  /** What releasing does to the count, before any kick. */
  function Lowered(frameCount: int): int {
    if frameCount > FRAME_MAX then FRAME_MAX - 1 else frameCount - 1
  }

  lemma OwnedSame(s: State, s1: State)
    requires s1.requests == s.requests && s1.leaked == s.leaked && s1.cur == s.cur
    ensures Owned(s1) == Owned(s)
  {
  }

  lemma FreePool(s: State, pid: nat, hand: multiset<nat>)
    requires PoolOk(s, hand + multiset{pid})
    ensures 0 < s.frameCount <= FRAME_MAX + 1
    ensures PoolOk(s.(frameCount := Lowered(s.frameCount)), hand)
  {
    var live := Owned(s) + hand;
    assert Owned(s) + (hand + multiset{pid}) == live + multiset{pid};
    CountedLess(live, pid, s.frameCount, s.nextPid);
    assert Owned(s.(frameCount := Lowered(s.frameCount))) == Owned(s);
  }

  /** Releasing never takes the count below zero, and repairs it when the mark was set. */
  lemma ReleasePool(s: State, pid: nat, ok: bool, hand: multiset<nat>)
    requires PoolOk(s, hand + multiset{pid})
    ensures 0 < s.frameCount <= FRAME_MAX + 1
    ensures PoolOk(Release(s, pid, ok), hand)
  {
    hide KickFrom;
    hide PoolOk;
    hide Owned;
    FreePool(s, pid, hand);
    var s1 := Log(s.(frameCount := Lowered(s.frameCount)), Freed(pid));
    OwnedSame(s.(frameCount := Lowered(s.frameCount)), s1);
    OwnedSame(s1, s1.(reading := true));
    PoolMoved(s.(frameCount := Lowered(s.frameCount)), hand, s1, hand);
    if s.frameCount > FRAME_MAX {
      PoolMoved(s1, hand, s1.(reading := true), hand);
      KickFromPool(s1.(reading := true), 0, ok, hand);
    }
  }
}
