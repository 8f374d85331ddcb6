/** The main results about a client: what holds in every state of every run. */
module ClientTheorems {
  import opened Bytes
  import opened Frame
  import opened Decoder
  import opened ClientSpec
  import opened ClientTally
  import opened ClientInvariant
  import opened ClientWire
  import opened ClientSafety
  import opened ClientLedger
  import opened ClientRuns
  import opened ClientReassembly

  lemma Reached(turns: seq<Turn>)
    requires CanRun(Init(), turns)
    ensures Inv(Run(Init(), turns))
  {
    InitInv();
    RunInv(Init(), turns);
  }

  // ---------- pool ----------

  /** In every reachable state frame_count counts the live packets, saturating at FRAME_MAX, and no
      packet has two owners. */
  lemma PoolAccounting(turns: seq<Turn>)
    requires CanRun(Init(), turns)
    ensures var s := Run(Init(), turns);
            && 0 <= s.frameCount <= FRAME_MAX + 1
            && |Owned(s)| == Min(s.frameCount, FRAME_MAX)
            && (forall pid: nat :: Owned(s)[pid] <= 1)
            && forall pid :: pid in Owned(s) ==> pid < s.nextPid
  {
    Reached(turns);
    var s := Run(Init(), turns);
    assert Owned(s) + multiset{} == Owned(s);
    forall pid: nat ensures Owned(s)[pid] <= 1 {
      assert pid in Owned(s) ==> Owned(s)[pid] == 1;
    }
  }

  // ---------- wakeups ----------

  /** Nobody is forgotten: whoever waits for a packet is covered by the mark of a refused allocation. */
  lemma NoLostWakeup(turns: seq<Turn>)
    requires CanRun(Init(), turns)
    ensures var s := Run(Init(), turns);
            (!s.reading || exists v :: v in s.services && Idle(v.priv)) ==> s.frameCount == FRAME_MAX + 1
  {
    Reached(turns);
    var s := Run(Init(), turns);
    if v :| v in s.services && Idle(v.priv) {
      var k :| 0 <= k < |s.services| && s.services[k] == v;
    }
  }

  /** Streams from position k on that still have to tell the peer how their connect ended. */
  function Waiters(ss: seq<Service>, k: nat): nat
    decreases |ss| - k
  {
    if k >= |ss| then 0 else (if MustSend(ss[k].priv) then 1 else 0) + Waiters(ss, k + 1)
  }

  lemma {:induction false} WaitersSame(ss: seq<Service>, tt: seq<Service>, k: nat, j: nat)
    requires |ss| - k == |tt| - j
    requires forall i :: k <= i < |ss| ==> tt[i - k + j] == ss[i]
    ensures Waiters(ss, k) == Waiters(tt, j)
    decreases |ss| - k
  {
    if k < |ss| {
      assert tt[k - k + j] == ss[k];
      WaitersSame(ss, tt, k + 1, j + 1);
    }
  }

  /** What is left after `n` packets could be taken and `w` services wanted one each. */
  function CountAfter(frameCount: int, w: nat): int {
    if frameCount == FRAME_MAX - 1 && w <= 1 then frameCount + w
    else if w == 0 then frameCount
    else FRAME_MAX + 1
  }

  /** One service is kicked: it resumes reading, or takes the one packet there is, or marks the pool. */
  lemma OnKickServes(s: State, k: nat, ok: bool)
    requires k < |s.services| && FRAME_MAX - 1 <= s.frameCount <= FRAME_MAX + 1
    ensures var s1, v := OnKick(s, k, ok), s.services[k];
            && s1.reading == s.reading
            && (if !MustSend(v.priv) then
                  s1.frameCount == s.frameCount && s1.services == s.services[k := v.(priv := Resumed(v.priv))]
                else if s.frameCount >= FRAME_MAX then
                  s1.frameCount == FRAME_MAX + 1 && s1.services == s.services
                else
                  && s1.frameCount == FRAME_MAX
                  && s1.services == if v.priv.state == ErrorClose then Cut(s.services, k)
                                    else s.services[k := v.(priv := Stream(Connected, true))])
  {
    hide TryClose;
    hide TryConnect;
    if !MustSend(s.services[k].priv) {
      OnKickResumes(s, k, ok);
    } else {
      TryConnectEffects(s, k, ok);
      TryCloseEffects(s, k, ok);
    }
  }

  /** The release that clears the mark restarts the transport and every reader that may read, and
      its one packet serves exactly one of the services that have something to send; the mark comes
      back exactly when another one is left. */
  lemma MarkedReleaseServes(s: State, pid: nat, ok: bool)
    requires s.frameCount == FRAME_MAX + 1
    ensures var s1, w := Release(s, pid, ok), Waiters(s.services, 0);
            && s1.reading
            && OnlySendersIdle(s1.services, |s1.services|)
            && Waiters(s1.services, 0) == (if w == 0 then 0 else w - 1)
            && s1.frameCount == (if w <= 1 then FRAME_MAX - 1 + w else FRAME_MAX + 1)
  {
    var s1 := Log(s, Freed(pid)).(frameCount := FRAME_MAX - 1).(reading := true);
    KickFromServes(s1, 0, ok);
  }

  ghost predicate OnlySendersIdle(ss: seq<Service>, upto: int) {
    forall i :: 0 <= i < upto && i < |ss| ==> Idle(ss[i].priv) ==> MustSend(ss[i].priv)
  }

  lemma {:induction false} KickFromServes(s: State, k: nat, ok: bool)
    requires s.reading && FRAME_MAX - 1 <= s.frameCount <= FRAME_MAX + 1 && k <= |s.services|
    requires OnlySendersIdle(s.services, k)
    ensures var s1, w := KickFrom(s, k, ok), Waiters(s.services, k);
            && s1.reading
            && OnlySendersIdle(s1.services, |s1.services|)
            && Waiters(s1.services, 0)
               == Waiters(s.services, 0) - (if s.frameCount == FRAME_MAX - 1 && w > 0 then 1 else 0)
            && s1.frameCount == CountAfter(s.frameCount, w)
    decreases |s.services| - k
  {
    hide OnKick;
    if k < |s.services| {
      OnKickServes(s, k, ok);
      var s1, v := OnKick(s, k, ok), s.services[k];
      WaitersSplit(s.services, k);
      if |s1.services| < |s.services| {
        WaitersCut(s.services, k);
        KickFromServes(s1, k, ok);
      } else {
        WaitersSet(s.services, k, s1.services[k]);
        KickFromServes(s1, k + 1, ok);
      }
    }
  }

  lemma WaitersSet(ss: seq<Service>, k: nat, w: Service)
    requires k < |ss|
    ensures Waiters(ss[k := w], k + 1) == Waiters(ss, k + 1)
    ensures Waiters(ss[k := w], 0) == WaitersTo(ss, k) + (if MustSend(w.priv) then 1 else 0) + Waiters(ss, k + 1)
  {
    var tt := ss[k := w];
    WaitersSplit(tt, k);
    WaitersBefore(ss, tt, k);
    WaitersSame(ss, tt, k + 1, k + 1);
  }

  /** Waiters before position k. */
  function WaitersTo(ss: seq<Service>, k: nat): nat
    requires k <= |ss|
  {
    if k == 0 then 0 else WaitersTo(ss, k - 1) + (if MustSend(ss[k - 1].priv) then 1 else 0)
  }

  lemma {:induction false} WaitersSplit(ss: seq<Service>, k: nat)
    requires k <= |ss|
    ensures Waiters(ss, 0) == WaitersTo(ss, k) + Waiters(ss, k)
  {
    if k > 0 {
      WaitersSplit(ss, k - 1);
    }
  }

  lemma {:induction false} WaitersBefore(ss: seq<Service>, tt: seq<Service>, k: nat)
    requires k <= |ss| && k <= |tt| && forall i :: 0 <= i < k ==> ss[i] == tt[i]
    ensures WaitersTo(ss, k) == WaitersTo(tt, k)
  {
    if k > 0 {
      WaitersBefore(ss, tt, k - 1);
    }
  }

  lemma WaitersCut(ss: seq<Service>, k: nat)
    requires k < |ss|
    ensures Waiters(Cut(ss, k), 0) == WaitersTo(ss, k) + Waiters(ss, k + 1)
    ensures Waiters(Cut(ss, k), k) == Waiters(ss, k + 1)
  {
    var tt := Cut(ss, k);
    WaitersSplit(tt, k);
    WaitersBefore(ss, tt, k);
    WaitersSame(ss, tt, k + 1, k);
  }

  /** Packets are lost to refused writes, which close the client, and to services closed over queued packets.
      An open client never loses them all, so while its pool is marked there is a packet in the receiver or in
      an outstanding request, whose release will serve those who wait. In a client that is being closed this
      is so exactly while fewer than FRAME_MAX are lost. */
  lemma MarkedPoolHasAHolder(turns: seq<Turn>)
    requires CanRun(Init(), turns)
    ensures var s := Run(Init(), turns);
            && (s.open ==> |s.leaked| < FRAME_MAX)
            && (s.frameCount == FRAME_MAX + 1 ==>
                  && (|s.leaked| < FRAME_MAX <==> s.cur.Some? || s.requests != [])
                  && (s.open ==> s.cur.Some? || s.requests != []))
  {
    Reached(turns);
    var s := Run(Init(), turns);
    hide Run;
    hide WireOf;
    hide WakeOk;
    assert Owned(s) + multiset{} == Owned(s);
    assert |Owned(s)| == |Pids(s.requests)| + |s.leaked| + |CurPid(s)|;
    if s.requests != [] {
      assert s.requests[|s.requests| - 1].packet.pid in Pids(s.requests);
    }
  }

  // ---------- stop and wait ----------

  /** By the frames on the wire, a stream or shell service has at most one unanswered WRTE out, and
      has one exactly while it waits; while it waits its socket is not read, so alloc_buffer's
      assertion holds whenever libuv calls it. */
  lemma StopAndWait(turns: seq<Turn>, v: Service)
    requires CanRun(Init(), turns) && v in Run(Init(), turns).services && !v.priv.Sync?
    ensures var t := TallyOf(Run(Init(), turns).log, v.handle);
            && (!Failed(v.priv) ==> t.unacked == if Waiting(v.priv) then 1 else 0)
            && (v.priv.reading ==> !Waiting(v.priv))
  {
    Reached(turns);
    var s := Run(Init(), turns);
    assert ServiceAt(v, s.nextId, s.requests, s.log, Nothing);
  }

  /** Until a stream is connected it has sent neither OKAY nor WRTE and has nothing queued; afterwards
      every OKAY beyond the first acknowledges one accepted WRTE, each at most once and all but the
      queued ones, and no WRTE went out before the first OKAY. A failed connect has given up its id. */
  lemma ForwardStream(turns: seq<Turn>, v: Service)
    requires CanRun(Init(), turns) && v in Run(Init(), turns).services
    ensures var s := Run(Init(), turns);
            var t, queued := TallyOf(s.log, v.handle), |QueuedFor(s.requests, v.handle)|;
            if Failed(v.priv) then v.id == 0 && queued == 0
            else if !Accepts(v.priv) then v.id == v.handle && t.okays == t.datas == t.writes == queued == 0
            else v.id == v.handle && t.okays >= 1 && t.okays + queued == 1 + t.writes && t.ordered
  {
    Reached(turns);
    var s := Run(Init(), turns);
    assert ServiceAt(v, s.nextId, s.requests, s.log, Nothing);
  }

  /** What adb_service_close leaves in the history: the CLOSE offered to the peer, then on_close. */
  lemma CloseLog(s: State, k: nat, p: Packet, ok: bool)
    requires k < |s.services|
    ensures var v, log := s.services[k], CloseService(s, k, Some(p), ok).log;
            && |log| == |s.log| + 2 && log[..|s.log|] == s.log && log[|s.log| + 1] == Closed(v.handle)
            && log[|s.log|].Offered? && log[|s.log|].pid == p.pid
            && log[|s.log|].msg.command == A_CLSE
            && log[|s.log|].msg.arg0 == v.id && log[|s.log|].msg.arg1 == v.peer
  {
  }

  /** With a packet at hand, a stream whose connect has failed tells the peer so, by a CLOSE with local id zero,
      and is gone; the kick finds it in this state as often as it takes. Without one it stays, and the pool is
      marked. */
  lemma ReportOnce(s: State, k: nat, ok: bool)
    requires k < |s.services| && Failed(s.services[k].priv) && s.services[k].id == 0
    ensures OnKick(s, k, ok) == TryClose(s, k, ok)
    ensures var s1, v := TryClose(s, k, ok), s.services[k];
            if s.frameCount < FRAME_MAX then
              && s1.services == Cut(s.services, k)
              && |s1.log| == |s.log| + 2 && s1.log[..|s.log|] == s.log
              && s1.log[|s.log|].pid == s.nextPid && IsReport(s1.log[|s.log|], v.peer)
              && s1.log[|s.log| + 1] == Closed(v.handle)
            else s1 == s.(frameCount := FRAME_MAX + 1)
  {
    hide CloseService;
    var (s1, pid) := Allocate(s);
    if pid.Some? {
      CloseLog(s1, k, Fresh(pid.value), ok);
      CloseEffects(s1, k, Some(Fresh(pid.value)), ok);
    }
  }

  lemma {:induction false} HonestAt(log: seq<Entry>, j: nat)
    requires Honest(log) && j < |log|
    ensures Explained(log[..j], log[j])
    decreases |log|
  {
    var n := |log| - 1;
    if j < n {
      assert log[..n][..j] == log[..j];
      HonestAt(log[..n], j);
    }
  }

  lemma {:induction false} FailedInLog(log: seq<Entry>, h: nat)
    ensures TallyOf(log, h).failed <==> ConnectFailed(h) in log
  {
    if log != [] {
      hide TallyOf;
      var less, last := log[..|log| - 1], log[|log| - 1];
      TallyLast(log, h);
      FailedInLog(less, h);
      assert log == less + [last];
    }
  }

  lemma {:induction false} ClosesCount(log: seq<Entry>, h: nat, i: nat, j: nat)
    requires i < |log| && j < |log| && log[i] == log[j] == Closed(h) && TallyOf(log, h).closes <= 1
    ensures i == j
  {
    var n := |log| - 1;
    var less := log[..n];
    if i < n && j < n {
      ClosesCount(less, h, i, j);
    } else if i != j {
      ClosesSeen(less, h, if i < j then i else j);
    }
  }

  lemma {:induction false} ClosesSeen(log: seq<Entry>, h: nat, i: nat)
    requires i < |log| && log[i] == Closed(h)
    ensures TallyOf(log, h).closes >= 1
  {
    var n := |log| - 1;
    if i < n {
      ClosesSeen(log[..n], h, i);
    }
  }

  lemma {:induction false} ClosesFound(log: seq<Entry>, h: nat) returns (j: nat)
    requires TallyOf(log, h).closes > 0
    ensures j < |log| && log[j] == Closed(h)
  {
    var n := |log| - 1;
    if log[n] == Closed(h) {
      j := n;
    } else {
      j := ClosesFound(log[..n], h);
    }
  }

  /** The one closing of a stream whose connect has failed. */
  lemma ClosingFollows(log: seq<Entry>, h: nat) returns (j: nat)
    requires Honest(log) && ConnectFailed(h) in log && TallyOf(log, h).closes == 1
    ensures j < |log| && log[j] == Closed(h) && ConnectFailed(h) in log[..j]
    ensures forall i :: 0 <= i < |log| && log[i] == Closed(h) ==> i == j
  {
    j := ClosesFound(log, h);
    var f :| 0 <= f < |log| && log[f] == ConnectFailed(h);
    HonestAt(log, f);
    if f > j {
      ClosesSeen(log[..f], h, j);
    }
    assert log[..j][f] == log[f];
    forall i | 0 <= i < |log| && log[i] == Closed(h) ensures i == j {
      ClosesCount(log, h, i, j);
    }
  }

  /** Over every order of connect results, refused allocations and kicks: a stream whose connect has failed
      stays listed, without its id and with the pool marked, until it is closed. It is closed at most once,
      and the entry of the history just before that is its report, a CLOSE with local id zero to its own peer,
      unless it is a CLOSE that the peer itself has sent for local id zero. */
  lemma FailedConnectIsReported(turns: seq<Turn>, h: nat)
    requires CanRun(Init(), turns) && ConnectFailed(h) in Run(Init(), turns).log
    ensures var s := Run(Init(), turns);
            var t := TallyOf(s.log, h);
            if t.closes == 0 then
              && s.frameCount == FRAME_MAX + 1
              && exists v :: v in s.services && v.handle == h && v.id == 0 && v.peer == t.peer && Failed(v.priv)
            else exists j :: Reports(s.log, h, j)
  {
    Reached(turns);
    var s := Run(Init(), turns);
    hide Run;
    hide Honest;
    var t := TallyOf(s.log, h);
    FailedInLog(s.log, h);
    assert HandleOk(h, s.nextId, s.services, s.log);
    if t.closes == 0 {
      var v :| v in s.services && v.handle == h;
      assert ServiceAt(v, s.nextId, s.requests, s.log, Nothing);
      var k :| 0 <= k < |s.services| && s.services[k] == v;
    } else {
      var j := ClosingFollows(s.log, h);
      HonestAt(s.log, j);
      FailedInLog(s.log[..j], h);
      assert Reports(s.log, h, j);
    }
  }

  /** Entry j closes the stream h, nothing else does, and it comes behind the failure and the report. */
  ghost predicate Reports(log: seq<Entry>, h: nat, j: nat) {
    && 0 < j < |log| && log[j] == Closed(h) && ConnectFailed(h) in log[..j]
    && (forall i :: 0 <= i < |log| && log[i] == Closed(h) ==> i == j)
    && (IsReport(log[j - 1], TallyOf(log[..j], h).peer) || IsHostClose(log[j - 1]))
  }

  // ---------- service table ----------

  /** In every run non-zero ids strictly decrease along the list, lookup by a non-zero id finds the one
      service with that id and a matching peer or none, and each handle is registered at most once,
      closed at most once and listed exactly in between. */
  lemma ServiceTable(turns: seq<Turn>, id: nat, peer: nat)
    requires CanRun(Init(), turns) && id != 0
    ensures var s := Run(Init(), turns);
            && (forall i, j :: 0 <= i < j < |s.services| && s.services[i].id != 0 && s.services[j].id != 0 ==>
                  s.services[i].id > s.services[j].id)
            && (var r := Find(s.services, id, peer);
                if r.Some? then
                  && s.services[r.value].id == id && (peer == 0 || s.services[r.value].peer == peer)
                  && forall i :: 0 <= i < |s.services| && s.services[i].id == id ==> i == r.value
                else forall v :: v in s.services ==> !(v.id == id && (peer == 0 || v.peer == peer)))
            && (var t := TallyOf(s.log, id);
                && t.closes <= t.opens <= 1
                && (t.opens == 1 && t.closes == 0 <==> Listed(s.services, id)))
  {
    Reached(turns);
    var s := Run(Init(), turns);
    forall v | v in s.services ensures v.id == 0 || v.id == v.handle {
      assert ServiceAt(v, s.nextId, s.requests, s.log, Nothing);
    }
    FindFirst(s.services, 0, id, peer);
    FindUnique(s, id, peer, Nothing);
    assert HandleOk(id, s.nextId, s.services, s.log);
  }

  lemma {:induction false} RegisteredCounts(log: seq<Entry>, h: nat)
    ensures (exists peer :: Registered(h, peer) in log) <==> TallyOf(log, h).opens > 0
  {
    if log != [] {
      hide TallyOf;
      var less, last := log[..|log| - 1], log[|log| - 1];
      TallyLast(log, h);
      RegisteredCounts(less, h);
      assert log == less + [last];
    }
  }

  lemma {:induction false} NamedAt(log: seq<Entry>, h: nat, j: nat)
    requires TallyOf(log, h).named && TallyOf(log, h).opens <= 1 && j < |log| && log[j].Offered?
    requires log[j].msg.arg0 == h && log[j].msg.command in {A_OKAY, A_WRTE} && TallyOf(log[..j], h).opens > 0
    ensures log[j].msg.arg1 == TallyOf(log, h).peer
    decreases |log|
  {
    hide TallyOf;
    var n := |log| - 1;
    var less := log[..n];
    TallyLast(log, h);
    assert less[..j] == log[..j];
    if j < n {
      OpensGrow(less, h, j);
      NamedAt(less, h, j);
    }
  }

  lemma {:induction false} OpensGrow(log: seq<Entry>, h: nat, j: nat)
    requires j <= |log|
    ensures TallyOf(log[..j], h).opens <= TallyOf(log, h).opens
    decreases |log|
  {
    if j < |log| {
      var less := log[..|log| - 1];
      assert less[..j] == log[..j];
      OpensGrow(less, h, j);
    } else {
      assert log[..j] == log;
    }
  }

  /** In every run each OKAY and WRTE that goes out under the handle of a listed service, once it is registered,
      names the peer that opened it. */
  lemma FramesNameThePeer(turns: seq<Turn>, v: Service, j: nat)
    requires CanRun(Init(), turns) && v in Run(Init(), turns).services && !Failed(v.priv)
    requires var log := Run(Init(), turns).log;
             && j < |log| && log[j].Offered? && log[j].msg.arg0 == v.handle && log[j].msg.command in {A_OKAY, A_WRTE}
             && exists peer :: Registered(v.handle, peer) in log[..j]
    ensures Run(Init(), turns).log[j].msg.arg1 == v.peer
  {
    Reached(turns);
    var s := Run(Init(), turns);
    assert ServiceAt(v, s.nextId, s.requests, s.log, Nothing);
    RegisteredCounts(s.log[..j], v.handle);
    hide Run;
    hide Inv;
    NamedAt(s.log, v.handle, j);
  }

  /** In every run each frame offered to the transport is complete: its bytes are the encoding of what it carries. */
  lemma FramesAreEncodings(turns: seq<Turn>, j: nat)
    requires CanRun(Init(), turns) && j < |Run(Init(), turns).log| && Run(Init(), turns).log[j].Offered?
    ensures var e := Run(Init(), turns).log[j];
            HeaderBytes(e.msg) + e.payload == Encode(Frame(e.msg.command, e.msg.arg0, e.msg.arg1, e.payload))
  {
    Reached(turns);
    HonestAt(Run(Init(), turns).log, j);
    var e := Run(Init(), turns).log[j];
    assert IsSealed(e.msg, e.payload);
    hide Inv;
    hide Run;
    hide HeaderBytes;
    assert Seal(e.msg, e.payload) == Seal(Message(e.msg.command, e.msg.arg0, e.msg.arg1, |e.payload|, 0, 0), e.payload);
  }

  /** Closing the service at k removes it alone. */
  lemma CloseRemovesOne(s: State, k: nat, p: Option<Packet>, ok: bool)
    requires k < |s.services| && Descending(s.services)
    ensures forall v :: v in CloseService(s, k, p, ok).services <==> v in s.services && v != s.services[k]
  {
    CutServices(s.services, k);
    OneHandle(s.services, s.services[k]);
    CloseEffects(s, k, p, ok);
  }

  /** Destroying a client closes every service that was ever registered, each exactly once in its life. */
  lemma {:induction false} DestroyClosesAll(s: State)
    requires Wire(s.nextId, s.services, s.requests, s.log, Nothing)
    ensures var s1 := DestroyServices(s);
            && s1.services == []
            && forall h: nat :: TallyOf(s1.log, h).closes == TallyOf(s1.log, h).opens <= 1
    decreases |s.services|
  {
    if |s.services| == 0 {
      forall h: nat ensures TallyOf(s.log, h).closes == TallyOf(s.log, h).opens <= 1 {
        assert HandleOk(h, s.nextId, s.services, s.log);
      }
    } else {
      UnlinkWire(s, 0, Nothing);
      DestroyClosesAll(CloseService(s, 0, None, true));
    }
  }

  // ---------- replies ----------

  /** The life of the packet of request i from s on: reply bytes behind an OKAY go out once more as a WRTE with the
      same ids and exactly those bytes, and when that completes the packet is freed; without reply bytes it is
      freed at once. */
  ghost predicate LivesOn(s: State, i: nat)
    requires i < |s.requests|
  {
    var p, s1 := s.requests[i].packet, WriteDone(s, i, false, true);
    if p.writeLen == 0 then
      |s1.log| > |s.log| && s1.log[|s.log|] == Freed(p.pid)
    else
      && p.msg.command == A_OKAY && p.writeLen <= |p.data|
      && |s1.requests| == |s.requests|
      && (var q := s1.requests[|s.requests| - 1].packet;
          && s1.log == s.log + [Offered(p.pid, q.msg, p.data[..p.writeLen])]
          && q.pid == p.pid && q.writeLen == 0
          && q.msg.command == A_WRTE && q.msg.arg0 == p.msg.arg0 && q.msg.arg1 == p.msg.arg1)
      && (var s2 := WriteDone(s1, |s.requests| - 1, false, true);
          |s2.log| > |s1.log| && s2.log[|s1.log|] == Freed(p.pid))
  }

  /** So it is in every reachable state for every outstanding transport write. */
  lemma ReplyLife(turns: seq<Turn>, i: nat)
    requires CanRun(Init(), turns) && i < |Run(Init(), turns).requests|
    requires Run(Init(), turns).requests[i].target == Transport
    ensures LivesOn(Run(Init(), turns), i)
  {
    hide Inv;
    hide LivesOn;
    Reached(turns);
    var s := Run(Init(), turns);
    hide Run;
    RequestAt(s, i);
    ReplyTurns(s, i);
  }

  lemma RequestAt(s: State, i: nat)
    requires Inv(s) && i < |s.requests|
    ensures RequestOk(s.requests[i], s.nextId, s.services)
  {
    assert s.requests[i] in s.requests;
  }

  lemma ReplyTurns(s: State, i: nat)
    requires i < |s.requests| && s.requests[i].target == Transport && RequestOk(s.requests[i], s.nextId, s.services)
    ensures LivesOn(s, i)
  {
    hide KickFrom;
    var p := s.requests[i].packet;
    var s1 := s.(requests := Cut(s.requests, i));
    if p.writeLen == 0 {
      FreedFirst(s1, p.pid);
    } else {
      var s2 := WriteDone(s, i, false, true);
      FreedFirst(s2.(requests := Cut(s2.requests, |s.requests| - 1)), p.pid);
    }
  }

  /** Releasing logs the packet before anything a kick may do. */
  lemma FreedFirst(s: State, pid: nat)
    ensures |Release(s, pid, true).log| > |s.log| && Release(s, pid, true).log[|s.log|] == Freed(pid)
  {
    if s.frameCount > FRAME_MAX {
      KickGrows(Log(s, Freed(pid)).(frameCount := FRAME_MAX - 1).(reading := true), 0, true);
    }
  }

  lemma OnKickGrows(s: State, k: nat, ok: bool)
    requires k < |s.services|
    ensures s.log <= OnKick(s, k, ok).log
  {
    hide TryClose;
    hide TryConnect;
    if !MustSend(s.services[k].priv) {
      OnKickResumes(s, k, ok);
    } else {
      TryGrows(s, k, ok);
    }
  }

  lemma TryGrows(s: State, k: nat, ok: bool)
    requires k < |s.services|
    ensures s.log <= TryClose(s, k, ok).log && s.log <= TryConnect(s, k, ok).log
  {
    hide CloseService;
    var (s1, pid) := Allocate(s);
    if pid.Some? {
      CloseLog(s1, k, Fresh(pid.value), ok);
    }
  }

  lemma {:induction false} KickGrows(s: State, k: nat, ok: bool)
    ensures s.log <= KickFrom(s, k, ok).log
    decreases |s.services| - k
  {
    hide OnKick;
    if k < |s.services| {
      OnKickGrows(s, k, ok);
      var s1 := OnKick(s, k, ok);
      KickGrows(s1, if |s1.services| < |s.services| then k else k + 1, ok);
    }
  }

  /** What a stream or shell reads from its socket or pipe when a packet is at hand: the bytes that are there, up
      to a payload. */
  lemma ReadTakes(s: State, k: nat, avail: seq<byte>, ok: bool)
    requires k < |s.services| && !s.services[k].priv.Sync? && s.frameCount < FRAME_MAX && avail != []
    ensures var s1, n := ServiceRead(s, k, avail, false, ok), if |avail| < PAYLOAD_SIZE then |avail| else PAYLOAD_SIZE;
            |s1.log| > |s.log| && s1.log[|s.log|] == Fetched(s.services[k].handle, avail[..n])
  {
    hide OnStreamData;
    var v := s.services[k];
    var (s1, pid) := Allocate(s);
    var s2 := Log(s1, Fetched(v.handle, Readable(avail)));
    if v.priv.Stream? {
      hide SendFrame;
      StreamDataGrows(SetPrivate(s2, k, Stream(v.priv.state, false)), k, Filled(pid.value, Readable(avail)), ok);
    }
  }

  lemma StreamDataGrows(s: State, k: nat, p: Packet, ok: bool)
    requires k < |s.services|
    ensures s.log <= OnStreamData(s, k, p, ok).log
  {
    hide CloseService;
    CloseLog(s, k, p, ok);
  }

  // ---------- reassembly ----------

  lemma {:induction false} RunRefines(s: State, turns: seq<Turn>)
    requires Refines(s) && CanRun(s, turns)
    ensures Refines(Run(s, turns))
    decreases |turns|
  {
    hide Refines;
    hide Step;
    if turns != [] {
      StepRefines(s, turns[0].event, turns[0].env);
      RunRefines(Step(s, turns[0].event, turns[0].env), turns[1..]);
    }
  }

  /** Whatever the read sizes and however refused allocations are interleaved, the frames given to
      adb_process_packet are those of the one-shot decoder over all bytes read, the client has been
      closed for a bad frame exactly when the decoder refuses one, and then no byte after that frame's
      offending header or payload has been read; otherwise the receiver holds exactly the decoder's
      remainder and offers a non-empty buffer. */
  lemma ReassemblyRefinesDecoding(turns: seq<Turn>)
    requires CanRun(Init(), turns)
    ensures var s := Run(Init(), turns);
            var d := Decode(false, s.rx);
            && Delivered(s.log) == d.frames
            && (s.rejected <==> d.ending.Rejected?)
            && (s.rejected ==> !s.open && d.ending.rest == [])
            && (!s.rejected ==> d.ending.rest == Partial(s) && d.connected == s.isConnected
                                && OfferedLength(Partial(s)) > 0)
  {
    RunRefines(Init(), turns);
    var s := Run(Init(), turns);
    if !s.rejected {
      PartialFacts(s);
    }
  }

  /** Frames built by send_frame and read in any pieces arrive unchanged, each once and in order. */
  lemma FramesArriveInAnyPieces(turns: seq<Turn>, fs: seq<Frame>)
    requires CanRun(Init(), turns) && AllSendable(false, fs)
    requires Run(Init(), turns).rx == EncodeAll(fs)
    ensures Delivered(Run(Init(), turns).log) == fs && !Run(Init(), turns).rejected
  {
    ReassemblyRefinesDecoding(turns);
    DecodeInvertsEncode(false, fs);
  }
}
