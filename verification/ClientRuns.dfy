/** Events, runs, and the theorems about every reachable state of a client. */
module ClientRuns {
  import opened Bytes
  import opened Frame
  import opened ClientSpec
  import opened ClientTally
  import opened ClientInvariant
  import opened ClientWire
  import opened ClientSafety

  // ---------- events keep the invariant ----------

  lemma AllocateGood(s: State, hand: multiset<nat>)
    requires Good(s, hand, Nothing)
    ensures var (s1, pid) := Allocate(s);
            if pid.Some? then Good(s1, hand + multiset{pid.value}, Nothing) && s1.frameCount <= FRAME_MAX
            else Good(s1, hand, Nothing) && s1.frameCount == FRAME_MAX + 1
  {
    hide Wire;
    hide PoolOk;
    AllocatePool(s, hand);
  }

  lemma AllocateFrameGood(s: State)
    requires Inv(s)
    ensures Inv(AllocateFrame(s)) && (AllocateFrame(s).cur.None? ==> AllocateFrame(s).frameCount == FRAME_MAX + 1)
  {
    hide Wire;
    hide PoolOk;
    if s.cur.None? {
      AllocateGood(s, multiset{});
      var (s1, pid) := Allocate(s);
      if pid.Some? {
        assert Owned(AllocateFrame(s)) + multiset{} == Owned(s1) + (multiset{} + multiset{pid.value});
        PoolMoved(s1, multiset{} + multiset{pid.value}, AllocateFrame(s), multiset{});
      }
    }
  }

  /** The packet leaves the receiver for the dispatcher, logged. */
  lemma TakeGood(s: State, p: Packet)
    requires Inv(s) && s.cur.Some? && s.cur.value.pid == p.pid
    ensures Good(Log(s.(cur := None), Got(p.pid, p.msg, p.data)), multiset{p.pid}, GotDue(s.services, p.msg))
  {
    hide Wire;
    hide PoolOk;
    GotWire(s, p.pid, p.msg, p.data);
    var s1 := Log(s.(cur := None), Got(p.pid, p.msg, p.data));
    assert Owned(s1) + multiset{p.pid} == Owned(s) + multiset{};
    PoolMoved(s, multiset{}, s1, multiset{p.pid});
  }

  lemma SameInv(s: State, s1: State)
    requires Inv(s)
    requires s1.frameCount == s.frameCount && s1.nextPid == s.nextPid
    requires s1.requests == s.requests && s1.leaked == s.leaked
    requires CurPid(s1) == CurPid(s) && s1.nextId == s.nextId && s1.services == s.services && s1.log == s.log
    requires s1.reading == s.reading || s.frameCount == FRAME_MAX + 1
    requires s1.open ==> s.open
    ensures Inv(s1)
  {
    hide Wire;
    hide PoolOk;
    assert Owned(s1) == Owned(s);
    PoolMoved(s, multiset{}, s1, multiset{});
  }

  lemma OnDataInv(s: State, chunk: seq<byte>, env: Env)
    requires Inv(s) && s.cur.Some? && IsEnv(env)
    ensures Inv(OnData(s, chunk, env))
  {
    hide Wire;
    hide PoolOk;
    hide ProcessPacket;
    hide HeaderOk;
    hide DataOk;
    hide Honest;
    hide ParseHeader;
    hide GotDue;
    var before, got := s.cur.value.got, s.cur.value.got + chunk;
    var s1 := s.(rx := s.rx + chunk);
    var s2 := s1.(cur := Some(s.cur.value.(got := got)));
    if |before| < HEADER_SIZE <= |got| && !HeaderOk(s.isConnected, ParseHeader(got)) {
      SameInv(s, s1.(open := false, rejected := true));
    } else if !Complete(got) {
      SameInv(s, s2);
    } else if !DataOk(ParseHeader(got), got[HEADER_SIZE..]) {
      SameInv(s, s2.(open := false, rejected := true));
    } else {
      var p := PacketOf(s.cur.value.pid, got);
      SameInv(s, s2);
      TakeGood(s2, p);
      ProcessGood(Log(s2.(cur := None), Got(p.pid, p.msg, p.data)), p, env);
    }
  }

  lemma TransportInv(s: State, avail: seq<byte>, env: Env)
    requires Inv(s) && IsEnv(env)
    ensures Inv(TransportRead(s, avail, env)) && Inv(TransportError(s))
  {
    hide Wire;
    hide PoolOk;
    hide OnData;
    hide Release;
    hide OfferedLength;
    AllocateFrameGood(s);
    var s1 := AllocateFrame(s);
    if s1.cur.None? {
      SameInv(s1, s1.(reading := false));
    } else {
      SameInv(s1, s1.(open := false));
      var n := Min(|avail|, OfferedLength(s1.cur.value.got));
      if n > 0 {
        OnDataInv(s1, avail[..n], env);
      } else if |s1.cur.value.got| <= 0 {
        var s2, pid := s1.(cur := None), s1.cur.value.pid;
        assert Owned(s2) + (multiset{} + multiset{pid}) == Owned(s1) + multiset{};
        PoolMoved(s1, multiset{}, s2, multiset{} + multiset{pid});
        ReleaseGood(s2, pid, env.writeOk, multiset{});
      }
    }
  }

  /** A stream that starts to wait either gets its packet at once or leaves the mark. */
  lemma TryWakes(s: State, k: nat, v: Service, ok: bool)
    requires k < |s.services| && WakeOk(s.(services := s.services[k := v])) && s.frameCount <= FRAME_MAX + 1
    ensures WakeOk(TryClose(s, k, ok)) && WakeOk(TryConnect(s, k, ok))
  {
    hide SendFrame;
    var (s1, pid) := Allocate(s);
    if pid.Some? {
      var ss := s.services[k := v];
      CloseEffects(s1, k, Some(Fresh(pid.value)), ok);
      TryConnectEffects(s, k, ok);
      forall i | 0 <= i < |ss| ensures i != k ==> s.services[i] == ss[i] && !Idle(ss[i].priv) {
      }
    }
  }

  /** The connecting stream takes its new state, and waits until it has told the peer. */
  function ConnectState(s: State, k: nat, failed: bool): (s1: State)
    requires k < |s.services| && s.services[k].priv.Stream?
    ensures |s1.services| == |s.services|
  {
    if failed then ConnectFails(s, k) else SetPrivate(s, k, Stream(NotifyClient, s.services[k].priv.reading))
  }

  lemma ConnectStateOk(s: State, k: nat, failed: bool)
    requires Inv(s) && k < |s.services| && s.services[k].priv.Stream? && s.services[k].priv.state == NotConnected
    ensures var s1 := ConnectState(s, k, failed);
            && PoolOk(s1, multiset{}) && WireOf(s1, Nothing) && s1.frameCount <= FRAME_MAX + 1
            && s1.services[k].priv.Stream? && s1.services[k].priv.state == (if failed then ErrorClose else NotifyClient)
  {
    ServiceFacts(s, k, Nothing);
    if failed {
      FailWire(s, k);
    } else {
      ReplaceWire(s, k, s.services[k].(priv := Stream(NotifyClient, s.services[k].priv.reading)), Nothing, Nothing);
    }
    hide Wire;
    hide Honest;
    assert Owned(ConnectState(s, k, failed)) == Owned(s);
  }

  lemma ConnectInv(s: State, k: nat, failed: bool, ok: bool)
    requires Inv(s) && k < |s.services| && s.services[k].priv.Stream? && s.services[k].priv.state == NotConnected
    ensures Inv(ConnectDone(s, k, failed, ok))
  {
    ConnectStateOk(s, k, failed);
    var v, s1 := s.services[k], ConnectState(s, k, failed);
    assert s1.services[k := v] == s.services;
    TryWakes(s1, k, v, ok);
    TryPool(s1, k, ok, multiset{});
    TryWire(s1, k, ok);
    hide Inv;
    hide WireOf;
    hide PoolOk;
    hide WakeOk;
    hide TryClose;
    hide TryConnect;
    ConnectStep(s, k, failed, ok);
    Together(ConnectDone(s, k, failed, ok));
  }

  lemma Together(s: State)
    ensures PoolOk(s, multiset{}) && WireOf(s, Nothing) && WakeOk(s) ==> Inv(s)
  {
  }

  lemma ConnectStep(s: State, k: nat, failed: bool, ok: bool)
    requires k < |s.services| && s.services[k].priv.Stream? && s.services[k].priv.state == NotConnected
    ensures ConnectDone(s, k, failed, ok) ==
            if failed then TryClose(ConnectState(s, k, failed), k, ok)
            else TryConnect(ConnectState(s, k, failed), k, ok)
  {
  }

  lemma TryWire(s: State, k: nat, ok: bool)
    requires k < |s.services| && WireOf(s, Nothing) && s.services[k].priv.Stream?
    ensures s.services[k].priv.state == NotifyClient ==> WireOf(TryConnect(s, k, ok), Nothing)
    ensures s.services[k].priv.state == ErrorClose ==> WireOf(TryClose(s, k, ok), Nothing)
  {
    var reading := s.services[k].priv.reading;
    hide Wire;
    hide PoolOk;
    hide TryClose;
    hide TryConnect;
    KickWire(s, k, ok);
  }

  /** Refused: the socket stops reading and the mark says so. */
  lemma StopInv(s: State, k: nat, priv: Private)
    requires Inv(s) && k < |s.services| && s.frameCount == FRAME_MAX + 1
    requires var v := s.services[k].priv;
             (v.Stream? && priv == Stream(v.state, false)) || (v.Shell? && priv == Shell(v.waitAck, false))
    ensures Inv(SetPrivate(s, k, priv))
  {
    hide Wire;
    hide PoolOk;
    ServiceFacts(s, k, Nothing);
    ReplaceWire(s, k, s.services[k].(priv := priv), Nothing, Nothing);
    SetPrivatePool(s, k, priv, multiset{});
  }

  /** A connected stream, or a shell with nothing unacknowledged, sends what its socket delivered. */
  lemma ForwardInv(s: State, k: nat, priv: Private, p: Packet, ok: bool)
    requires k < |s.services| && Good(s, multiset{p.pid}, Nothing) && p.writeLen <= |p.data|
    requires p.msg.arg0 == s.services[k].id && p.msg.arg1 == s.services[k].peer
    requires var v := s.services[k].priv;
             || (v.Stream? && v.state == Connected && priv == Stream(WaitAck, false))
             || (v.Shell? && !v.waitAck && priv == Shell(true, false))
    ensures Inv(SendData(SetPrivate(s, k, priv), p, ok))
  {
    hide Wire;
    hide PoolOk;
    hide SendFrame;
    var v := s.services[k];
    ServiceFacts(s, k, Nothing);
    ReplaceWire(s, k, v.(priv := priv), Nothing, Unblock(v.handle));
    SetPrivatePool(s, k, priv, multiset{p.pid});
    assert multiset{} + multiset{p.pid} == multiset{p.pid};
    SendDataGood(SetPrivate(s, k, priv), k, p, ok, multiset{}, Unblock(v.handle));
  }

  lemma StreamReadInv(s: State, k: nat, avail: seq<byte>, failed: bool, ok: bool)
    requires Inv(s) && k < |s.services| && s.services[k].priv.Stream? && s.services[k].priv.reading
    ensures Inv(StreamRead(s, k, avail, failed, ok))
  {
    hide Wire;
    hide PoolOk;
    hide SendFrame;
    hide CloseService;
    hide Release;
    AllocateGood(s, multiset{});
    ServiceFacts(s, k, Nothing);
    var (s1, pid) := Allocate(s);
    var bytes := Readable(avail);
    if pid.None? {
      StopInv(s1, k, Stream(Connected, false));
    } else if failed {
      CloseGood(s1, k, Some(Filled(pid.value, [])), ok, multiset{}, Nothing);
    } else if bytes == [] {
      ReleaseGood(s1, pid.value, ok, multiset{});
    } else {
      var e := Fetched(s.services[k].handle, bytes);
      NoteGood(s1, e, multiset{} + multiset{pid.value}, Nothing);
      StreamDataInv(Log(s1, e), k, pid.value, bytes, ok);
    }
  }

  lemma StreamDataInv(s: State, k: nat, pid: nat, bytes: seq<byte>, ok: bool)
    requires Good(s, multiset{} + multiset{pid}, Nothing) && k < |s.services| && bytes != []
    requires s.services[k].priv.Stream? && s.services[k].priv.state == Connected
    ensures Inv(OnStreamData(SetPrivate(s, k, Stream(Connected, false)), k, Filled(pid, bytes), ok))
  {
    hide Wire;
    hide PoolOk;
    hide SendFrame;
    var v, p := s.services[k], Filled(pid, bytes);
    assert multiset{} + multiset{pid} == multiset{pid};
    ForwardInv(s, k, Stream(WaitAck, false), p.(msg := p.msg.(arg0 := v.id, arg1 := v.peer), writeLen := |bytes|), ok);
    TwiceSet(s, k, Stream(Connected, false), Stream(WaitAck, false));
  }

  lemma TwiceSet(s: State, k: nat, a: Private, b: Private)
    requires k < |s.services|
    ensures SetPrivate(SetPrivate(s, k, a), k, b) == SetPrivate(s, k, b)
  {
    assert s.services[k := s.services[k].(priv := a)][k := s.services[k].(priv := b)]
        == s.services[k := s.services[k].(priv := b)];
  }

  lemma ShellReadInv(s: State, k: nat, avail: seq<byte>, failed: bool, ok: bool)
    requires Inv(s) && k < |s.services| && s.services[k].priv.Shell? && s.services[k].priv.reading
    ensures Inv(ShellRead(s, k, avail, failed, ok))
  {
    hide Wire;
    hide PoolOk;
    hide SendFrame;
    hide CloseService;
    hide Release;
    AllocateGood(s, multiset{});
    ServiceFacts(s, k, Nothing);
    var v := s.services[k];
    var (s1, pid) := Allocate(s);
    var bytes := Readable(avail);
    if pid.None? {
      StopInv(s1, k, Shell(false, false));
    } else if failed || bytes == [] {
      CloseGood(s1, k, Some(Fresh(pid.value)), ok, multiset{}, Nothing);
    } else {
      var e, p := Fetched(v.handle, bytes), Filled(pid.value, bytes);
      assert multiset{} + multiset{p.pid} == multiset{p.pid};
      NoteGood(s1, e, multiset{p.pid}, Nothing);
      ForwardInv(Log(s1, e), k, Shell(true, false),
                 p.(msg := p.msg.(arg0 := v.id, arg1 := v.peer), writeLen := |bytes|), ok);
    }
  }

  lemma WriteDoneInv(s: State, i: nat, failed: bool, ok: bool)
    requires Inv(s) && i < |s.requests|
    ensures Inv(WriteDone(s, i, failed, ok))
  {
    hide Wire;
    hide PoolOk;
    hide SendFrame;
    hide CloseService;
    hide Release;
    var r, p := s.requests[i], s.requests[i].packet;
    var s1 := s.(requests := Cut(s.requests, i));
    DoneWire(s, i);
    PidsRemove(s.requests, i);
    assert Owned(s1) + multiset{p.pid} == Owned(s) + multiset{};
    PoolMoved(s, multiset{}, s1, multiset{p.pid});
    assert multiset{} + multiset{p.pid} == multiset{p.pid};
    match r.target
    case Transport =>
      if failed {
        ReleaseGood(s1, p.pid, ok, multiset{});
        var s2 := Release(s1, p.pid, ok);
        SameInv(s2, s2.(open := false));
      } else if p.writeLen > 0 {
        ReplyGood(s1, p, ok, s, r);
      } else {
        ReleaseGood(s1, p.pid, ok, multiset{});
      }
    case Socket(h) =>
      OwnerListed(s, r, h);
      var k := OwnerFrom(s.services, 0, h).value;
      ServiceFacts(s1, k, WriteAck(h));
      if failed {
        CloseGood(s1, k, Some(p), ok, multiset{}, WriteAck(h));
      } else {
        SendOkayGood(s1, k, p.(writeLen := 0), ok, multiset{}, WriteAck(h));
      }
  }

  lemma OwnerListed(s: State, r: Request, h: nat)
    requires WireOf(s, Nothing) && r in s.requests && r.target == Socket(h)
    ensures OwnerFrom(s.services, 0, h).Some?
    ensures Accepts(s.services[OwnerFrom(s.services, 0, h).value].priv)
  {
    assert RequestOk(r, s.nextId, s.services);
    var k := OwnerFrom(s.services, 0, h).value;
    ServiceFacts(s, k, Nothing);
    QueuedMember(s.requests, r, h);
  }

  /** The reply bytes that waited behind their OKAY go out as a WRTE with the same ids. */
  lemma ReplyGood(s1: State, p: Packet, ok: bool, s: State, r: Request)
    requires Good(s1, multiset{p.pid}, Nothing) && p.writeLen > 0
    requires WireOf(s, Nothing) && r in s.requests && r.target == Transport && r.packet == p
    requires s1.services == s.services && s1.nextId == s.nextId
    ensures Inv(SendData(s1, p, ok))
  {
    hide PoolOk;
    assert RequestOk(r, s.nextId, s.services);
    var q := p.(msg := p.msg.(command := A_WRTE, dataLength := p.writeLen), writeLen := 0);
    assert multiset{} + multiset{p.pid} == multiset{p.pid};
    SendFramePool(s1, q, ok, multiset{});
    var e := Offered(q.pid, Seal(q.msg, Payload(q)), Payload(q));
    forall v | v in s1.services && v.handle == q.msg.arg0
      ensures ServiceOk(v, Count(TallyOf(s1.log, v.handle), e, v.handle), |QueuedFor(s1.requests, v.handle)|, Nothing)
    {
      assert ServiceAt(v, s1.nextId, s1.requests, s1.log, Nothing);
    }
    SendCountedWire(s1, q, ok, Nothing, Nothing);
  }

  lemma StepInv(s: State, e: Event, env: Env)
    requires Inv(s) && Enabled(s, e) && IsEnv(env)
    ensures Inv(Step(s, e, env))
  {
    hide Inv;
    hide TransportRead;
    hide TransportError;
    hide WriteDone;
    hide ConnectDone;
    hide StreamRead;
    hide ShellRead;
    match e
    case ReadTransport(avail) => TransportInv(s, avail, env);
    case FailTransport => TransportInv(s, [], env);
    case CompleteWrite(i, failed) => WriteDoneInv(s, i, failed, env.writeOk);
    case CompleteConnect(k, failed) => ConnectInv(s, k, failed, env.writeOk);
    case ReadService(k, avail, failed) =>
      if s.services[k].priv.Stream? {
        StreamReadInv(s, k, avail, failed, env.writeOk);
      } else {
        ShellReadInv(s, k, avail, failed, env.writeOk);
      }
  }

  /** Every state of every run satisfies the invariant. */
  lemma {:induction false} RunInv(s: State, turns: seq<Turn>)
    requires Inv(s) && CanRun(s, turns)
    ensures Inv(Run(s, turns))
    decreases |turns|
  {
    hide Inv;
    hide Step;
    if turns != [] {
      StepInv(s, turns[0].event, turns[0].env);
      RunInv(Step(s, turns[0].event, turns[0].env), turns[1..]);
    }
  }
}
