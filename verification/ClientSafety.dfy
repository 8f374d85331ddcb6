/** Every event keeps the invariant, hence every run does. */
module ClientSafety {
  import opened Bytes
  import opened Frame
  import opened ClientSpec
  import opened ClientTally
  import opened ClientInvariant
  import opened ClientWire

  /** The invariant in the middle of a callback that holds the packets `hand`. */
  ghost predicate Good(s: State, hand: multiset<nat>, due: Due) {
    PoolOk(s, hand) && WireOf(s, due) && WakeOk(s)
  }

  // ---------- kicks ----------

  lemma TryConnectWire(s: State, k: nat, ok: bool)
    requires k < |s.services| && WireOf(s, Nothing)
    requires s.services[k].priv.Stream? && s.services[k].priv.state == NotifyClient
    ensures WireOf(TryConnect(s, k, ok), Nothing)
  {
    hide Wire;
    hide PoolOk;
    var (s1, pid) := Allocate(s);
    if pid.Some? {
      var v := s.services[k];
      var w := v.(priv := Stream(Connected, true));
      ServiceFacts(s, k, Nothing);
      ReplaceWire(s1, k, w, Nothing, OpenAck(v.handle));
      assert SetPrivate(s1, k, w.priv).services[k] == w;
      SendOkayWire(SetPrivate(s1, k, w.priv), w, Fresh(pid.value), ok, OpenAck(v.handle));
    }
  }

  lemma ServiceFacts(s: State, k: nat, due: Due)
    requires k < |s.services| && WireOf(s, due)
    ensures var v := s.services[k];
            v.handle < s.nextId && ServiceOk(v, TallyOf(s.log, v.handle), |QueuedFor(s.requests, v.handle)|, due)
    ensures Descending(s.services)
  {
    assert ServiceAt(s.services[k], s.nextId, s.requests, s.log, due);
  }

  lemma ResumeWire(s: State, k: nat, priv: Private)
    requires k < |s.services| && WireOf(s, Nothing)
    requires var v := s.services[k].priv;
             || (v.Stream? && v.state == Connected && priv == Stream(Connected, true))
             || (v.Shell? && !v.waitAck && priv == Shell(false, true))
    ensures WireOf(SetPrivate(s, k, priv), Nothing)
  {
    ServiceFacts(s, k, Nothing);
    ReplaceWire(s, k, s.services[k].(priv := priv), Nothing, Nothing);
  }

  lemma KickWire(s: State, k: nat, ok: bool)
    requires k < |s.services| && WireOf(s, Nothing)
    ensures WireOf(OnKick(s, k, ok), Nothing)
  {
    hide Wire;
    hide PoolOk;
    hide CloseService;
    hide TryConnect;
    match s.services[k].priv
    case Shell(waitAck, _) => if !waitAck { ResumeWire(s, k, Shell(false, true)); }
    case Stream(Connected, _) => ResumeWire(s, k, Stream(Connected, true));
    case Stream(NotifyClient, _) => TryConnectWire(s, k, ok);
    case Stream(ErrorClose, _) =>
      var (s1, pid) := Allocate(s);
      if pid.Some? {
        CloseWire(s1, k, Some(Fresh(pid.value)), ok, Nothing);
      }
    case _ =>
  }

  lemma {:induction false} KickFromWire(s: State, k: nat, ok: bool)
    requires WireOf(s, Nothing)
    ensures WireOf(KickFrom(s, k, ok), Nothing)
    decreases |s.services| - k
  {
    hide Wire;
    hide PoolOk;
    hide OnKick;
    if k < |s.services| {
      KickWire(s, k, ok);
      var s1 := OnKick(s, k, ok);
      KickFromWire(s1, if |s1.services| < |s.services| then k else k + 1, ok);
    }
  }

  lemma ReleaseWire(s: State, pid: nat, ok: bool)
    requires WireOf(s, Nothing)
    ensures WireOf(Release(s, pid, ok), Nothing)
  {
    hide Wire;
    hide PoolOk;
    hide KickFrom;
    LogQuiet(s.nextId, s.services, s.requests, s.log, Freed(pid), Nothing);
    HonestAppend(s.log, Freed(pid));
    if s.frameCount > FRAME_MAX {
      KickFromWire(Log(s, Freed(pid)).(frameCount := FRAME_MAX - 1).(reading := true), 0, ok);
    }
  }

  /** A stream that still has to tell the peer how its connect ended. */
  predicate MustSend(priv: Private) {
    priv.Stream? && (priv.state == NotifyClient || priv.state == ErrorClose)
  }

  /** A service that has nothing to send resumes reading when it is kicked, if it may. */
  function Resumed(priv: Private): Private {
    match priv
    case Sync => Sync
    case Stream(state, _) => if state == Connected then Stream(Connected, true) else priv
    case Shell(waitAck, _) => if waitAck then priv else Shell(false, true)
  }

  lemma OnKickResumes(s: State, k: nat, ok: bool)
    requires k < |s.services| && !MustSend(s.services[k].priv)
    ensures OnKick(s, k, ok) == SetPrivate(s, k, Resumed(s.services[k].priv))
  {
    assert s.services[k := s.services[k]] == s.services;
  }

  lemma TryCloseEffects(s: State, k: nat, ok: bool)
    requires k < |s.services|
    ensures var (s1, s2) := (Allocate(s).0, TryClose(s, k, ok));
            && s2.frameCount == s1.frameCount && s2.reading == s.reading
            && s2.services == if s.frameCount >= FRAME_MAX then s.services else Cut(s.services, k)
  {
    hide CloseService;
    var (s1, pid) := Allocate(s);
    if pid.Some? {
      CloseEffects(s1, k, Some(Fresh(pid.value)), ok);
    }
  }

  /** What a kick does to one service: it no longer waits, or the pool is marked again. */
  lemma OnKickWakes(s: State, k: nat, ok: bool)
    requires k < |s.services| && s.reading && s.frameCount <= FRAME_MAX + 1
    ensures var s1 := OnKick(s, k, ok);
            && s1.reading && s1.frameCount <= FRAME_MAX + 1
            && (s.frameCount == FRAME_MAX + 1 ==> s1.frameCount == FRAME_MAX + 1)
            && (s1.frameCount == FRAME_MAX + 1 || Served(s.services, s1.services, k))
  {
    hide TryClose;
    hide TryConnect;
    if !MustSend(s.services[k].priv) {
      OnKickResumes(s, k, ok);
      SetServed(s, k, Resumed(s.services[k].priv));
    } else {
      TryConnectEffects(s, k, ok);
      TryCloseEffects(s, k, ok);
      SetServed(s, k, Stream(Connected, true));
    }
  }

  lemma SetServed(s: State, k: nat, priv: Private)
    requires k < |s.services| && !Idle(priv)
    ensures Served(s.services, SetPrivate(s, k, priv).services, k)
  {
  }

  lemma CloseEffects(s: State, k: nat, p: Option<Packet>, ok: bool)
    requires k < |s.services|
    ensures var s1 := CloseService(s, k, p, ok);
            && s1.services == Cut(s.services, k)
            && s1.frameCount == s.frameCount && s1.reading == s.reading
            && s1.cur == s.cur && s1.nextPid == s.nextPid
            && s1.rx == s.rx && s1.isConnected == s.isConnected && s1.rejected == s.rejected
  {
  }

  lemma TryConnectEffects(s: State, k: nat, ok: bool)
    requires k < |s.services|
    ensures var (s1, s2) := (Allocate(s).0, TryConnect(s, k, ok));
            && s2.frameCount == s1.frameCount && s2.reading == s.reading
            && s2.services == if s.frameCount >= FRAME_MAX then s.services
                              else s.services[k := s.services[k].(priv := Stream(Connected, true))]
  {
  }

  /** Service k has left the list or waits no more; the others are as before. */
  ghost predicate Served(before: seq<Service>, after: seq<Service>, k: nat)
    requires k < |before|
  {
    || after == Cut(before, k)
    || (&& |after| == |before|
        && !Idle(after[k].priv)
        && forall i :: 0 <= i < |before| && i != k ==> after[i] == before[i])
  }

  lemma {:induction false} KickFromWakes(s: State, k: nat, ok: bool)
    requires s.reading && s.frameCount <= FRAME_MAX + 1 && Settled(s, k)
    ensures WakeOk(KickFrom(s, k, ok)) && KickFrom(s, k, ok).reading
    decreases |s.services| - k
  {
    if k < |s.services| {
      OnKickWakes(s, k, ok);
      var s1 := OnKick(s, k, ok);
      KickFromWakes(s1, if |s1.services| < |s.services| then k else k + 1, ok);
    }
  }

  /** The release of a packet settles everybody, whatever was waiting. */
  lemma ReleaseWakes(s: State, pid: nat, ok: bool)
    requires s.frameCount <= FRAME_MAX + 1 && WakeOk(s)
    ensures WakeOk(Release(s, pid, ok))
  {
    if s.frameCount > FRAME_MAX {
      KickFromWakes(Log(s, Freed(pid)).(frameCount := FRAME_MAX - 1).(reading := true), 0, ok);
    }
  }

  // ---------- primitives ----------

  lemma ReleaseGood(s: State, pid: nat, ok: bool, hand: multiset<nat>)
    requires Good(s, hand + multiset{pid}, Nothing)
    ensures Good(Release(s, pid, ok), hand, Nothing)
  {
    hide Wire;
    hide PoolOk;
    hide Release;
    ReleasePool(s, pid, ok, hand);
    ReleaseWire(s, pid, ok);
    ReleaseWakes(s, pid, ok);
  }

  lemma CloseGood(s: State, k: nat, p: Option<Packet>, ok: bool, hand: multiset<nat>, due: Due)
    requires k < |s.services| && Debtor(due) in {0, s.services[k].handle}
    requires p.None? ==> |hand| > 0 && MayClose(s, k)
    requires Good(s, hand + (if p.Some? then multiset{p.value.pid} else multiset{}), due)
    ensures Good(CloseService(s, k, p, ok), hand, Nothing)
  {
    hide Wire;
    hide PoolOk;
    hide CloseService;
    ClosePool(s, k, p, ok, hand);
    CloseWire(s, k, p, ok, due);
    CloseEffects(s, k, p, ok);
  }

  lemma SendPlainGood(s: State, p: Packet, ok: bool, hand: multiset<nat>, due: Due)
    requires Good(s, hand + multiset{p.pid}, due) && p.writeLen == 0 && p.msg.dataLength <= |p.data|
    requires p.msg.command != A_OKAY && p.msg.command != A_WRTE
    ensures Good(SendFrame(s, p, ok), hand, due)
  {
    hide Wire;
    hide PoolOk;
    SendFramePool(s, p, ok, hand);
    SendPlainWire(s, p, ok, due);
  }

  lemma SendOkayGood(s: State, k: nat, p: Packet, ok: bool, hand: multiset<nat>, due: Due)
    requires k < |s.services| && Good(s, hand + multiset{p.pid}, due) && Accepts(s.services[k].priv)
    requires due == OpenAck(s.services[k].handle) || due == WriteAck(s.services[k].handle)
    requires p.writeLen > 0 ==> s.services[k].priv.Sync? && p.writeLen <= |p.data|
    ensures Good(SendOkayWithData(s, p, s.services[k].id, s.services[k].peer, ok), hand, Nothing)
  {
    hide Wire;
    hide PoolOk;
    var v := s.services[k];
    SendFramePool(s, Headed(p, A_OKAY, v.id, v.peer, 0), ok, hand);
    SendOkayWire(s, v, p, ok, due);
  }

  /** A WRTE of the listed service at k: the reply of the sync service, or the one frame a stream may have out. */
  lemma SendDataWire(s: State, k: nat, p: Packet, ok: bool, due: Due)
    requires k < |s.services| && WireOf(s, due)
    requires var v := s.services[k];
             && Accepts(v.priv) && p.msg.arg0 == v.id && p.msg.arg1 == v.peer && p.writeLen <= |p.data|
             && (due == Unblock(v.handle) || (due == Nothing && v.priv.Sync?))
             && (!v.priv.Sync? ==> Waiting(v.priv))
    ensures WireOf(SendData(s, p, ok), Nothing)
  {
    var v := s.services[k];
    ServiceFacts(s, k, due);
    OneHandle(s.services, v);
    SendCountedWire(s, p.(msg := p.msg.(command := A_WRTE, dataLength := p.writeLen), writeLen := 0), ok, due, Nothing);
  }

  lemma SendDataGood(s: State, k: nat, p: Packet, ok: bool, hand: multiset<nat>, due: Due)
    requires k < |s.services| && Good(s, hand + multiset{p.pid}, due)
    requires var v := s.services[k];
             && Accepts(v.priv) && p.msg.arg0 == v.id && p.msg.arg1 == v.peer && p.writeLen <= |p.data|
             && (due == Unblock(v.handle) || (due == Nothing && v.priv.Sync?))
             && (!v.priv.Sync? ==> Waiting(v.priv))
    ensures Good(SendData(s, p, ok), hand, Nothing)
  {
    hide Wire;
    hide PoolOk;
    SendFramePool(s, p.(msg := p.msg.(command := A_WRTE, dataLength := p.writeLen), writeLen := 0), ok, hand);
    SendDataWire(s, k, p, ok, due);
  }

  // ---------- dispatch ----------

  /** What the dispatcher owes once a received frame has been logged. */
  function GotDue(ss: seq<Service>, m: Message): Due {
    var k := if m.command == A_WRTE then Find(ss, m.arg1, m.arg0)
             else if m.command == A_OKAY then Find(ss, m.arg1, 0) else None;
    if k.None? || ss[k.value].id == 0 then Nothing
    else if m.command == A_WRTE then WriteAck(ss[k.value].handle) else Unblock(ss[k.value].handle)
  }

  lemma {:induction false} FindFirst(ss: seq<Service>, i: nat, id: nat, peer: nat)
    ensures var r := FindFrom(ss, i, id, peer);
            if r.Some? then ss[r.value].id == id && (peer == 0 || ss[r.value].peer == peer)
            else forall j :: i <= j < |ss| ==> !(ss[j].id == id && (peer == 0 || ss[j].peer == peer))
    decreases |ss| - i
  {
    if i < |ss| {
      FindFirst(ss, i + 1, id, peer);
    }
  }

  /** Lookup by a non-zero id and an optional peer finds the one matching service, or there is none. */
  lemma FindUnique(s: State, id: nat, peer: nat, due: Due)
    requires WireOf(s, due) && id != 0
    ensures var r := Find(s.services, id, peer);
            forall v :: v in s.services && v.id == id ==>
              if peer == 0 || v.peer == peer then r.Some? && s.services[r.value] == v else r.None?
  {
    FindFirst(s.services, 0, id, peer);
    forall v | v in s.services && v.id == id
      ensures var r := Find(s.services, id, peer);
              if peer == 0 || v.peer == peer then r.Some? && s.services[r.value] == v else r.None?
    {
      var r := Find(s.services, id, peer);
      assert ServiceAt(v, s.nextId, s.requests, s.log, due);
      if r.Some? {
        ServiceFacts(s, r.value, due);
        OneHandle(s.services, v);
      }
    }
  }

  function GotPeer(m: Message): nat {
    if m.command == A_WRTE then m.arg0 else 0
  }

  lemma GotFor(s: State, v: Service, e: Entry, due: Due)
    requires WireOf(s, Nothing) && v in s.services && e.Got? && v.handle == e.msg.arg1
    requires e.msg.command == A_OKAY || e.msg.command == A_WRTE
    requires due == GotDue(s.services, e.msg)
    ensures ServiceOk(v, Count(TallyOf(s.log, v.handle), e, v.handle), |QueuedFor(s.requests, v.handle)|, due)
  {
    assert ServiceAt(v, s.nextId, s.requests, s.log, Nothing);
    if v.id != 0 {
      FindUnique(s, v.id, GotPeer(e.msg), Nothing);
    }
  }

  lemma GotDebtor(s: State, m: Message)
    requires WireOf(s, Nothing)
    ensures Debtor(GotDue(s.services, m)) in {0, m.arg1}
  {
    var k := Find(s.services, m.arg1, GotPeer(m));
    FindFirst(s.services, 0, m.arg1, GotPeer(m));
    if k.Some? {
      ServiceFacts(s, k.value, Nothing);
    }
  }

  lemma GotWire(s: State, pid: nat, m: Message, payload: seq<byte>)
    requires WireOf(s, Nothing)
    ensures WireOf(Log(s, Got(pid, m, payload)), GotDue(s.services, m))
  {
    hide Wire;
    hide PoolOk;
    var e, due := Got(pid, m, payload), GotDue(s.services, m);
    HonestAppend(s.log, e);
    if m.command != A_OKAY && m.command != A_WRTE {
      LogQuiet(s.nextId, s.services, s.requests, s.log, e, Nothing);
    } else {
      GotDebtor(s, m);
      forall v | v in s.services && v.handle == m.arg1
        ensures ServiceOk(v, Count(TallyOf(s.log, m.arg1), e, m.arg1), |QueuedFor(s.requests, m.arg1)|, due)
      {
        GotFor(s, v, e, due);
      }
      LogWire(s.nextId, s.services, s.requests, s.log, e, m.arg1, Nothing, due);
    }
  }

  lemma OpenGood(s: State, p: Packet, env: Env)
    requires Good(s, multiset{p.pid}, Nothing) && IsEnv(env) && p.writeLen == 0
    ensures Good(HandleOpen(s, p, env), multiset{}, Nothing)
  {
    hide Wire;
    hide PoolOk;
    hide Release;
    hide SendFrame;
    assert multiset{} + multiset{p.pid} == multiset{p.pid};
    if p.msg.arg0 == 0 || p.msg.arg1 != 0 {
      ReleaseGood(s, p.pid, env.writeOk, multiset{});
    } else if OpeningOf(p, env).Refused? {
      if |OpeningOf(p, env).reply| > 0 {
        OneShotGood(s, p, OpeningOf(p, env).reply, env.writeOk);
      } else {
        SendPlainGood(s, Headed(p, A_CLSE, 0, p.msg.arg0, 0), env.writeOk, multiset{}, Nothing);
      }
    } else {
      NewServiceGood(s, p, OpeningOf(p, env).priv, env.writeOk);
    }
  }

  lemma RegisterGood(s: State, peer: nat, priv: Private, hand: multiset<nat>)
    requires Good(s, hand, Nothing) && peer != 0 && IsOpening(Opens(priv))
    ensures Good(RegisterService(s, peer, priv), hand, if Accepts(priv) then OpenAck(s.nextId) else Nothing)
  {
    hide Wire;
    hide PoolOk;
    RegisterWire(s, peer, priv);
    var s1 := RegisterService(s, peer, priv);
    assert Owned(s1) == Owned(s);
    PoolMoved(s, hand, s1, hand);
    assert forall k :: 1 <= k < |s1.services| ==> s1.services[k] == s.services[k - 1];
  }

  lemma NewServiceGood(s: State, p: Packet, priv: Private, ok: bool)
    requires Good(s, multiset{p.pid}, Nothing) && p.msg.arg0 != 0 && IsOpening(Opens(priv)) && p.writeLen == 0
    ensures var s1 := RegisterService(s, p.msg.arg0, priv);
            Good(if priv.Stream? then Release(s1, p.pid, ok) else SendOkayWithData(s1, p, s.nextId, p.msg.arg0, ok),
                 multiset{}, Nothing)
  {
    hide Wire;
    hide PoolOk;
    hide Release;
    hide SendFrame;
    assert multiset{} + multiset{p.pid} == multiset{p.pid};
    RegisterGood(s, p.msg.arg0, priv, multiset{p.pid});
    var s1 := RegisterService(s, p.msg.arg0, priv);
    if priv.Stream? {
      ReleaseGood(s1, p.pid, ok, multiset{});
    } else {
      SendOkayGood(s1, 0, p, ok, multiset{}, OpenAck(s.nextId));
    }
  }

  /** A one-shot service answers under an id of its own, which no listed service has. */
  lemma OneShotGood(s: State, p: Packet, reply: seq<byte>, ok: bool)
    requires Good(s, multiset{p.pid}, Nothing) && |reply| > 0
    ensures Good(SendOkayWithData(s.(nextId := s.nextId + 1), p.(data := reply, writeLen := |reply|),
                                  s.nextId, p.msg.arg0, ok), multiset{}, Nothing)
  {
    hide PoolOk;
    hide Wire;
    hide Honest;
    hide Owned;
    var s1 := s.(nextId := s.nextId + 1);
    var q := Headed(p.(data := reply, writeLen := |reply|), A_OKAY, s.nextId, p.msg.arg0, 0);
    assert multiset{} + multiset{p.pid} == multiset{p.pid};
    OwnedSame(s, s1);
    PoolMoved(s, multiset{p.pid}, s1, multiset{p.pid});
    SendFramePool(s1, q, ok, multiset{});
    NextIdWire(s);
    SendCountedWire(s1, q, ok, Nothing, Nothing);
  }

  lemma NextIdWire(s: State)
    requires WireOf(s, Nothing)
    ensures s.nextId > 0 && WireOf(s.(nextId := s.nextId + 1), Nothing)
    ensures forall v :: v in s.services ==> v.handle != s.nextId && v.id != s.nextId
  {
    var n := s.nextId + 1;
    forall v | v in s.services
      ensures ServiceAt(v, n, s.requests, s.log, Nothing) && v.handle != s.nextId && v.id != s.nextId
    {
      assert ServiceAt(v, s.nextId, s.requests, s.log, Nothing);
    }
    forall r | r in s.requests ensures RequestOk(r, n, s.services) {
      assert RequestOk(r, s.nextId, s.services);
    }
    forall h: nat ensures HandleOk(h, n, s.services, s.log) {
      assert HandleOk(h, s.nextId, s.services, s.log);
    }
  }

  /** The frame being processed is the last entry of the history. */
  predicate JustGot(s: State, m: Message) {
    s.log != [] && s.log[|s.log| - 1].Got? && s.log[|s.log| - 1].msg == m
  }

  lemma CloseFrameGood(s: State, p: Packet, env: Env)
    requires Good(s, multiset{p.pid}, Nothing) && JustGot(s, p.msg) && p.msg.command == A_CLSE
    ensures Good(HandleClose(s, p, env), multiset{}, Nothing)
  {
    hide Wire;
    hide PoolOk;
    hide CloseService;
    hide Release;
    assert multiset{} + multiset{p.pid} == multiset{p.pid} + multiset{} == multiset{p.pid};
    var k := Find(s.services, p.msg.arg1, p.msg.arg0);
    if k.Some? {
      FindFirst(s.services, 0, p.msg.arg1, p.msg.arg0);
      ServiceFacts(s, k.value, Nothing);
      CloseGood(s, k.value, None, env.writeOk, multiset{p.pid}, Nothing);
      ReleaseGood(CloseService(s, k.value, None, env.writeOk), p.pid, env.writeOk, multiset{});
    } else {
      ReleaseGood(s, p.pid, env.writeOk, multiset{});
    }
  }

  lemma QueueGood(s: State, k: nat, p: Packet)
    requires k < |s.services| && Accepts(s.services[k].priv)
    requires Good(s, multiset{p.pid}, WriteAck(s.services[k].handle))
    ensures Good(QueueOnSocket(s, s.services[k].handle, p), multiset{}, Nothing)
  {
    hide Wire;
    hide PoolOk;
    var h := s.services[k].handle;
    QueueWire(s, s.services[k], p);
    RequestsAppend(s.requests, Request(Socket(h), p));
    assert Owned(QueueOnSocket(s, h, p)) + multiset{} == Owned(s) + multiset{p.pid};
    PoolMoved(s, multiset{p.pid}, QueueOnSocket(s, h, p), multiset{});
  }

  lemma NoteGood(s: State, a: Entry, hand: multiset<nat>, due: Due)
    requires Good(s, hand, due) && (a.Answered? || a.Fetched?)
    ensures Good(Log(s, a), hand, due)
  {
    hide Wire;
    hide PoolOk;
    LogQuiet(s.nextId, s.services, s.requests, s.log, a, due);
    HonestAppend(s.log, a);
    OwnedSame(s, Log(s, a));
    hide Owned;
    PoolMoved(s, hand, Log(s, a), hand);
  }

  lemma SyncWriteGood(s: State, k: nat, p: Packet, env: Env)
    requires k < |s.services| && s.services[k].priv.Sync?
    requires Good(s, multiset{p.pid}, WriteAck(s.services[k].handle))
    ensures Good(SyncWrite(s, k, p, env), multiset{}, Nothing)
  {
    hide Wire;
    hide PoolOk;
    hide CloseService;
    hide SendFrame;
    assert multiset{} + multiset{p.pid} == multiset{p.pid};
    var v := s.services[k];
    var a, due := Answered(v.handle, Data(Payload(p)), env.syncOk, env.reply), WriteAck(v.handle);
    NoteGood(s, a, multiset{p.pid}, due);
    if env.syncOk {
      var q := p.(data := env.reply, writeLen := |env.reply|);
      SendOkayGood(Log(s, a), k, q, env.writeOk, multiset{}, due);
    } else {
      CloseGood(Log(s, a), k, Some(p), env.writeOk, multiset{}, due);
    }
  }

  lemma WriteFrameGood(s: State, p: Packet, env: Env)
    requires p.msg.command == A_WRTE && p.writeLen == 0
    requires Good(s, multiset{p.pid}, GotDue(s.services, p.msg))
    ensures Good(HandleWrite(s, p, env), multiset{}, Nothing)
  {
    hide Wire;
    hide PoolOk;
    hide CloseService;
    hide SendFrame;
    assert multiset{} + multiset{p.pid} == multiset{p.pid};
    var k := Find(s.services, p.msg.arg1, p.msg.arg0);
    if k.None? {
      SendPlainGood(s, Headed(p, A_CLSE, p.msg.arg1, p.msg.arg0, 0), env.writeOk, multiset{}, Nothing);
    } else {
      var v := s.services[k.value];
      var due := GotDue(s.services, p.msg);
      ServiceFacts(s, k.value, due);
      if v.priv.Sync? {
        SyncWriteGood(s, k.value, p, env);
      } else if !v.priv.Sync? && Accepts(v.priv) && env.socketOk {
        QueueGood(s, k.value, p);
      } else {
        CloseGood(s, k.value, Some(p), env.writeOk, multiset{}, due);
      }
    }
  }

  lemma AckedWire(s: State, k: nat, due: Due)
    requires k < |s.services| && WireOf(s, due)
    requires due == if s.services[k].id == 0 then Nothing else Unblock(s.services[k].handle)
    ensures WireOf(SetPrivate(s, k, Acked(s.services[k].priv)), Nothing)
    ensures WakeOk(s) ==> WakeOk(SetPrivate(s, k, Acked(s.services[k].priv)))
    ensures WithPeer(s, k, 0) == s && forall peer :: WithPeer(s, k, peer) == s
  {
    ServiceFacts(s, k, due);
    ReplaceWire(s, k, s.services[k].(priv := Acked(s.services[k].priv)), due, Nothing);
  }

  lemma AckedGood(s: State, k: nat, hand: multiset<nat>, due: Due)
    requires k < |s.services| && Good(s, hand, due)
    requires due == if s.services[k].id == 0 then Nothing else Unblock(s.services[k].handle)
    ensures Good(SetPrivate(s, k, Acked(s.services[k].priv)), hand, Nothing)
    ensures forall peer :: WithPeer(s, k, peer) == s
  {
    hide Wire;
    hide PoolOk;
    AckedWire(s, k, due);
    SetPrivatePool(s, k, Acked(s.services[k].priv), hand);
  }

  lemma SyncOkayGood(s: State, k: nat, p: Packet, env: Env)
    requires k < |s.services| && s.services[k].priv.Sync? && p.writeLen == 0
    requires Good(s, multiset{p.pid}, Nothing)
    ensures Good(SyncOkay(s, k, p, env), multiset{}, Nothing)
  {
    hide Wire;
    hide PoolOk;
    hide CloseService;
    hide SendFrame;
    hide Release;
    assert multiset{} + multiset{p.pid} == multiset{p.pid};
    var a := Answered(s.services[k].handle, Asked.Ready, env.syncOk, env.reply);
    NoteGood(s, a, multiset{p.pid}, Nothing);
    if !env.syncOk {
      CloseGood(Log(s, a), k, Some(p), env.writeOk, multiset{}, Nothing);
    } else if |env.reply| > 0 {
      SendDataGood(Log(s, a), k, ReplyTo(p, s.services[k], env.reply), env.writeOk, multiset{}, Nothing);
    } else {
      ReleaseGood(Log(s, a), p.pid, env.writeOk, multiset{});
    }
  }

  lemma OkayFrameGood(s: State, p: Packet, env: Env)
    requires p.msg.command == A_OKAY && p.writeLen == 0
    requires Good(s, multiset{p.pid}, GotDue(s.services, p.msg))
    ensures Good(HandleOkay(s, p, env), multiset{}, Nothing)
  {
    hide Wire;
    hide PoolOk;
    hide CloseService;
    hide SendFrame;
    hide Release;
    assert multiset{} + multiset{p.pid} == multiset{p.pid};
    var k := Find(s.services, p.msg.arg1, 0);
    if k.None? {
      SendPlainGood(s, Headed(p, A_CLSE, p.msg.arg1, p.msg.arg0, 0), env.writeOk, multiset{}, Nothing);
    } else {
      AckedGood(s, k.value, multiset{p.pid}, GotDue(s.services, p.msg));
      var s1 := SetPrivate(s, k.value, Acked(s.services[k.value].priv));
      if s.services[k.value].priv.Sync? {
        assert s1.services == s.services && s1 == s;
        SyncOkayGood(s, k.value, p, env);
      } else {
        ReleaseGood(s1, p.pid, env.writeOk, multiset{});
      }
    }
  }

  lemma ProcessGood(s: State, packet: Packet, env: Env)
    requires Good(s, multiset{packet.pid}, GotDue(s.services, packet.msg)) && IsEnv(env) && JustGot(s, packet.msg)
    ensures Good(ProcessPacket(s, packet, env), multiset{}, Nothing)
  {
    hide Wire;
    hide PoolOk;
    hide HandleOpen;
    hide HandleClose;
    hide HandleWrite;
    hide HandleOkay;
    hide SendFrame;
    hide Release;
    var p := packet.(writeLen := 0);
    assert multiset{} + multiset{p.pid} == multiset{p.pid};
    if p.msg.command == A_CNXN {
      var q := Headed(p, A_CNXN, A_VERSION, PAYLOAD_SIZE, |BANNER|).(data := BANNER);
      SendPlainGood(s, q, env.writeOk, multiset{}, Nothing);
      var s1 := SendConnect(s, p, env.writeOk);
      PoolMoved(s1, multiset{}, s1.(isConnected := true), multiset{});
    } else if p.msg.command == A_OPEN {
      OpenGood(s, p, env);
    } else if p.msg.command == A_CLSE {
      CloseFrameGood(s, p, env);
    } else if p.msg.command == A_WRTE {
      WriteFrameGood(s, p, env);
    } else if p.msg.command == A_OKAY {
      OkayFrameGood(s, p, env);
    } else {
      ReleaseGood(s, p.pid, env.writeOk, multiset{});
      var s1 := Release(s, p.pid, env.writeOk);
      PoolMoved(s1, multiset{}, s1.(open := false), multiset{});
    }
  }
}
