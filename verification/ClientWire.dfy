/** How the primitive operations keep the services in step with the history of frames. */
module ClientWire {
  import opened Bytes
  import opened Frame
  import opened ClientSpec
  import opened ClientTally
  import opened ClientInvariant

  /** The handle a due item concerns (0 is no handle). */
  function Debtor(due: Due): nat {
    if due.Nothing? then 0 else due.h
  }

  lemma SwitchDue(v: Service, t: Tally, q: nat, due: Due, due2: Due)
    requires ServiceOk(v, t, q, due) && Debtor(due) != v.handle && Debtor(due2) != v.handle
    ensures ServiceOk(v, t, q, due2)
  {
  }

  /** A new history entry that concerns only handle h and neither registers nor closes it. */
  lemma LogWire(nextId: nat, ss: seq<Service>, rs: seq<Request>, log: seq<Entry>, e: Entry, h: nat, due: Due, due2: Due)
    requires Wire(nextId, ss, rs, log, due)
    requires !e.Registered? && !e.Closed? && !e.ConnectFailed?
    requires forall t, g :: g != h ==> Count(t, e, g) == t
    requires Debtor(due) in {0, h} && Debtor(due2) in {0, h}
    requires forall v :: v in ss && v.handle == h ==>
               ServiceOk(v, Count(TallyOf(log, h), e, h), |QueuedFor(rs, h)|, due2)
    ensures Wire(nextId, ss, rs, log + [e], due2)
  {
    hide ServiceOk;
    hide TallyOf;
    forall v | v in ss ensures ServiceAt(v, nextId, rs, log + [e], due2) {
      ServiceLogged(v, nextId, rs, log, e, h, due, due2);
    }
    hide ServiceAt;
    forall g: nat ensures HandleOk(g, nextId, ss, log + [e]) {
      HandleLogged(g, nextId, ss, log, e);
    }
  }

  lemma ServiceLogged(v: Service, nextId: nat, rs: seq<Request>, log: seq<Entry>, e: Entry, h: nat, due: Due, due2: Due)
    requires ServiceAt(v, nextId, rs, log, due)
    requires forall t, g :: g != h ==> Count(t, e, g) == t
    requires Debtor(due) in {0, h} && Debtor(due2) in {0, h}
    requires v.handle == h ==> ServiceOk(v, Count(TallyOf(log, h), e, h), |QueuedFor(rs, h)|, due2)
    ensures ServiceAt(v, nextId, rs, log + [e], due2)
  {
    TallyAppend(log, e);
    assert v.handle > 0;
    if v.handle != h {
      SwitchDue(v, TallyOf(log, v.handle), |QueuedFor(rs, v.handle)|, due, due2);
    }
    hide ServiceOk;
  }

  lemma HandleLogged(g: nat, nextId: nat, ss: seq<Service>, log: seq<Entry>, e: Entry)
    requires HandlesOk(nextId, ss, log) && !e.Registered? && !e.Closed? && !e.ConnectFailed?
    ensures HandleOk(g, nextId, ss, log + [e])
  {
    TallyAppend(log, e);
    assert HandleOk(g, nextId, ss, log);
  }

  predicate Quiet(e: Entry) {
    match e
    case Freed(_) => true
    case Passed(_, _, _) => true
    case Fetched(_, _) => true
    case Answered(_, _, _, _) => true
    case Offered(_, m, _) => m.command != A_OKAY && m.command != A_WRTE
    case Got(_, m, _) => m.command != A_OKAY && m.command != A_WRTE
    case _ => false
  }

  lemma LogQuiet(nextId: nat, ss: seq<Service>, rs: seq<Request>, log: seq<Entry>, e: Entry, due: Due)
    requires Wire(nextId, ss, rs, log, due) && Quiet(e)
    ensures Wire(nextId, ss, rs, log + [e], due)
  {
    var h := Debtor(due);
    forall v | v in ss && v.handle == h
      ensures ServiceOk(v, Count(TallyOf(log, h), e, h), |QueuedFor(rs, h)|, due)
    {
      assert ServiceAt(v, nextId, rs, log, due);
    }
    LogWire(nextId, ss, rs, log, e, h, due, due);
  }

  lemma TransportWire(nextId: nat, ss: seq<Service>, rs: seq<Request>, log: seq<Entry>, r: Request, due: Due)
    requires Wire(nextId, ss, rs, log, due) && r.target == Transport && RequestOk(r, nextId, ss)
    ensures Wire(nextId, ss, rs + [r], log, due)
  {
    RequestsAppend(rs, r);
    forall v | v in ss ensures ServiceAt(v, nextId, rs + [r], log, due) {
      assert ServiceAt(v, nextId, rs, log, due);
    }
  }

  /** A frame that no tally counts. */
  lemma SendPlainWire(s: State, p: Packet, ok: bool, due: Due)
    requires WireOf(s, due) && p.writeLen == 0 && p.msg.dataLength <= |p.data|
    requires p.msg.command != A_OKAY && p.msg.command != A_WRTE
    ensures WireOf(SendFrame(s, p, ok), due)
  {
    var q := p.(msg := Seal(p.msg, Payload(p)));
    var e := Offered(q.pid, q.msg, Payload(q));
    LogQuiet(s.nextId, s.services, s.requests, s.log, e, due);
    TransportWire(s.nextId, s.services, s.requests, s.log + [e], Request(Transport, q), due);
    HonestAppend(s.log, e);
  }

  /** An OKAY or WRTE frame of handle `p.msg.arg0`, after which `due2` remains. */
  lemma SendCountedWire(s: State, p: Packet, ok: bool, due: Due, due2: Due)
    requires WireOf(s, due) && p.msg.dataLength <= |p.data|
    requires Debtor(due) in {0, p.msg.arg0} && Debtor(due2) in {0, p.msg.arg0}
    requires RequestOk(Request(Transport, p.(msg := Seal(p.msg, Payload(p)))), s.nextId, s.services)
    requires var q := p.(msg := Seal(p.msg, Payload(p)));
             forall v :: v in s.services && v.handle == p.msg.arg0 ==>
               ServiceOk(v, Count(TallyOf(s.log, v.handle), Offered(q.pid, q.msg, Payload(q)), v.handle),
                         |QueuedFor(s.requests, v.handle)|, due2)
    ensures WireOf(SendFrame(s, p, ok), due2)
  {
    var q := p.(msg := Seal(p.msg, Payload(p)));
    var e := Offered(q.pid, q.msg, Payload(q));
    LogWire(s.nextId, s.services, s.requests, s.log, e, p.msg.arg0, due, due2);
    TransportWire(s.nextId, s.services, s.requests, s.log + [e], Request(Transport, q), due2);
    HonestAppend(s.log, e);
  }

  /** The connect OKAY, or the acknowledgement of a WRTE, by the listed service v. */
  lemma SendOkayWire(s: State, v: Service, p: Packet, ok: bool, due: Due)
    requires WireOf(s, due) && v in s.services && Accepts(v.priv)
    requires due == OpenAck(v.handle) || due == WriteAck(v.handle)
    requires p.writeLen > 0 ==> v.priv.Sync? && p.writeLen <= |p.data|
    ensures WireOf(SendOkayWithData(s, p, v.id, v.peer, ok), Nothing)
  {
    assert ServiceAt(v, s.nextId, s.requests, s.log, due);
    OneHandle(s.services, v);
    SendCountedWire(s, Headed(p, A_OKAY, v.id, v.peer, 0), ok, due, Nothing);
  }

  /** Handles identify listed services, and so do non-zero ids. */
  lemma OneHandle(ss: seq<Service>, v: Service)
    requires Descending(ss) && v in ss
    ensures forall w :: w in ss && w.handle == v.handle ==> w == v
  {
  }

  lemma {:induction false} QueuedNone(nextId: nat, ss: seq<Service>, rs: seq<Request>, h: nat)
    requires RequestsOk(nextId, ss, rs) && !Listed(ss, h)
    ensures QueuedFor(rs, h) == multiset{}
  {
    if rs != [] {
      var less, last := rs[..|rs| - 1], rs[|rs| - 1];
      assert rs == less + [last];
      assert RequestOk(last, nextId, ss);
      QueuedNone(nextId, ss, less, h);
    }
  }

  /** One service changes its private state (and perhaps gives up its id). */
  lemma ReplaceWire(s: State, k: nat, w: Service, due: Due, due2: Due)
    requires k < |s.services| && WireOf(s, due)
    requires var v := s.services[k];
             && w.handle == v.handle && w.peer == v.peer
             && Debtor(due) in {0, v.handle} && Debtor(due2) in {0, v.handle}
             && w.id in {0, v.id} && w.priv.Sync? == v.priv.Sync?
             && ServiceOk(w, TallyOf(s.log, v.handle), |QueuedFor(s.requests, v.handle)|, due2)
    ensures WireOf(s.(services := s.services[k := w]), due2)
  {
    var v, ss := s.services[k], s.services[k := w];
    assert ServiceAt(v, s.nextId, s.requests, s.log, due);
    SameHandles(s.services, k, w);
    forall u | u in ss ensures ServiceAt(u, s.nextId, s.requests, s.log, due2) {
      if u != w {
        OneHandle(s.services, v);
        assert u in s.services && ServiceAt(u, s.nextId, s.requests, s.log, due);
        assert u.handle != v.handle;
        SwitchDue(u, TallyOf(s.log, u.handle), |QueuedFor(s.requests, u.handle)|, due, due2);
      }
    }
    forall r | r in s.requests ensures RequestOk(r, s.nextId, ss) {
      assert RequestOk(r, s.nextId, s.services);
    }
    forall h: nat ensures HandleOk(h, s.nextId, ss, s.log) {
      assert HandleOk(h, s.nextId, s.services, s.log);
    }
  }

  lemma SameHandles(ss: seq<Service>, k: nat, w: Service)
    requires k < |ss| && w.handle == ss[k].handle && Descending(ss)
    ensures Descending(ss[k := w])
    ensures forall h :: Listed(ss[k := w], h) <==> Listed(ss, h)
    ensures forall u :: u in ss[k := w] && u != w ==> u in ss && u.handle != ss[k].handle
  {
    var tt := ss[k := w];
    forall h ensures Listed(tt, h) <==> Listed(ss, h) {
      if Listed(ss, h) {
        var i :| 0 <= i < |ss| && ss[i].handle == h;
        assert tt[i] in tt && tt[i].handle == h;
      }
      if Listed(tt, h) {
        var i :| 0 <= i < |ss| && tt[i].handle == h;
        assert ss[i] in ss && ss[i].handle == h;
      }
    }
  }

  /** The connect of the service at position k has failed: it gives up its id, and the history says so. */
  lemma FailWire(s: State, k: nat)
    requires k < |s.services| && WireOf(s, Nothing)
    requires s.services[k].priv.Stream? && s.services[k].priv.state == NotConnected
    ensures WireOf(ConnectFails(s, k), Nothing)
  {
    var v, ss, log := s.services[k], ConnectFails(s, k).services, ConnectFails(s, k).log;
    assert ServiceAt(v, s.nextId, s.requests, s.log, Nothing);
    TallyAppend(s.log, ConnectFailed(v.handle));
    HonestAppend(s.log, ConnectFailed(v.handle));
    SameHandles(s.services, k, ss[k]);
    forall u | u in ss ensures ServiceAt(u, s.nextId, s.requests, log, Nothing) {
      if u != ss[k] {
        assert ServiceAt(u, s.nextId, s.requests, s.log, Nothing);
      }
    }
    forall r | r in s.requests ensures RequestOk(r, s.nextId, ss) {
      assert RequestOk(r, s.nextId, s.services);
    }
    forall h: nat ensures HandleOk(h, s.nextId, ss, log) {
      assert HandleOk(h, s.nextId, s.services, s.log);
    }
  }

  /** What entitles the service at position k to be closed. */
  ghost predicate MayClose(s: State, k: nat)
    requires k < |s.services|
  {
    var v := s.services[k];
    Failed(v.priv) ==>
      s.log != [] && (IsReport(s.log[|s.log| - 1], v.peer) || IsHostClose(s.log[|s.log| - 1]))
  }

  lemma UnlinkHonest(s: State, k: nat, due: Due)
    requires k < |s.services| && WireOf(s, due) && MayClose(s, k)
    ensures Honest(s.log + [Closed(s.services[k].handle)])
  {
    assert ServiceAt(s.services[k], s.nextId, s.requests, s.log, due);
    HonestAppend(s.log, Closed(s.services[k].handle));
  }

  /** Unlinking and on_close of the service at position k, its packets orphaned. */
  lemma UnlinkWire(s: State, k: nat, due: Due)
    requires k < |s.services| && Debtor(due) in {0, s.services[k].handle}
    requires Wire(s.nextId, s.services, s.requests, s.log, due)
    ensures var s1 := Orphan(s.(services := Cut(s.services, k)), s.services[k].handle);
            Wire(s1.nextId, s1.services, s1.requests, s1.log, Nothing)
  {
    var v, ss := s.services[k], Cut(s.services, k);
    var rs, log := NotFor(s.requests, v.handle), s.log + [Closed(v.handle)];
    CutServices(s.services, k);
    hide Honest;
    forall u | u in ss ensures ServiceAt(u, s.nextId, rs, log, Nothing) {
      assert ServiceAt(u, s.nextId, s.requests, s.log, due);
      StaysListed(u, v.handle, s.nextId, s.requests, s.log, due);
    }
    hide ServiceAt;
    TallyAppend(s.log, Closed(v.handle));
    forall r | r in rs ensures RequestOk(r, s.nextId, ss) {
      NotForMember(s.requests, v.handle, r);
      assert RequestOk(r, s.nextId, s.services);
    }
    forall h: nat ensures HandleOk(h, s.nextId, ss, log) {
      assert HandleOk(h, s.nextId, s.services, s.log);
    }
  }

  /** Another service is closed. */
  lemma StaysListed(u: Service, h: nat, nextId: nat, rs: seq<Request>, log: seq<Entry>, due: Due)
    requires ServiceAt(u, nextId, rs, log, due) && u.handle != h && Debtor(due) in {0, h}
    ensures ServiceAt(u, nextId, NotFor(rs, h), log + [Closed(h)], Nothing)
  {
    TallyAppend(log, Closed(h));
    SwitchDue(u, TallyOf(log, u.handle), |QueuedFor(rs, u.handle)|, due, Nothing);
    NotForQueued(rs, h, u.handle);
    hide ServiceOk;
  }

  lemma CutServices(ss: seq<Service>, k: nat)
    requires k < |ss| && Descending(ss)
    ensures Descending(Cut(ss, k))
    ensures forall u :: u in Cut(ss, k) <==> u in ss && u.handle != ss[k].handle
    ensures forall h :: Listed(Cut(ss, k), h) <==> Listed(ss, h) && h != ss[k].handle
  {
    var tt := Cut(ss, k);
    forall u ensures u in tt <==> u in ss && u.handle != ss[k].handle {
      if u in ss && u.handle != ss[k].handle {
        var i :| 0 <= i < |ss| && ss[i] == u;
        assert tt[if i < k then i else i - 1] == u;
      }
    }
  }

  lemma CloseWire(s: State, k: nat, p: Option<Packet>, ok: bool, due: Due)
    requires k < |s.services| && WireOf(s, due) && Debtor(due) in {0, s.services[k].handle}
    requires p.None? ==> MayClose(s, k)
    ensures WireOf(CloseService(s, k, p, ok), Nothing)
  {
    hide Wire;
    hide Honest;
    var v := s.services[k];
    if p.Some? {
      SendPlainWire(s, Headed(p.value, A_CLSE, v.id, v.peer, 0).(writeLen := 0), ok, due);
      var s1 := SendClose(s, p.value, v.id, v.peer, ok);
      ReportSent(s, k, p.value, ok, due);
      UnlinkWire(s1, k, due);
      UnlinkHonest(s1, k, due);
    } else {
      UnlinkWire(s, k, due);
      UnlinkHonest(s, k, due);
    }
  }

  /** The CLOSE that is sent just before the service is closed is the report of a failed connect. */
  lemma ReportSent(s: State, k: nat, p: Packet, ok: bool, due: Due)
    requires k < |s.services| && WireOf(s, due)
    ensures MayClose(SendClose(s, p, s.services[k].id, s.services[k].peer, ok), k)
  {
    assert ServiceAt(s.services[k], s.nextId, s.requests, s.log, due);
    hide Wire;
    hide Honest;
  }

  lemma RegisterWire(s: State, peer: nat, priv: Private)
    requires WireOf(s, Nothing) && peer != 0 && IsOpening(Opens(priv))
    ensures WireOf(RegisterService(s, peer, priv), if Accepts(priv) then OpenAck(s.nextId) else Nothing)
  {
    var v := Service(s.nextId, s.nextId, peer, priv);
    var nextId, ss, log := s.nextId + 1, [v] + s.services, s.log + [Registered(v.handle, peer)];
    var due := if Accepts(priv) then OpenAck(s.nextId) else Nothing;
    HonestAppend(s.log, Registered(v.handle, peer));
    hide Honest;
    TallyAppend(s.log, Registered(v.handle, peer));
    assert !Listed(s.services, v.handle) && TallyOf(s.log, v.handle).opens == 0
        && TallyOf(s.log, v.handle).closes == 0 && !TallyOf(s.log, v.handle).failed by {
      assert HandleOk(v.handle, s.nextId, s.services, s.log);
    }
    QueuedNone(s.nextId, s.services, s.requests, v.handle);
    forall u | u in ss ensures ServiceAt(u, nextId, s.requests, log, due) {
      if u != v {
        assert ServiceAt(u, s.nextId, s.requests, s.log, Nothing);
        SwitchDue(u, TallyOf(s.log, u.handle), |QueuedFor(s.requests, u.handle)|, Nothing, due);
      }
    }
    forall r | r in s.requests ensures RequestOk(r, nextId, ss) {
      assert RequestOk(r, s.nextId, s.services);
    }
    forall h: nat ensures HandleOk(h, nextId, ss, log) {
      assert HandleOk(h, s.nextId, s.services, s.log);
      assert Listed(ss, h) <==> h == v.handle || Listed(s.services, h);
    }
    forall u | u in s.services ensures u.handle < v.handle {
      assert ServiceAt(u, s.nextId, s.requests, s.log, Nothing);
    }
  }

  lemma SocketWire(nextId: nat, ss: seq<Service>, rs: seq<Request>, log: seq<Entry>, v: Service, r: Request)
    requires Wire(nextId, ss, rs, log, WriteAck(v.handle)) && v in ss && Accepts(v.priv)
    requires r.target == Socket(v.handle)
    ensures Wire(nextId, ss, rs + [r], log, Nothing)
  {
    RequestsAppend(rs, r);
    OneHandle(ss, v);
    forall u | u in ss ensures ServiceAt(u, nextId, rs + [r], log, Nothing) {
      assert ServiceAt(u, nextId, rs, log, WriteAck(v.handle));
      if u != v {
        SwitchDue(u, TallyOf(log, u.handle), |QueuedFor(rs + [r], u.handle)|, WriteAck(v.handle), Nothing);
      }
    }
  }

  /** A WRTE accepted by a socket: the packet waits there until the acknowledgement. */
  lemma QueueWire(s: State, v: Service, p: Packet)
    requires WireOf(s, WriteAck(v.handle)) && v in s.services && Accepts(v.priv)
    ensures WireOf(QueueOnSocket(s, v.handle, p), Nothing)
  {
    var e := Passed(p.pid, v.handle, Payload(p));
    LogQuiet(s.nextId, s.services, s.requests, s.log, e, WriteAck(v.handle));
    HonestAppend(s.log, e);
    SocketWire(s.nextId, s.services, s.requests, s.log + [e], v, Request(Socket(v.handle), p));
  }

  /** A completed request leaves the list; for a socket the acknowledgement is now due. */
  lemma DoneWire(s: State, i: nat)
    requires i < |s.requests| && WireOf(s, Nothing)
    ensures WireOf(s.(requests := Cut(s.requests, i)),
                   if s.requests[i].target.Socket? then WriteAck(s.requests[i].target.handle) else Nothing)
  {
    var r, rs := s.requests[i], Cut(s.requests, i);
    var due := if r.target.Socket? then WriteAck(r.target.handle) else Nothing;
    forall u | u in s.services ensures ServiceAt(u, s.nextId, rs, s.log, due) {
      assert ServiceAt(u, s.nextId, s.requests, s.log, Nothing);
      QueuedRemove(s.requests, i, u.handle);
      if r.target != Socket(u.handle) {
        SwitchDue(u, TallyOf(s.log, u.handle), |QueuedFor(rs, u.handle)|, Nothing, due);
      }
    }
    assert forall q :: q in rs ==> q in s.requests;
  }
}
