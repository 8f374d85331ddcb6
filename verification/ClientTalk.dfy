/** What goes through the services of a client, in every run. The sync service is asked what the WRTE and READY
    frames delivered for it since its OPEN ask, each once and in order, and none of its replies is lost. A stream
    or shell is handed the payloads of those WRTE frames, and sends the bytes that it reads. */
module ClientTalk {
  import opened Bytes
  import opened Frame
  import opened ClientSpec
  import opened ClientTally
  import opened ClientInvariant
  import opened ClientWire
  import opened ClientSafety
  import opened ClientLedger
  import opened ClientRuns
  import Decoder

  datatype Answer = Answer(asked: Asked, ok: bool, reply: seq<byte>)

  /** A packet handed to the socket of a service. */
  datatype Passing = Passing(pid: nat, bytes: seq<byte>)

  /** The frame at which the handle was registered, and since then: the frames delivered to the client, the
      answers of the service, the payloads of the WRTE frames that were sent for it, the packets handed to its
      socket, and what was read from there. */
  datatype Talk = Talk(peer: nat, first: seq<Frame>, frames: seq<Frame>, answers: seq<Answer>, sent: seq<seq<byte>>,
                       passed: seq<Passing>, fetched: seq<seq<byte>>)

  /** The two agree on all but what was sent. */
  predicate Same(t: Talk, t1: Talk) {
    t1 == t.(sent := t1.sent)
  }

  function LastOf(fs: seq<Frame>): seq<Frame> {
    if fs == [] then [] else [fs[|fs| - 1]]
  }

  /** How the name of a service begins. */
  function NameOf(priv: Private): seq<byte> {
    match priv
    case Sync => SYNC_NAME
    case Stream(_, _) => TCP_NAME
    case Shell(_, _) => SHELL_NAME
  }

  /** An OPEN of such a service by this peer. */
  predicate IsOpen(fs: seq<Frame>, peer: nat, priv: Private) {
    |fs| == 1 && fs[0].command == A_OPEN && fs[0].arg0 == peer && NameOf(priv) <= fs[0].payload
  }

  function Hear(t: Talk, e: Entry, h: nat): Talk {
    match e
    case Registered(i, peer) => if i == h then Talk(peer, LastOf(t.frames), [], [], [], [], []) else t
    case Got(_, m, payload) => t.(frames := t.frames + [Frame(m.command, m.arg0, m.arg1, payload)])
    case Answered(i, asked, ok, reply) => if i == h then t.(answers := t.answers + [Answer(asked, ok, reply)]) else t
    case Offered(_, m, payload) =>
      if m.arg0 == h && m.command == A_WRTE then t.(sent := t.sent + [payload]) else t
    case Passed(pid, i, payload) => if i == h then t.(passed := t.passed + [Passing(pid, payload)]) else t
    case Fetched(i, bytes) => if i == h then t.(fetched := t.fetched + [bytes]) else t
    case _ => t
  }

  function TalkOf(log: seq<Entry>, h: nat): Talk {
    if log == [] then Talk(0, [], [], [], [], [], []) else Hear(TalkOf(log[..|log| - 1], h), log[|log| - 1], h)
  }

  lemma TalkAppend(log: seq<Entry>, e: Entry, h: nat)
    ensures TalkOf(log + [e], h) == Hear(TalkOf(log, h), e, h)
  {
    assert (log + [e])[..|log|] == log;
  }

  /** What one frame asks of the service h of a peer. */
  function AskedBy(f: Frame, h: nat, peer: nat): seq<Asked> {
    if f.arg1 != h then []
    else if f.command == A_WRTE && (f.arg0 == 0 || f.arg0 == peer) then [Data(f.payload)]
    else if f.command == A_OKAY then [Asked.Ready]
    else []
  }

  function AskedOf(fs: seq<Frame>, h: nat, peer: nat): seq<Asked> {
    if fs == [] then [] else AskedOf(fs[..|fs| - 1], h, peer) + AskedBy(fs[|fs| - 1], h, peer)
  }

  /** What one frame writes to the service h of a peer. */
  function WrittenBy(f: Frame, h: nat, peer: nat): seq<seq<byte>> {
    if f.command == A_WRTE && f.arg1 == h && (f.arg0 == 0 || f.arg0 == peer) then [f.payload] else []
  }

  function WrittenTo(fs: seq<Frame>, h: nat, peer: nat): seq<seq<byte>> {
    if fs == [] then [] else WrittenTo(fs[..|fs| - 1], h, peer) + WrittenBy(fs[|fs| - 1], h, peer)
  }

  function Payloads(ps: seq<Passing>): (r: seq<seq<byte>>) {
    if ps == [] then [] else Payloads(ps[..|ps| - 1]) + [ps[|ps| - 1].bytes]
  }

  lemma PayloadsAppend(ps: seq<Passing>, p: Passing)
    ensures Payloads(ps + [p]) == Payloads(ps) + [p.bytes]
  {
    assert (ps + [p])[..|ps|] == ps;
  }

  function Asks(answers: seq<Answer>): seq<Asked> {
    if answers == [] then [] else Asks(answers[..|answers| - 1]) + [answers[|answers| - 1].asked]
  }

  function Replies(answers: seq<Answer>): multiset<seq<byte>> {
    if answers == [] then multiset{}
    else
      var last := answers[|answers| - 1].reply;
      Replies(answers[..|answers| - 1]) + (if last == [] then multiset{} else multiset{last})
  }

  predicate AllOk(answers: seq<Answer>) {
    forall i :: 0 <= i < |answers| ==> answers[i].ok
  }

  /** The reply bytes that wait behind an OKAY of h. */
  function Behind(r: Request, h: nat): multiset<seq<byte>> {
    if r.target == Transport && r.packet.writeLen > 0 && r.packet.msg.arg0 == h then
      multiset{r.packet.data[..Min(r.packet.writeLen, |r.packet.data|)]}
    else multiset{}
  }

  function Pending(rs: seq<Request>, h: nat): multiset<seq<byte>> {
    if rs == [] then multiset{} else Pending(rs[..|rs| - 1], h) + Behind(rs[|rs| - 1], h)
  }

  lemma PendingAppend(rs: seq<Request>, r: Request, h: nat)
    ensures Pending(rs + [r], h) == Pending(rs, h) + Behind(r, h)
  {
    assert (rs + [r])[..|rs|] == rs;
  }

  lemma {:induction false} PendingRemove(rs: seq<Request>, i: nat, h: nat)
    requires i < |rs|
    ensures Pending(rs, h) == Pending(Cut(rs, i), h) + Behind(rs[i], h)
  {
    var n := |rs| - 1;
    if i == n {
      assert Cut(rs, i) == rs[..n];
    } else {
      PendingRemove(rs[..n], i, h);
      CutLast(rs, i);
    }
  }

  lemma {:induction false} PendingNotFor(rs: seq<Request>, g: nat, h: nat)
    ensures Pending(NotFor(rs, g), h) == Pending(rs, h)
  {
    if rs != [] {
      var less, last := rs[..|rs| - 1], rs[|rs| - 1];
      PendingNotFor(less, g, h);
      NotForLast(rs, g);
      PendingAppend(NotFor(less, g), last, h);
      assert Pending(rs, h) == Pending(less, h) + Behind(last, h);
      hide NotFor;
      hide Pending;
    }
  }

  lemma {:induction false} PendingNone(rs: seq<Request>, nextId: nat, ss: seq<Service>)
    requires RequestsOk(nextId, ss, rs)
    ensures Pending(rs, nextId) == multiset{}
  {
    if rs != [] {
      var less, last := rs[..|rs| - 1], rs[|rs| - 1];
      assert RequestOk(last, nextId, ss) && forall r :: r in less ==> r in rs;
      PendingNone(less, nextId, ss);
    }
  }

  // ---------- the invariant ----------

  /** Replies in the packets of an open client, and those already sent. */
  function Out(s: State, h: nat): multiset<seq<byte>> {
    multiset(TalkOf(s.log, h).sent) + Pending(s.requests, h)
  }

  /** What is queued on the socket of h has been handed to it. */
  ghost predicate Handed(rs: seq<Request>, h: nat, passed: seq<Passing>) {
    forall r :: r in rs && r.target == Socket(h) ==> Passing(r.packet.pid, Payload(r.packet)) in passed
  }

  /** The listed service v against its history, while `asks` and `writes` of the frame being processed are still
      to come. The sync service has answered what it was asked and refused nothing, and in an open client every
      reply is either sent or waits to be sent. Any other service has been handed what was written to it, and
      has sent what it has read. */
  ghost predicate Consistent(s: State, v: Service, asks: seq<Asked>, writes: seq<seq<byte>>) {
    var t := TalkOf(s.log, v.handle);
    && t.peer == v.peer && IsOpen(t.first, v.peer, v.priv)
    && (v.priv.Sync? ==>
          && AllOk(t.answers) && Asks(t.answers) + asks == AskedOf(t.frames, v.handle, t.peer)
          && (s.open ==> Out(s, v.handle) == Replies(t.answers)))
    && (!v.priv.Sync? && !Failed(v.priv) ==>
          && Payloads(t.passed) + writes == WrittenTo(t.frames, v.handle, t.peer)
          && t.sent == t.fetched && Handed(s.requests, v.handle, t.passed))
  }

  ghost predicate TalkOk(s: State, h: nat) {
    forall v :: v in s.services && v.handle == h ==> Consistent(s, v, [], [])
  }

  predicate SameKind(a: Private, b: Private) {
    a.Sync? == b.Sync? && a.Stream? == b.Stream? && (Failed(a) ==> Failed(b))
  }

  /** The service v1 was listed before, and unless it is a sync service it has sent nothing since. */
  ghost predicate Stays(ss: seq<Service>, v1: Service, quiet: bool) {
    exists v :: v in ss && v.handle == v1.handle && v.peer == v1.peer && SameKind(v.priv, v1.priv)
                && (v1.priv.Sync? || Failed(v1.priv) || quiet)
  }

  /** From s to s1 nothing was asked of h, answered by it, handed to it or read from it. */
  ghost predicate Still(s: State, s1: State, h: nat) {
    && Same(TalkOf(s.log, h), TalkOf(s1.log, h))
    && (forall r :: r in s1.requests && r.target == Socket(h) ==> r in s.requests)
    && forall v1 :: v1 in s1.services && v1.handle == h ==>
         Stays(s.services, v1, TalkOf(s1.log, h).sent == TalkOf(s.log, h).sent)
  }

  /** Nor was a reply of it lost. */
  ghost predicate Calm(s: State, s1: State, h: nat) {
    Still(s, s1, h) && (s1.open ==> s.open && Out(s1, h) == Out(s, h))
  }

  lemma StayedConsistent(s: State, s1: State, v: Service, v1: Service)
    requires Consistent(s, v, [], []) && v1.handle == v.handle && v1.peer == v.peer && SameKind(v.priv, v1.priv)
    requires var h := v.handle;
             && Same(TalkOf(s.log, h), TalkOf(s1.log, h))
             && (forall r :: r in s1.requests && r.target == Socket(h) ==> r in s.requests)
             && (v1.priv.Sync? || Failed(v1.priv) || TalkOf(s1.log, h).sent == TalkOf(s.log, h).sent)
             && (s1.open && v.priv.Sync? ==> s.open && Out(s1, h) == Out(s, h))
    ensures Consistent(s1, v1, [], [])
  {
    hide Asks;
    hide AskedOf;
    hide Replies;
    hide TalkOf;
    hide Out;
    hide AllOk;
    hide WrittenTo;
    hide Payloads;
  }

  /** It does not matter what becomes of the replies when the client closes. */
  lemma StillTalk(s: State, s1: State, h: nat)
    requires Still(s, s1, h) && TalkOk(s, h) && !s1.open
    ensures TalkOk(s1, h)
  {
    hide Consistent;
    hide TalkOf;
    hide Out;
    forall v1 | v1 in s1.services && v1.handle == h ensures Consistent(s1, v1, [], []) {
      var v :| v in s.services && v.handle == v1.handle && v.peer == v1.peer && SameKind(v.priv, v1.priv);
      StayedConsistent(s, s1, v, v1);
    }
  }

  lemma CalmTalk(s: State, s1: State, h: nat)
    requires Calm(s, s1, h) && TalkOk(s, h)
    ensures TalkOk(s1, h)
  {
    hide Consistent;
    hide TalkOf;
    hide Out;
    forall v1 | v1 in s1.services && v1.handle == h ensures Consistent(s1, v1, [], []) {
      var v :| v in s.services && v.handle == v1.handle && v.peer == v1.peer && SameKind(v.priv, v1.priv);
      StayedConsistent(s, s1, v, v1);
    }
  }

  lemma CalmThen(s: State, s1: State, s2: State, h: nat)
    requires Calm(s, s1, h) && Calm(s1, s2, h)
    ensures Calm(s, s2, h)
  {
    hide Out;
    StillThen(s, s1, s2, h);
    hide Still;
  }

  lemma StillThen(s: State, s1: State, s2: State, h: nat)
    requires Still(s, s1, h) && Still(s1, s2, h)
    ensures Still(s, s2, h)
  {
    hide TalkOf;
    hide Failed;
    var t, t1, t2 := TalkOf(s.log, h), TalkOf(s1.log, h), TalkOf(s2.log, h);
    forall v2 | v2 in s2.services && v2.handle == h ensures Stays(s.services, v2, t2.sent == t.sent) {
      assert Stays(s1.services, v2, t2.sent == t1.sent);
      var v1 :| v1 in s1.services && v1.handle == v2.handle && v1.peer == v2.peer && SameKind(v1.priv, v2.priv)
                && (v2.priv.Sync? || Failed(v2.priv) || t2.sent == t1.sent);
      assert Stays(s.services, v1, t1.sent == t.sent);
    }
  }

  lemma StaysListed(ss: seq<Service>, v: Service)
    requires v in ss
    ensures Stays(ss, v, true)
  {
  }

  lemma CalmBy(s: State, s1: State, h: nat)
    requires TalkOf(s1.log, h) == TalkOf(s.log, h) && forall v1 :: v1 in s1.services ==> v1 in s.services
    requires forall r :: r in s1.requests && r.target == Socket(h) ==> r in s.requests
    requires s1.open ==> s.open && Pending(s1.requests, h) == Pending(s.requests, h)
    ensures Calm(s, s1, h)
  {
    hide TalkOf;
    hide Pending;
    hide Stays;
    forall v1 | v1 in s1.services ensures Stays(s.services, v1, true) {
      StaysListed(s.services, v1);
    }
  }

  /** Only what the invariant does not look at has changed, or services are no longer listed. */
  lemma CalmSame(s: State, s1: State, h: nat)
    requires s1.log == s.log && s1.requests == s.requests && (s1.open ==> s.open)
    requires forall v1 :: v1 in s1.services ==> v1 in s.services
    ensures Calm(s, s1, h)
  {
    hide Calm;
    hide TalkOf;
    hide Pending;
    CalmBy(s, s1, h);
  }

  /** One service changes, but neither its peer nor its kind. */
  lemma CalmReplace(s: State, k: nat, w: Service, h: nat)
    requires k < |s.services|
    requires var v := s.services[k]; w.handle == v.handle && w.peer == v.peer && SameKind(v.priv, w.priv)
    ensures Calm(s, s.(services := s.services[k := w]), h)
  {
    hide TalkOf;
    hide SameKind;
    var v, ss := s.services[k], s.services[k := w];
    assert v in s.services;
    forall v1 | v1 in ss ensures Stays(s.services, v1, true) {
      if v1 != w {
        assert v1 in s.services;
        StaysListed(s.services, v1);
      }
    }
    hide Stays;
  }

  lemma CalmSet(s: State, k: nat, priv: Private, h: nat)
    requires k < |s.services| && SameKind(s.services[k].priv, priv)
    ensures Calm(s, SetPrivate(s, k, priv), h)
  {
    CalmReplace(s, k, s.services[k].(priv := priv), h);
    hide Calm;
  }

  predicate Beside(e: Entry, h: nat) {
    match e
    case Registered(i, _) => i != h
    case Answered(i, _, _, _) => i != h
    case Passed(_, i, _) => i != h
    case Fetched(i, _) => i != h
    case Offered(_, m, _) => m.arg0 != h || m.command != A_WRTE
    case Got(_, _, _) => false
    case _ => true
  }

  lemma CalmLog(s: State, e: Entry, h: nat)
    requires Beside(e, h)
    ensures Calm(s, Log(s, e), h)
  {
    hide Calm;
    TalkAppend(s.log, e, h);
    CalmBy(s, Log(s, e), h);
  }

  lemma CalmSend(s: State, p: Packet, ok: bool, h: nat)
    requires p.msg.arg0 != h || (p.msg.command != A_WRTE && p.writeLen == 0)
    ensures Calm(s, SendFrame(s, p, ok), h)
  {
    var q := p.(msg := Seal(p.msg, Payload(p)));
    TalkAppend(s.log, Offered(q.pid, q.msg, Payload(q)), h);
    PendingAppend(s.requests, Request(Transport, q), h);
    hide TalkOf;
    hide Pending;
    hide Calm;
    assert p.msg.arg0 != h || p.writeLen == 0 ==> Behind(Request(Transport, q), h) == multiset{};
    CalmBy(s, SendFrame(s, p, ok), h);
  }

  lemma CalmClose(s: State, k: nat, p: Option<Packet>, ok: bool, h: nat)
    requires k < |s.services|
    ensures Calm(s, CloseService(s, k, p, ok), h)
  {
    hide SendFrame;
    hide Calm;
    var v, s1 := s.services[k], s.(services := Cut(s.services, k));
    CutKeeps(s, k, h);
    var s2 := s1;
    if p.Some? {
      s2 := SendClose(s1, p.value, v.id, v.peer, ok);
      CalmSend(s1, Headed(p.value, A_CLSE, v.id, v.peer, 0).(writeLen := 0), ok, h);
      CalmThen(s, s1, s2, h);
    }
    CalmOrphan(s2, v.handle, h);
    CalmThen(s, s2, Orphan(s2, v.handle), h);
  }

  lemma CutKeeps(s: State, k: nat, h: nat)
    requires k < |s.services|
    ensures Calm(s, s.(services := Cut(s.services, k)), h)
  {
    CalmSame(s, s.(services := Cut(s.services, k)), h);
    hide Calm;
  }

  lemma CalmOrphan(s: State, g: nat, h: nat)
    ensures Calm(s, Orphan(s, g), h)
  {
    hide TalkOf;
    hide Pending;
    hide Calm;
    TalkAppend(s.log, Closed(g), h);
    PendingNotFor(s.requests, g, h);
    forall r | r in NotFor(s.requests, g) ensures r in s.requests {
      NotForMember(s.requests, g, r);
    }
    CalmBy(s, Orphan(s, g), h);
  }

  lemma CalmAllocate(s: State, h: nat)
    ensures Calm(s, Allocate(s).0, h)
  {
    CalmSame(s, Allocate(s).0, h);
    hide Calm;
  }

  lemma CalmTry(s: State, k: nat, ok: bool, h: nat)
    requires k < |s.services|
    ensures Calm(s, TryClose(s, k, ok), h)
    ensures s.services[k].priv.Stream? && !Failed(s.services[k].priv) ==> Calm(s, TryConnect(s, k, ok), h)
  {
    hide Calm;
    hide CloseService;
    hide SendFrame;
    CalmAllocate(s, h);
    var (s1, pid) := Allocate(s);
    if pid.Some? {
      var v, p := s.services[k], Fresh(pid.value);
      CalmClose(s1, k, Some(p), ok, h);
      CalmThen(s, s1, CloseService(s1, k, Some(p), ok), h);
      if v.priv.Stream? && !Failed(v.priv) {
        var s2 := SetPrivate(s1, k, Stream(Connected, true));
        CalmSet(s1, k, Stream(Connected, true), h);
        CalmThen(s, s1, s2, h);
        CalmSend(s2, Headed(p.(writeLen := 0), A_OKAY, v.id, v.peer, 0), ok, h);
        CalmThen(s, s2, TryConnect(s, k, ok), h);
      }
    }
  }

  lemma CalmKick(s: State, k: nat, ok: bool, h: nat)
    requires k < |s.services|
    ensures Calm(s, OnKick(s, k, ok), h)
  {
    hide Calm;
    hide TryClose;
    hide TryConnect;
    CalmTry(s, k, ok, h);
    CalmNothing(s, h);
    match s.services[k].priv
    case Shell(waitAck, _) => CalmSet(s, k, Shell(waitAck, true), h);
    case Stream(Connected, _) => CalmSet(s, k, Stream(Connected, true), h);
    case _ =>
  }

  lemma CalmNothing(s: State, h: nat)
    ensures Calm(s, s, h)
  {
  }

  lemma {:induction false} CalmKickFrom(s: State, k: nat, ok: bool, h: nat)
    ensures Calm(s, KickFrom(s, k, ok), h)
    decreases |s.services| - k
  {
    hide Calm;
    hide OnKick;
    if k < |s.services| {
      CalmKick(s, k, ok, h);
      var s1 := OnKick(s, k, ok);
      var next := if |s1.services| < |s.services| then k else k + 1;
      CalmKickFrom(s1, next, ok, h);
      CalmThen(s, s1, KickFrom(s1, next, ok), h);
    } else {
      CalmNothing(s, h);
    }
  }

  lemma CalmRelease(s: State, pid: nat, ok: bool, h: nat)
    ensures Calm(s, Release(s, pid, ok), h)
  {
    hide Calm;
    hide KickFrom;
    var s1 := Log(s, Freed(pid));
    CalmLog(s, Freed(pid), h);
    if s.frameCount > FRAME_MAX {
      var s2 := s1.(frameCount := FRAME_MAX - 1).(reading := true);
      CalmSame(s1, s2, h);
      CalmThen(s, s1, s2, h);
      CalmKickFrom(s2, 0, ok, h);
      CalmThen(s, s2, KickFrom(s2, 0, ok), h);
    } else {
      CalmSame(s1, s1.(frameCount := s.frameCount - 1), h);
      CalmThen(s, s1, s1.(frameCount := s.frameCount - 1), h);
    }
  }

  // ---------- dispatch ----------

  /** The asks of the frame just delivered. */
  function Asking(p: Packet, h: nat, peer: nat): seq<Asked> {
    AskedBy(Frame(p.msg.command, p.msg.arg0, p.msg.arg1, p.data), h, peer)
  }

  function Writing(p: Packet, h: nat, peer: nat): seq<seq<byte>> {
    WrittenBy(Frame(p.msg.command, p.msg.arg0, p.msg.arg1, p.data), h, peer)
  }

  /** The invariant while the frame p is being processed. */
  ghost predicate TalkDue(s: State, h: nat, p: Packet) {
    forall v :: v in s.services && v.handle == h ==> Consistent(s, v, Asking(p, h, v.peer), Writing(p, h, v.peer))
  }

  /** The frame asks nothing of h and writes nothing to it. */
  ghost predicate Apart(s: State, h: nat, p: Packet) {
    forall v :: v in s.services && v.handle == h ==>
      if v.priv.Sync? then Asking(p, h, v.peer) == [] else Failed(v.priv) || Writing(p, h, v.peer) == []
  }

  lemma DueSettled(s: State, s1: State, h: nat, p: Packet)
    requires TalkDue(s, h, p) && Apart(s, h, p) && Calm(s, s1, h)
    ensures TalkOk(s1, h)
  {
    hide AskedOf;
    hide WrittenTo;
    hide Asks;
    hide Payloads;
    hide TalkOf;
    hide Pending;
    hide Replies;
    hide Calm;
    forall v | v in s.services && v.handle == h ensures Consistent(s, v, [], []) {
      assert Consistent(s, v, Asking(p, h, v.peer), Writing(p, h, v.peer));
    }
    CalmTalk(s, s1, h);
  }

  lemma OtherCommands(s: State, h: nat, p: Packet)
    requires p.msg.command != A_WRTE && p.msg.command != A_OKAY
    ensures Apart(s, h, p)
  {
  }

  /** A frame that finds no service, or another one, asks nothing of h. */
  lemma FoundElsewhere(s: State, h: nat, p: Packet, due: Due)
    requires WireOf(s, due) && (p.msg.command == A_WRTE || p.msg.command == A_OKAY)
    requires var k := Find(s.services, p.msg.arg1, GotPeer(p.msg));
             k.None? || s.services[k.value].handle != h
    ensures Apart(s, h, p)
  {
    forall v | v in s.services && v.handle == h && !Failed(v.priv)
      ensures Asking(p, h, v.peer) == [] && Writing(p, h, v.peer) == []
    {
      assert ServiceAt(v, s.nextId, s.requests, s.log, due);
      if p.msg.arg1 == h {
        FindUnique(s, h, GotPeer(p.msg), due);
      }
    }
  }

  /** A frame that finds the service h is what it is asked, or what is written to it. */
  lemma FoundHere(s: State, h: nat, p: Packet, due: Due)
    requires WireOf(s, due) && (p.msg.command == A_WRTE || p.msg.command == A_OKAY)
    requires var k := Find(s.services, p.msg.arg1, GotPeer(p.msg));
             k.Some? && s.services[k.value].handle == h && !Failed(s.services[k.value].priv)
    ensures var v := s.services[Find(s.services, p.msg.arg1, GotPeer(p.msg)).value];
            && v.id == h == p.msg.arg1 && v.peer != 0
            && Asking(p, h, v.peer) == [if p.msg.command == A_WRTE then Data(p.data) else Asked.Ready]
            && Writing(p, h, v.peer) == if p.msg.command == A_WRTE then [p.data] else []
  {
    var k := Find(s.services, p.msg.arg1, GotPeer(p.msg)).value;
    FindFirst(s.services, 0, p.msg.arg1, GotPeer(p.msg));
    ServiceFacts(s, k, due);
  }

  /** The sync service at position k has been asked and has not refused. */
  lemma AnswerTalk(s: State, k: nat, p: Packet, asked: Asked, reply: seq<byte>, s1: State)
    requires k < |s.services| && Descending(s.services) && s.services[k].priv.Sync?
    requires var v := s.services[k]; TalkDue(s, v.handle, p) && Asking(p, v.handle, v.peer) == [asked]
    requires var h, s0 := s.services[k].handle, Log(s, Answered(s.services[k].handle, asked, true, reply));
             && (s1.open ==> s.open && Out(s1, h) == Out(s0, h) + (if reply == [] then multiset{} else multiset{reply}))
             && (var t, t1 := TalkOf(s0.log, h), TalkOf(s1.log, h);
                 Same(t, t1))
             && forall v1 :: v1 in s1.services && v1.handle == h ==> v1.priv.Sync? && v1.peer == s.services[k].peer
    ensures TalkOk(s1, s.services[k].handle)
  {
    hide TalkOf;
    hide AskedOf;
    hide Asking;
    hide Asks;
    hide AllOk;
    hide Replies;
    hide Pending;
    hide IsOpen;
    var v := s.services[k];
    var h, e := v.handle, Answered(v.handle, asked, true, reply);
    TalkAppend(s.log, e, h);
    var t := TalkOf(s.log, h);
    assert v in s.services && Consistent(s, v, [asked], Writing(p, h, v.peer));
    AnswersAppend(t.answers, Answer(asked, true, reply));
    assert Asks(t.answers) + [asked] + [] == Asks(t.answers) + [asked];
  }

  lemma AnswersAppend(answers: seq<Answer>, a: Answer)
    ensures Asks(answers + [a]) == Asks(answers) + [a.asked]
    ensures Replies(answers + [a]) == Replies(answers) + (if a.reply == [] then multiset{} else multiset{a.reply})
    ensures AllOk(answers) && a.ok ==> AllOk(answers + [a])
  {
    assert (answers + [a])[..|answers|] == answers;
  }

  lemma SyncWriteTalk(s: State, k: nat, p: Packet, env: Env, due: Due)
    requires k < |s.services| && WireOf(s, due) && s.services[k].priv.Sync? && s.services[k].id == s.services[k].handle
    requires var v := s.services[k]; TalkDue(s, v.handle, p) && Asking(p, v.handle, v.peer) == [Data(Payload(p))]
    ensures TalkOk(SyncWrite(s, k, p, env), s.services[k].handle)
  {
    hide TalkOf;
    hide Out;
    hide TalkDue;
    hide Wire;
    hide Honest;
    hide TalkOk;
    hide Brings;
    hide CloseService;
    hide SendFrame;
    var v := s.services[k];
    var s0 := Log(s, Answered(v.handle, Data(Payload(p)), env.syncOk, env.reply));
    ServiceFacts(s, k, due);
    if env.syncOk {
      var q := Headed(p.(data := env.reply, writeLen := |env.reply|), A_OKAY, v.id, v.peer, 0);
      var r := q.(msg := q.msg.(command := A_WRTE, dataLength := |env.reply|), writeLen := 0);
      SendOut(s0, q, env.writeOk, v.handle);
      BringsReply(q, r, env.reply);
      OneHandle(s.services, v);
      AnswerTalk(s, k, p, Data(Payload(p)), env.reply, SyncWrite(s, k, p, env));
    } else {
      RefusedTalk(s0, k, p, env.writeOk);
    }
  }

  /** A service that refuses is no longer listed. */
  lemma RefusedTalk(s: State, k: nat, p: Packet, ok: bool)
    requires k < |s.services| && Descending(s.services)
    ensures TalkOk(CloseService(s, k, Some(p), ok), s.services[k].handle)
  {
    hide CloseService;
    CloseEffects(s, k, Some(p), ok);
    CutServices(s.services, k);
  }

  lemma SyncOkayTalk(s: State, k: nat, p: Packet, env: Env, due: Due)
    requires k < |s.services| && WireOf(s, due) && s.services[k].priv.Sync? && s.services[k].id == s.services[k].handle
    requires var v := s.services[k]; TalkDue(s, v.handle, p) && Asking(p, v.handle, v.peer) == [Asked.Ready]
    requires p.writeLen == 0
    ensures TalkOk(SyncOkay(s, k, p, env), s.services[k].handle)
  {
    hide TalkOf;
    hide Out;
    hide TalkDue;
    hide Wire;
    hide Honest;
    hide TalkOk;
    hide Brings;
    hide CloseService;
    hide SendFrame;
    hide Release;
    var v := s.services[k];
    var s0 := Log(s, Answered(v.handle, Asked.Ready, env.syncOk, env.reply));
    ServiceFacts(s, k, due);
    if !env.syncOk {
      RefusedTalk(s0, k, p, env.writeOk);
    } else if |env.reply| > 0 {
      var q := ReplyTo(p, v, env.reply);
      var r := q.(msg := q.msg.(command := A_WRTE, dataLength := |env.reply|), writeLen := 0);
      SendOut(s0, r, env.writeOk, v.handle);
      BringsReply(q.(msg := q.msg.(command := A_OKAY)), r, env.reply);
      OneHandle(s.services, v);
      AnswerTalk(s, k, p, Asked.Ready, env.reply, SyncOkay(s, k, p, env));
    } else {
      CalmRelease(s0, p.pid, env.writeOk, v.handle);
      SameListed(s, s0, SyncOkay(s, k, p, env), v);
      assert Out(s0, v.handle) + multiset{} == Out(s0, v.handle);
      AnswerTalk(s, k, p, Asked.Ready, env.reply, SyncOkay(s, k, p, env));
    }
  }

  lemma SameListed(s: State, s0: State, s1: State, v: Service)
    requires v in s.services && Descending(s.services) && s0.services == s.services && Calm(s0, s1, v.handle)
    ensures forall v1 :: v1 in s1.services && v1.handle == v.handle ==>
              v1.priv.Sync? == v.priv.Sync? && v1.peer == v.peer
  {
    hide TalkOf;
    hide Out;
    OneHandle(s.services, v);
    forall v1 | v1 in s1.services && v1.handle == v.handle
      ensures v1.priv.Sync? == v.priv.Sync? && v1.peer == v.peer
    {
      assert Stays(s0.services, v1, TalkOf(s1.log, v.handle).sent == TalkOf(s0.log, v.handle).sent);
    }
  }

  /** The replies in a frame that is offered: its own bytes, and those that wait behind it. */
  function Brings(p: Packet): multiset<seq<byte>> {
    (if p.msg.command == A_WRTE then multiset{Payload(p)} else multiset{})
    + (if p.writeLen > 0 then multiset{p.data[..Min(p.writeLen, |p.data|)]} else multiset{})
  }

  lemma BringsReply(p: Packet, q: Packet, reply: seq<byte>)
    requires p.msg.command == A_OKAY && p.data == reply && p.writeLen == |reply|
    requires q.msg.command == A_WRTE && q.data == reply && q.msg.dataLength == |reply| && q.writeLen == 0
    ensures Brings(p) == if reply == [] then multiset{} else multiset{reply}
    ensures Brings(q) == multiset{reply}
  {
    assert reply[..|reply|] == reply;
  }

  lemma SendOut(s: State, p: Packet, ok: bool, h: nat)
    requires p.msg.arg0 == h
    ensures var s1 := SendFrame(s, p, ok);
            && s1.services == s.services && (s1.open ==> s.open)
            && (forall r :: r in s1.requests && r.target.Socket? ==> r in s.requests)
            && (s1.open ==> Out(s1, h) == Out(s, h) + Brings(p))
            && (var t, t1 := TalkOf(s.log, h), TalkOf(s1.log, h);
                Same(t, t1))
  {
    var q := p.(msg := Seal(p.msg, Payload(p)));
    TalkAppend(s.log, Offered(q.pid, q.msg, Payload(q)), h);
    PendingAppend(s.requests, Request(Transport, q), h);
    hide TalkOf;
    hide Pending;
  }

  /** The frame p is the last that the client was given. */
  predicate LastIs(s: State, h: nat, p: Packet) {
    LastOf(TalkOf(s.log, h).frames) == [Frame(p.msg.command, p.msg.arg0, p.msg.arg1, p.data)]
  }

  lemma OpenTalk(s: State, p: Packet, env: Env, h: nat)
    requires WireOf(s, Nothing) && TalkDue(s, h, p) && p.msg.command == A_OPEN && p.writeLen == 0
    requires LastIs(s, h, p) && Payload(p) == p.data
    ensures TalkOk(HandleOpen(s, p, env), h)
  {
    hide Calm;
    hide TalkOk;
    hide TalkDue;
    hide Apart;
    hide Wire;
    hide Release;
    hide SendFrame;
    hide RegisterService;
    OtherCommands(s, h, p);
    CalmRelease(s, p.pid, env.writeOk, h);
    var s1 := HandleOpen(s, p, env);
    if p.msg.arg0 == 0 || p.msg.arg1 != 0 {
      DueSettled(s, s1, h, p);
    } else {
      match OpeningOf(p, env)
      case Refused(reply) =>
        if |reply| == 0 {
          CalmSend(s, Headed(p, A_CLSE, 0, p.msg.arg0, 0).(writeLen := 0), env.writeOk, h);
          DueSettled(s, s1, h, p);
        } else {
          OneShotTalk(s, p, reply, env.writeOk, h);
        }
      case Opens(priv) =>
        OpenedName(p, env);
        NewServiceTalk(s, p, priv, env.writeOk, h);
    }
  }

  lemma OpenedName(p: Packet, env: Env)
    requires Payload(p) == p.data && p.msg.command == A_OPEN
    ensures OpeningOf(p, env).Opens? ==> NameOf(OpeningOf(p, env).priv) <= p.data
  {
    hide Payload;
  }

  lemma OneShotTalk(s: State, p: Packet, reply: seq<byte>, ok: bool, h: nat)
    requires WireOf(s, Nothing) && TalkDue(s, h, p) && p.msg.command == A_OPEN
    ensures TalkOk(SendOkayWithData(s.(nextId := s.nextId + 1), p.(data := reply, writeLen := |reply|),
                                    s.nextId, p.msg.arg0, ok), h)
  {
    hide Calm;
    hide TalkDue;
    hide Apart;
    hide Wire;
    NextIdWire(s);
    var s1 := s.(nextId := s.nextId + 1);
    var q := Headed(p.(data := reply, writeLen := |reply|), A_OKAY, s.nextId, p.msg.arg0, 0);
    if h != s.nextId {
      hide TalkOk;
      OtherCommands(s, h, p);
      CalmSame(s, s1, h);
      CalmSend(s1, q, ok, h);
      CalmThen(s, s1, SendFrame(s1, q, ok), h);
      DueSettled(s, SendFrame(s1, q, ok), h, p);
    } else {
      SendOut(s1, q, ok, h);
      hide SendFrame;
    }
  }

  lemma CalmRegister(s: State, peer: nat, priv: Private, h: nat)
    requires h != s.nextId
    ensures Calm(s, RegisterService(s, peer, priv), h)
  {
    hide TalkOf;
    hide Pending;
    TalkAppend(s.log, Registered(s.nextId, peer), h);
    var s1 := RegisterService(s, peer, priv);
    assert Same(TalkOf(s.log, h), TalkOf(s1.log, h));
    forall v1 | v1 in s1.services && v1.handle == h ensures Stays(s.services, v1, true) {
      StaysListed(s.services, v1);
    }
    hide Stays;
  }

  /** A service that has just been opened has been asked nothing and handed nothing. */
  lemma RegisterTalk(s: State, peer: nat, priv: Private)
    requires WireOf(s, Nothing) && IsOpen(LastOf(TalkOf(s.log, s.nextId).frames), peer, priv)
    ensures TalkOk(RegisterService(s, peer, priv), s.nextId)
  {
    var s1, h := RegisterService(s, peer, priv), s.nextId;
    TalkAppend(s.log, Registered(h, peer), h);
    PendingNone(s.requests, h, s.services);
    NextIdWire(s);
    assert Out(s1, h) == multiset{};
    assert Handed(s1.requests, h, []) by {
      forall r | r in s.requests ensures r.target != Socket(h) {
        assert RequestOk(r, s.nextId, s.services);
      }
    }
    hide Wire;
    hide Pending;
  }

  lemma NewServiceTalk(s: State, p: Packet, priv: Private, ok: bool, h: nat)
    requires WireOf(s, Nothing) && TalkDue(s, h, p) && p.msg.command == A_OPEN && p.writeLen == 0
    requires LastIs(s, h, p) && NameOf(priv) <= p.data
    ensures var s1 := RegisterService(s, p.msg.arg0, priv);
            TalkOk(if priv.Stream? then Release(s1, p.pid, ok)
                   else SendOkayWithData(s1, p, s.nextId, p.msg.arg0, ok), h)
  {
    hide Calm;
    hide TalkOk;
    hide TalkDue;
    hide Apart;
    hide Wire;
    hide Release;
    hide SendFrame;
    hide RegisterService;
    var s1 := RegisterService(s, p.msg.arg0, priv);
    if h == s.nextId {
      RegisterTalk(s, p.msg.arg0, priv);
    } else {
      OtherCommands(s, h, p);
      CalmRegister(s, p.msg.arg0, priv, h);
      DueSettled(s, s1, h, p);
    }
    CalmRelease(s1, p.pid, ok, h);
    var q := Headed(p, A_OKAY, s.nextId, p.msg.arg0, 0);
    CalmSend(s1, q, ok, h);
    CalmTalk(s1, if priv.Stream? then Release(s1, p.pid, ok) else SendFrame(s1, q, ok), h);
  }

  lemma CalmQueue(s: State, g: nat, p: Packet, h: nat)
    requires g != h
    ensures Calm(s, QueueOnSocket(s, g, p), h)
  {
    hide TalkOf;
    hide Pending;
    hide Calm;
    TalkAppend(s.log, Passed(p.pid, g, Payload(p)), h);
    PendingAppend(s.requests, Request(Socket(g), p), h);
    CalmBy(s, QueueOnSocket(s, g, p), h);
  }

  /** The stream or shell h is handed what is written to it. */
  lemma QueueTalk(s: State, k: nat, p: Packet)
    requires k < |s.services| && Descending(s.services)
    requires !s.services[k].priv.Sync? && !Failed(s.services[k].priv)
    requires TalkDue(s, s.services[k].handle, p) && Writing(p, s.services[k].handle, s.services[k].peer) == [Payload(p)]
    ensures TalkOk(QueueOnSocket(s, s.services[k].handle, p), s.services[k].handle)
  {
    hide TalkOf;
    hide WrittenTo;
    hide Payloads;
    hide Asks;
    hide AskedOf;
    hide Pending;
    hide Writing;
    var v := s.services[k];
    var h, e := v.handle, Passed(p.pid, v.handle, Payload(p));
    TalkAppend(s.log, e, h);
    PayloadsAppend(TalkOf(s.log, h).passed, Passing(p.pid, Payload(p)));
    OneHandle(s.services, v);
    assert v in s.services && Consistent(s, v, Asking(p, h, v.peer), Writing(p, h, v.peer));
    assert Payloads(TalkOf(s.log, h).passed) + [Payload(p)] + [] == Payloads(TalkOf(s.log, h).passed) + [Payload(p)];
  }

  lemma CalmWrite(s: State, p: Packet, env: Env, h: nat)
    requires p.writeLen == 0
    requires var k := Find(s.services, p.msg.arg1, p.msg.arg0);
             k.Some? ==>
               && (s.services[k.value].priv.Sync? ==> h !in {s.services[k.value].handle, s.services[k.value].id})
               && (Accepts(s.services[k.value].priv) ==> s.services[k.value].handle != h)
    ensures Calm(s, HandleWrite(s, p, env), h)
  {
    hide Calm;
    hide CloseService;
    hide SendFrame;
    hide QueueOnSocket;
    var k := Find(s.services, p.msg.arg1, p.msg.arg0);
    if k.None? {
      CalmSend(s, Headed(p, A_CLSE, p.msg.arg1, p.msg.arg0, 0).(writeLen := 0), env.writeOk, h);
    } else {
      var v := s.services[k.value];
      CalmClose(s, k.value, Some(p), env.writeOk, h);
      if v.priv.Sync? {
        var a := Answered(v.handle, Data(Payload(p)), env.syncOk, env.reply);
        var s1, s2 := Log(s, a), HandleWrite(s, p, env);
        CalmLog(s, a, h);
        CalmClose(s1, k.value, Some(p), env.writeOk, h);
        CalmSend(s1, Headed(p.(data := env.reply, writeLen := |env.reply|), A_OKAY, v.id, v.peer, 0), env.writeOk, h);
        CalmThen(s, s1, s2, h);
      } else if Accepts(v.priv) {
        CalmQueue(s, v.handle, p, h);
      }
    }
  }

  /** The listed sync service of a handle is the service with this id. */
  lemma OtherHandle(s: State, k: nat, h: nat, due: Due)
    requires k < |s.services| && WireOf(s, due) && h > 0 && s.services[k].handle != h
    ensures s.services[k].id != h
  {
    ServiceFacts(s, k, due);
  }

  lemma WriteTalk(s: State, p: Packet, env: Env, h: nat, due: Due)
    requires WireOf(s, due) && TalkDue(s, h, p) && h > 0
    requires p.msg.command == A_WRTE && p.writeLen == 0 && Payload(p) == p.data
    ensures TalkOk(HandleWrite(s, p, env), h)
  {
    hide Calm;
    hide TalkOk;
    hide TalkDue;
    hide Apart;
    hide Wire;
    hide SyncWrite;
    hide Asking;
    hide Writing;
    var k := Find(s.services, p.msg.arg1, p.msg.arg0);
    if k.Some? && s.services[k.value].handle == h && !Failed(s.services[k.value].priv) {
      FoundHere(s, h, p, due);
      WrittenTalk(s, k.value, p, env, due);
    } else {
      Elsewhere(s, p, h, due);
      CalmWrite(s, p, env, h);
      DueSettled(s, HandleWrite(s, p, env), h, p);
    }
  }

  lemma WrittenTalk(s: State, k: nat, p: Packet, env: Env, due: Due)
    requires WireOf(s, due) && p.msg.command == A_WRTE && Payload(p) == p.data
    requires Find(s.services, p.msg.arg1, p.msg.arg0) == Some(k) && k < |s.services| && !Failed(s.services[k].priv)
    requires var v := s.services[k];
             && v.id == v.handle && TalkDue(s, v.handle, p)
             && Asking(p, v.handle, v.peer) == [Data(p.data)] && Writing(p, v.handle, v.peer) == [p.data]
    ensures TalkOk(HandleWrite(s, p, env), s.services[k].handle)
  {
    hide TalkOk;
    hide TalkDue;
    hide Wire;
    hide SyncWrite;
    hide Asking;
    hide Writing;
    hide CloseService;
    hide QueueOnSocket;
    ServiceFacts(s, k, due);
    if s.services[k].priv.Sync? {
      SyncWriteTalk(s, k, p, env, due);
    } else if Accepts(s.services[k].priv) && env.socketOk {
      QueueTalk(s, k, p);
    } else {
      RefusedTalk(s, k, p, env.writeOk);
    }
  }

  /** What a frame finds is another service, or one that it neither asks nor writes anything. */
  lemma Elsewhere(s: State, p: Packet, h: nat, due: Due)
    requires WireOf(s, due) && h > 0 && (p.msg.command == A_WRTE || p.msg.command == A_OKAY)
    requires var k := Find(s.services, p.msg.arg1, GotPeer(p.msg));
             !(k.Some? && s.services[k.value].handle == h
               && if p.msg.command == A_WRTE then !Failed(s.services[k.value].priv) else s.services[k.value].priv.Sync?)
    ensures Apart(s, h, p)
    ensures var k := Find(s.services, p.msg.arg1, GotPeer(p.msg));
            k.Some? && s.services[k.value].priv.Sync? ==> h !in {s.services[k.value].handle, s.services[k.value].id}
  {
    hide Apart;
    hide Wire;
    var k := Find(s.services, p.msg.arg1, GotPeer(p.msg));
    if k.Some? && s.services[k.value].handle == h {
      ServiceFacts(s, k.value, due);
      NotAsked(s, k.value, h, p);
    } else {
      FoundElsewhere(s, h, p, due);
      if k.Some? {
        OtherHandle(s, k.value, h, due);
      }
    }
  }

  lemma NotAsked(s: State, k: nat, h: nat, p: Packet)
    requires k < |s.services| && Descending(s.services) && s.services[k].handle == h && !s.services[k].priv.Sync?
    requires p.msg.command == A_WRTE ==> Failed(s.services[k].priv)
    ensures Apart(s, h, p)
  {
    OneHandle(s.services, s.services[k]);
  }

  lemma CalmOkay(s: State, p: Packet, env: Env, h: nat)
    requires p.writeLen == 0
    requires var k := Find(s.services, p.msg.arg1, 0);
             k.Some? ==>
               && WithPeer(s, k.value, p.msg.arg0) == s
               && (s.services[k.value].priv.Sync? ==> h !in {s.services[k.value].handle, s.services[k.value].id})
    ensures Calm(s, HandleOkay(s, p, env), h)
  {
    hide Calm;
    hide CloseService;
    hide SendFrame;
    hide Release;
    hide WithPeer;
    var k := Find(s.services, p.msg.arg1, 0);
    if k.None? {
      CalmSend(s, Headed(p, A_CLSE, p.msg.arg1, p.msg.arg0, 0).(writeLen := 0), env.writeOk, h);
    } else {
      var v, s2 := s.services[k.value], HandleOkay(s, p, env);
      if v.priv.Sync? {
        var a := Answered(v.handle, Asked.Ready, env.syncOk, env.reply);
        var s1, q := Log(s, a), ReplyTo(p, v, env.reply);
        CalmLog(s, a, h);
        CalmClose(s1, k.value, Some(p), env.writeOk, h);
        CalmSend(s1, q.(msg := q.msg.(command := A_WRTE, dataLength := q.writeLen), writeLen := 0), env.writeOk, h);
        CalmRelease(s1, p.pid, env.writeOk, h);
        CalmThen(s, s1, s2, h);
      } else {
        var s1 := SetPrivate(s, k.value, Acked(v.priv));
        CalmSet(s, k.value, Acked(v.priv), h);
        CalmRelease(s1, p.pid, env.writeOk, h);
        CalmThen(s, s1, s2, h);
      }
    }
  }

  lemma PeerKnown(s: State, k: nat, peer: nat, due: Due)
    requires k < |s.services| && WireOf(s, due)
    ensures WithPeer(s, k, peer) == s
  {
    ServiceFacts(s, k, due);
  }

  lemma OkayTalk(s: State, p: Packet, env: Env, h: nat, due: Due)
    requires WireOf(s, due) && TalkDue(s, h, p) && h > 0
    requires p.msg.command == A_OKAY && p.writeLen == 0
    ensures TalkOk(HandleOkay(s, p, env), h)
  {
    hide Calm;
    hide TalkOk;
    hide TalkDue;
    hide Apart;
    hide Wire;
    hide SyncOkay;
    hide WithPeer;
    var k := Find(s.services, p.msg.arg1, 0);
    if k.Some? {
      PeerKnown(s, k.value, p.msg.arg0, due);
    }
    if k.Some? && s.services[k.value].handle == h && s.services[k.value].priv.Sync? {
      FoundHere(s, h, p, due);
      SyncOkayTalk(s, k.value, p, env, due);
    } else {
      Elsewhere(s, p, h, due);
      CalmOkay(s, p, env, h);
      DueSettled(s, HandleOkay(s, p, env), h, p);
    }
  }

  lemma CalmCloseFrame(s: State, p: Packet, env: Env, h: nat)
    ensures Calm(s, HandleClose(s, p, env), h)
  {
    hide Calm;
    hide CloseService;
    hide Release;
    var k := Find(s.services, p.msg.arg1, p.msg.arg0);
    CalmRelease(s, p.pid, env.writeOk, h);
    if k.Some? {
      var s1 := CloseService(s, k.value, None, env.writeOk);
      CalmClose(s, k.value, None, env.writeOk, h);
      CalmRelease(s1, p.pid, env.writeOk, h);
      CalmThen(s, s1, HandleClose(s, p, env), h);
    }
  }

  lemma ProcessTalk(s: State, packet: Packet, env: Env, h: nat)
    requires WireOf(s, GotDue(s.services, packet.msg)) && TalkDue(s, h, packet) && LastIs(s, h, packet)
    requires h > 0 && Payload(packet) == packet.data
    ensures TalkOk(ProcessPacket(s, packet, env), h)
  {
    hide Calm;
    hide TalkOk;
    hide TalkDue;
    hide Apart;
    hide Wire;
    hide Release;
    hide SendFrame;
    hide HandleOpen;
    hide HandleClose;
    hide HandleWrite;
    hide HandleOkay;
    var p := packet.(writeLen := 0);
    SameDue(s, h, packet);
    if p.msg.command == A_WRTE {
      WriteTalk(s, p, env, h, GotDue(s.services, p.msg));
    } else if p.msg.command == A_OKAY {
      OkayTalk(s, p, env, h, GotDue(s.services, p.msg));
    } else {
      OtherCommands(s, h, p);
      if p.msg.command == A_CNXN {
        var q := Headed(p, A_CNXN, A_VERSION, PAYLOAD_SIZE, |BANNER|).(data := BANNER);
        var s1 := SendFrame(s, q, env.writeOk);
        CalmSend(s, q, env.writeOk, h);
        CalmSame(s1, s1.(isConnected := true), h);
        CalmThen(s, s1, s1.(isConnected := true), h);
        DueSettled(s, s1.(isConnected := true), h, p);
      } else if p.msg.command == A_OPEN {
        OpenTalk(s, p, env, h);
      } else if p.msg.command == A_CLSE {
        CalmCloseFrame(s, p, env, h);
        DueSettled(s, HandleClose(s, p, env), h, p);
      } else {
        var s1 := Release(s, p.pid, env.writeOk);
        CalmRelease(s, p.pid, env.writeOk, h);
        CalmSame(s1, s1.(open := false), h);
        CalmThen(s, s1, s1.(open := false), h);
        DueSettled(s, s1.(open := false), h, p);
      }
    }
  }

  lemma SameDue(s: State, h: nat, p: Packet)
    requires TalkDue(s, h, p)
    ensures TalkDue(s, h, p.(writeLen := 0)) && Payload(p.(writeLen := 0)) == Payload(p)
    ensures LastIs(s, h, p) ==> LastIs(s, h, p.(writeLen := 0))
  {
  }

  // ---------- events ----------

  /** A packet is delivered with exactly the bytes its header announces. */
  lemma ExactPacket(pid: nat, before: seq<byte>, chunk: seq<byte>)
    requires 0 < |chunk| <= OfferedLength(before) && Complete(before + chunk)
    ensures var p := PacketOf(pid, before + chunk); Payload(p) == p.data
  {
    var got := before + chunk;
    if |before| >= HEADER_SIZE {
      Decoder.HeaderPrefix(before, chunk);
    }
    hide ParseHeader;
    var p := PacketOf(pid, got);
    assert |p.data| == p.msg.dataLength;
  }

  lemma GotTalk(s: State, p: Packet, h: nat)
    requires TalkOk(s, h)
    ensures var s1 := Log(s, Got(p.pid, p.msg, p.data)); TalkDue(s1, h, p) && LastIs(s1, h, p)
  {
    var e, f := Got(p.pid, p.msg, p.data), Frame(p.msg.command, p.msg.arg0, p.msg.arg1, p.data);
    TalkAppend(s.log, e, h);
    var t := TalkOf(s.log, h);
    assert (t.frames + [f])[..|t.frames|] == t.frames;
    assert Asks(t.answers) + [] == Asks(t.answers);
    hide TalkOf;
    hide Asks;
    hide Pending;
    hide Replies;
  }

  lemma OnDataTalk(s: State, chunk: seq<byte>, env: Env, h: nat)
    requires Inv(s) && s.cur.Some? && TalkOk(s, h) && h > 0
    requires 0 < |chunk| <= OfferedLength(s.cur.value.got)
    ensures TalkOk(OnData(s, chunk, env), h)
  {
    hide Calm;
    hide TalkOk;
    hide TalkDue;
    hide Wire;
    hide Honest;
    hide PoolOk;
    hide ProcessPacket;
    hide HeaderOk;
    hide DataOk;
    hide ParseHeader;
    hide GotDue;
    var s1, got := OnData(s, chunk, env), s.cur.value.got + chunk;
    var s2 := s.(rx := s.rx + chunk, cur := None);
    if Complete(got) {
      var p := PacketOf(s.cur.value.pid, got);
      ExactPacket(p.pid, s.cur.value.got, chunk);
      CalmSame(s, s2, h);
      CalmTalk(s, s2, h);
      GotTalk(s2, p, h);
      GotWire(s2, p.pid, p.msg, p.data);
      ProcessTalk(Log(s2, Got(p.pid, p.msg, p.data)), p, env, h);
    }
    if s1.log == s.log && s1.requests == s.requests && s1.services == s.services && (s1.open ==> s.open) {
      CalmSame(s, s1, h);
      CalmTalk(s, s1, h);
    }
  }

  lemma SameTalk(s: State, s1: State, h: nat)
    requires s1.log == s.log && s1.requests == s.requests && s1.services == s.services && (s1.open ==> s.open)
    requires TalkOk(s, h)
    ensures TalkOk(s1, h)
  {
    CalmSame(s, s1, h);
    CalmTalk(s, s1, h);
    hide Calm;
    hide TalkOk;
  }

  lemma AllocateFrameTalk(s: State, h: nat)
    requires Inv(s) && TalkOk(s, h)
    ensures Inv(AllocateFrame(s)) && TalkOk(AllocateFrame(s), h)
  {
    hide Inv;
    hide TalkOk;
    AllocateFrameGood(s);
    SameTalk(s, AllocateFrame(s), h);
  }

  lemma TransportTalk(s: State, avail: seq<byte>, env: Env, h: nat)
    requires Inv(s) && TalkOk(s, h) && h > 0
    ensures TalkOk(TransportRead(s, avail, env), h) && TalkOk(TransportError(s), h)
  {
    hide Calm;
    hide TalkOk;
    hide Inv;
    hide OnData;
    hide Release;
    hide OfferedLength;
    AllocateFrameTalk(s, h);
    var s1 := AllocateFrame(s);
    hide AllocateFrame;
    SameTalk(s1, s1.(reading := false), h);
    SameTalk(s1, s1.(open := false), h);
    if s1.cur.Some? {
      var n := Min(|avail|, OfferedLength(s1.cur.value.got));
      if n > 0 {
        OnDataTalk(s1, avail[..n], env, h);
      } else if |s1.cur.value.got| <= 0 {
        var s2, pid := s1.(cur := None), s1.cur.value.pid;
        SameTalk(s1, s2, h);
        CalmRelease(s2, pid, env.writeOk, h);
        CalmTalk(s2, Release(s2, pid, env.writeOk), h);
      }
    }
  }

  /** A request that holds no reply of h leaves the list. */
  lemma CalmDone(s: State, i: nat, h: nat)
    requires i < |s.requests|
    ensures Still(s, s.(requests := Cut(s.requests, i)), h)
    ensures Behind(s.requests[i], h) == multiset{} ==> Calm(s, s.(requests := Cut(s.requests, i)), h)
  {
    hide TalkOf;
    hide Pending;
    hide Stays;
    hide Behind;
    PendingRemove(s.requests, i, h);
    var s1 := s.(requests := Cut(s.requests, i));
    assert forall r :: r in s1.requests ==> r in s.requests;
    forall v | v in s.services ensures Stays(s.services, v, true) {
      StaysListed(s.services, v);
    }
    assert Behind(s.requests[i], h) == multiset{} ==> Out(s1, h) == Out(s, h);
  }

  lemma WriteDoneTalk(s: State, i: nat, failed: bool, ok: bool, h: nat)
    requires Inv(s) && i < |s.requests| && TalkOk(s, h) && h > 0
    ensures TalkOk(WriteDone(s, i, failed, ok), h)
  {
    hide Calm;
    hide TalkOk;
    hide Inv;
    hide Behind;
    hide SendFrame;
    hide CloseService;
    hide Release;
    var r, p := s.requests[i], s.requests[i].packet;
    var s1, s2 := s.(requests := Cut(s.requests, i)), WriteDone(s, i, failed, ok);
    CalmDone(s, i, h);
    if r.target == Transport && failed {
      FailedWriteTalk(s, s1, p, ok, h);
    } else if r.target == Transport && p.writeLen > 0 {
      ReplySentTalk(s, i, ok, h);
    } else {
      BehindNothing(r, h);
      CalmTalk(s, s1, h);
      if r.target == Transport {
        CalmRelease(s1, p.pid, ok, h);
      } else {
        SocketOwner(s, r);
        var k := OwnerFrom(s.services, 0, r.target.handle).value;
        var v := s.services[k];
        CalmClose(s1, k, Some(p), ok, h);
        CalmSend(s1, Headed(p.(writeLen := 0), A_OKAY, v.id, v.peer, 0), ok, h);
      }
      CalmTalk(s1, s2, h);
    }
  }

  lemma BehindNothing(r: Request, h: nat)
    requires r.target != Transport || r.packet.writeLen == 0
    ensures Behind(r, h) == multiset{}
  {
  }

  lemma SocketOwner(s: State, r: Request)
    requires Inv(s) && r in s.requests && r.target.Socket?
    ensures OwnerFrom(s.services, 0, r.target.handle).Some?
  {
    OwnerListed(s, r, r.target.handle);
  }

  lemma FailedWriteTalk(s: State, s1: State, p: Packet, ok: bool, h: nat)
    requires Still(s, s1, h) && TalkOk(s, h)
    ensures TalkOk(Release(s1, p.pid, ok).(open := false), h)
  {
    hide Release;
    hide TalkOk;
    var s2 := Release(s1, p.pid, ok);
    CalmRelease(s1, p.pid, ok, h);
    CalmSame(s2, s2.(open := false), h);
    StillThen(s, s1, s2, h);
    StillThen(s, s2, s2.(open := false), h);
    hide Still;
    StillTalk(s, s2.(open := false), h);
  }

  /** A reply that waited behind its OKAY is sent. */
  lemma ReplySentTalk(s: State, i: nat, ok: bool, h: nat)
    requires i < |s.requests| && s.requests[i].target == Transport && s.requests[i].packet.writeLen > 0
    requires Inv(s) && TalkOk(s, h) && h > 0
    ensures TalkOk(SendData(s.(requests := Cut(s.requests, i)), s.requests[i].packet, ok), h)
  {
    hide Calm;
    hide TalkOk;
    hide Inv;
    hide SendFrame;
    var p, s1 := s.requests[i].packet, s.(requests := Cut(s.requests, i));
    var q := p.(msg := p.msg.(command := A_WRTE, dataLength := p.writeLen), writeLen := 0);
    if p.msg.arg0 == h {
      CalmReply(s, i, ok, h);
    } else {
      hide Still;
      CalmDone(s, i, h);
      BehindOther(s.requests[i], h);
      CalmSend(s1, q, ok, h);
      CalmThen(s, s1, SendFrame(s1, q, ok), h);
    }
    CalmTalk(s, SendFrame(s1, q, ok), h);
  }

  lemma BehindOther(r: Request, h: nat)
    requires r.packet.msg.arg0 != h
    ensures Behind(r, h) == multiset{}
  {
  }

  lemma CalmReply(s: State, i: nat, ok: bool, h: nat)
    requires Inv(s) && i < |s.requests| && h > 0
    requires s.requests[i].target == Transport && s.requests[i].packet.writeLen > 0
    requires s.requests[i].packet.msg.arg0 == h
    ensures Calm(s, SendData(s.(requests := Cut(s.requests, i)), s.requests[i].packet, ok), h)
  {
    hide Inv;
    hide SendFrame;
    hide TalkOf;
    hide Pending;
    hide Stays;
    var p, s1 := s.requests[i].packet, s.(requests := Cut(s.requests, i));
    var q := p.(msg := p.msg.(command := A_WRTE, dataLength := p.writeLen), writeLen := 0);
    var s2 := SendFrame(s1, q, ok);
    PendingRemove(s.requests, i, h);
    SendOut(s1, q, ok, h);
    ReplyIsSyncs(s, i, h, TalkOf(s2.log, h).sent == TalkOf(s.log, h).sent);
    assert forall r :: r in s1.requests ==> r in s.requests;
    assert s2.open ==> Out(s2, h) == Out(s, h);
  }

  /** Only a sync service has replies that wait. */
  lemma ReplyIsSyncs(s: State, i: nat, h: nat, quiet: bool)
    requires Inv(s) && i < |s.requests| && h > 0
    requires s.requests[i].target == Transport && s.requests[i].packet.writeLen > 0
    requires s.requests[i].packet.msg.arg0 == h
    ensures forall v :: v in s.services && v.handle == h ==> Stays(s.services, v, quiet)
  {
    assert RequestOk(s.requests[i], s.nextId, s.services);
    forall v | v in s.services && v.handle == h ensures Stays(s.services, v, quiet) {
      assert ServiceAt(v, s.nextId, s.requests, s.log, Nothing);
    }
  }

  lemma ConnectTalk(s: State, k: nat, failed: bool, ok: bool, h: nat)
    requires k < |s.services| && s.services[k].priv.Stream? && TalkOk(s, h)
    ensures TalkOk(ConnectDone(s, k, failed, ok), h)
  {
    hide Calm;
    hide TalkOk;
    hide TryClose;
    hide TryConnect;
    var v, s2 := s.services[k], ConnectDone(s, k, failed, ok);
    var s1 := if failed || v.priv.state != NotConnected then ConnectFails(s, k)
              else SetPrivate(s, k, Stream(NotifyClient, v.priv.reading));
    if failed || v.priv.state != NotConnected {
      CalmFails(s, k, h);
    } else {
      CalmSet(s, k, Stream(NotifyClient, v.priv.reading), h);
    }
    CalmTry(s1, k, ok, h);
    CalmThen(s, s1, s2, h);
    CalmTalk(s, s2, h);
  }

  lemma CalmFails(s: State, k: nat, h: nat)
    requires k < |s.services| && s.services[k].priv.Stream?
    ensures Calm(s, ConnectFails(s, k), h)
  {
    var v, s2 := s.services[k], ConnectFails(s, k);
    var s1 := s.(services := s2.services);
    CalmReplace(s, k, v.(id := 0, priv := Stream(ErrorClose, v.priv.reading)), h);
    CalmLog(s1, ConnectFailed(v.handle), h);
    CalmThen(s, s1, s2, h);
    hide Calm;
  }

  /** The service at position k reads from its socket or pipe. */
  ghost predicate Reads(s: State, k: nat) {
    && k < |s.services| && Descending(s.services) && s.services[k].id == s.services[k].handle
    && (s.services[k].priv.Shell? || (s.services[k].priv.Stream? && s.services[k].priv.state == Connected))
  }

  /** What the service reads is what it sends. */
  lemma ForwardTalk(s: State, k: nat, priv: Private, bytes: seq<byte>, p: Packet, ok: bool, h: nat)
    requires Reads(s, k) && TalkOk(s, h) && SameKind(s.services[k].priv, priv)
    requires p.msg.arg0 == s.services[k].id && p.data == bytes && p.writeLen == |bytes|
    ensures TalkOk(SendData(SetPrivate(Log(s, Fetched(s.services[k].handle, bytes)), k, priv), p, ok), h)
  {
    hide TalkOk;
    hide Calm;
    hide SendFrame;
    var v := s.services[k];
    var e := Fetched(v.handle, bytes);
    var s1 := SetPrivate(Log(s, e), k, priv);
    if v.handle == h {
      SentTalk(s, k, priv, bytes, p, ok);
    } else {
      var q := p.(msg := p.msg.(command := A_WRTE, dataLength := p.writeLen), writeLen := 0);
      CalmLog(s, e, h);
      CalmSet(Log(s, e), k, priv, h);
      CalmThen(s, Log(s, e), s1, h);
      CalmSend(s1, q, ok, h);
      CalmThen(s, s1, SendFrame(s1, q, ok), h);
      CalmTalk(s, SendFrame(s1, q, ok), h);
    }
  }

  lemma SentTalk(s: State, k: nat, priv: Private, bytes: seq<byte>, p: Packet, ok: bool)
    requires Reads(s, k) && TalkOk(s, s.services[k].handle) && SameKind(s.services[k].priv, priv)
    requires p.msg.arg0 == s.services[k].id && p.data == bytes && p.writeLen == |bytes|
    ensures TalkOk(SendData(SetPrivate(Log(s, Fetched(s.services[k].handle, bytes)), k, priv), p, ok),
                   s.services[k].handle)
  {
    hide TalkOf;
    hide WrittenTo;
    hide Payloads;
    hide Asks;
    hide AskedOf;
    hide Pending;
    var v := s.services[k];
    var h, w := v.handle, v.(priv := priv);
    var q := p.(msg := Seal(p.msg.(command := A_WRTE, dataLength := p.writeLen), bytes), writeLen := 0);
    assert bytes[..|bytes|] == bytes;
    var log := s.log + [Fetched(h, bytes)];
    TalkAppend(s.log, Fetched(h, bytes), h);
    TalkAppend(log, Offered(p.pid, q.msg, bytes), h);
    SameHandles(s.services, k, w);
    assert v in s.services && Consistent(s, v, [], []);
    var s1 := SetPrivate(Log(s, Fetched(h, bytes)), k, priv);
    var s2 := SendData(s1, p, ok);
    assert s2.log == log + [Offered(p.pid, q.msg, bytes)] && s2.services == s.services[k := w];
    forall v1 | v1 in s2.services && v1.handle == h ensures Consistent(s2, v1, [], []) {
      assert v1 == w;
    }
  }

  /** A read that ends a service. */
  lemma EndedTalk(s: State, k: nat, p: Packet, ok: bool, h: nat)
    requires k < |s.services| && TalkOk(s, h)
    ensures TalkOk(CloseService(s, k, Some(p), ok), h)
  {
    hide Calm;
    CalmClose(s, k, Some(p), ok, h);
    CalmTalk(s, CloseService(s, k, Some(p), ok), h);
    hide TalkOk;
    hide CloseService;
  }

  lemma PausedTalk(s: State, k: nat, priv: Private, h: nat)
    requires k < |s.services| && TalkOk(s, h) && SameKind(s.services[k].priv, priv)
    ensures TalkOk(SetPrivate(s, k, priv), h)
  {
    hide Calm;
    CalmSet(s, k, priv, h);
    CalmTalk(s, SetPrivate(s, k, priv), h);
    hide TalkOk;
  }

  lemma StreamReadTalk(s: State, k: nat, avail: seq<byte>, failed: bool, ok: bool, h: nat)
    requires Reads(s, k) && s.services[k].priv.Stream? && TalkOk(s, h)
    ensures TalkOk(StreamRead(s, k, avail, failed, ok), h)
  {
    hide TalkOk;
    hide Calm;
    hide Release;
    hide CloseService;
    hide SendFrame;
    var v, bytes := s.services[k], Readable(avail);
    var (s1, pid) := Allocate(s);
    assert Reads(s1, k);
    hide Reads;
    CalmAllocate(s, h);
    CalmTalk(s, s1, h);
    if pid.None? {
      PausedTalk(s1, k, Stream(Connected, false), h);
    } else if failed {
      EndedTalk(s1, k, Filled(pid.value, []), ok, h);
    } else if bytes == [] {
      CalmRelease(s1, pid.value, ok, h);
      CalmTalk(s1, Release(s1, pid.value, ok), h);
    } else {
      var p := Filled(pid.value, bytes);
      ForwardTalk(s1, k, Stream(WaitAck, false), bytes,
                  p.(msg := p.msg.(arg0 := v.id, arg1 := v.peer), writeLen := |bytes|), ok, h);
      TwiceSet(Log(s1, Fetched(v.handle, bytes)), k, Stream(Connected, false), Stream(WaitAck, false));
    }
  }

  lemma ShellReadTalk(s: State, k: nat, avail: seq<byte>, failed: bool, ok: bool, h: nat)
    requires Reads(s, k) && s.services[k].priv.Shell? && TalkOk(s, h)
    ensures TalkOk(ShellRead(s, k, avail, failed, ok), h)
  {
    hide TalkOk;
    hide Calm;
    hide CloseService;
    hide SendFrame;
    var v, bytes := s.services[k], Readable(avail);
    var (s1, pid) := Allocate(s);
    assert Reads(s1, k);
    hide Reads;
    CalmAllocate(s, h);
    CalmTalk(s, s1, h);
    if pid.None? {
      PausedTalk(s1, k, Shell(v.priv.waitAck, false), h);
    } else if failed || bytes == [] {
      EndedTalk(s1, k, Fresh(pid.value), ok, h);
    } else {
      var p := Filled(pid.value, bytes);
      ForwardTalk(s1, k, Shell(true, false), bytes,
                  p.(msg := p.msg.(arg0 := v.id, arg1 := v.peer), writeLen := |bytes|), ok, h);
    }
  }

  lemma ReadsAt(s: State, k: nat)
    requires Inv(s) && k < |s.services| && !s.services[k].priv.Sync? && s.services[k].priv.reading
    ensures Reads(s, k)
  {
    ServiceFacts(s, k, Nothing);
  }

  lemma StepTalk(s: State, e: Event, env: Env, h: nat)
    requires Inv(s) && Enabled(s, e) && TalkOk(s, h) && h > 0
    ensures TalkOk(Step(s, e, env), h)
  {
    hide Inv;
    hide TalkOk;
    hide Reads;
    hide TransportRead;
    hide TransportError;
    hide WriteDone;
    hide ConnectDone;
    hide StreamRead;
    hide ShellRead;
    match e
    case ReadTransport(avail) => TransportTalk(s, avail, env, h);
    case FailTransport => TransportTalk(s, [], env, h);
    case CompleteWrite(i, failed) => WriteDoneTalk(s, i, failed, env.writeOk, h);
    case CompleteConnect(k, failed) => ConnectTalk(s, k, failed, env.writeOk, h);
    case ReadService(k, avail, failed) =>
      ReadsAt(s, k);
      if s.services[k].priv.Stream? {
        StreamReadTalk(s, k, avail, failed, env.writeOk, h);
      } else {
        ShellReadTalk(s, k, avail, failed, env.writeOk, h);
      }
  }

  lemma {:induction false} RunTalk(s: State, turns: seq<Turn>, h: nat)
    requires Inv(s) && CanRun(s, turns) && TalkOk(s, h) && h > 0
    ensures TalkOk(Run(s, turns), h)
    decreases |turns|
  {
    hide Inv;
    hide TalkOk;
    hide Step;
    if turns != [] {
      StepInv(s, turns[0].event, turns[0].env);
      StepTalk(s, turns[0].event, turns[0].env, h);
      RunTalk(Step(s, turns[0].event, turns[0].env), turns[1..], h);
    }
  }

  predicate Ends(all: seq<Frame>, last: seq<Frame>) {
    |last| <= |all| && all[|all| - |last|..] == last
  }

  lemma EndsMore(all: seq<Frame>, a: seq<Frame>, b: seq<Frame>, f: Frame)
    requires Ends(all, a + b)
    ensures Ends(all + [f], a + (b + [f]))
  {
    assert a + (b + [f]) == (a + b) + [f];
  }

  lemma EndsLast(all: seq<Frame>, a: seq<Frame>, b: seq<Frame>)
    requires Ends(all, a + b)
    ensures Ends(all, LastOf(b) + [])
  {
    assert LastOf(b) + [] == LastOf(b);
    if b != [] {
      assert (a + b)[|a + b| - 1] == b[|b| - 1] == all[|all| - 1];
    }
  }

  lemma GotLast(log: seq<Entry>, e: Entry)
    requires e.Got?
    ensures Delivered(log + [e]) == Delivered(log) + [Frame(e.msg.command, e.msg.arg0, e.msg.arg1, e.payload)]
  {
    assert (log + [e])[..|log|] == log;
  }

  /** The frame at which h was registered and those since are the last of all that were delivered. */
  lemma {:induction false} TalkIsSuffix(log: seq<Entry>, h: nat)
    ensures var t := TalkOf(log, h); Ends(Delivered(log), t.first + t.frames)
  {
    hide Ends;
    if log == [] {
      NothingEnds(h);
    } else {
      var less, e := log[..|log| - 1], log[|log| - 1];
      TalkIsSuffix(less, h);
      var t, all := TalkOf(less, h), Delivered(less);
      hide TalkOf;
      hide Delivered;
      TalkAppend(less, e, h);
      LedgerAppend(less, e);
      assert less + [e] == log;
      if e.Got? {
        GotLast(less, e);
        EndsMore(all, t.first, t.frames, Frame(e.msg.command, e.msg.arg0, e.msg.arg1, e.payload));
      } else if e.Registered? && e.handle == h {
        EndsLast(all, t.first, t.frames);
      }
    }
  }

  lemma NothingEnds(h: nat)
    ensures Ends(Delivered([]), TalkOf([], h).first + TalkOf([], h).frames)
  {
  }

  /** In every state of every run, a listed sync service has been asked, each once and in order, exactly what
      the frames delivered since its OPEN ask of it, and has refused nothing. While the client is open, each
      of its replies is either the payload of one WRTE sent for it or waits behind an OKAY. */
  lemma SyncIsAsked(turns: seq<Turn>, v: Service)
    requires CanRun(Init(), turns) && v in Run(Init(), turns).services && v.priv.Sync?
    ensures var s := Run(Init(), turns);
            var t := TalkOf(s.log, v.handle);
            && IsOpen(t.first, v.peer, Sync)
            && Asks(t.answers) == AskedOf(t.frames, v.handle, v.peer) && AllOk(t.answers)
            && (s.open ==> multiset(t.sent) + Pending(s.requests, v.handle) == Replies(t.answers))
  {
    ServiceInRun(turns, v);
    var t := TalkOf(Run(Init(), turns).log, v.handle);
    assert Asks(t.answers) + [] == Asks(t.answers);
  }

  lemma ServiceInRun(turns: seq<Turn>, v: Service)
    requires CanRun(Init(), turns) && v in Run(Init(), turns).services
    ensures Consistent(Run(Init(), turns), v, [], [])
  {
    InitInv();
    RunInv(Init(), turns);
    var s := Run(Init(), turns);
    var k :| 0 <= k < |s.services| && s.services[k] == v;
    ServiceFacts(s, k, Nothing);
    hide Inv;
    hide Run;
    hide Consistent;
    RunTalk(Init(), turns, v.handle);
  }

  /** In every state of every run, a listed stream or shell whose connect has not failed was opened under its own
      name. It has been handed, each once and in order, exactly the payloads of the WRTE frames delivered for it
      since its OPEN, and each packet still queued on its socket holds the bytes that were handed over with it.
      The WRTE frames sent for it carry, in order and nothing else, the bytes read from its socket or pipe. */
  lemma StreamIsCarried(turns: seq<Turn>, v: Service)
    requires CanRun(Init(), turns) && v in Run(Init(), turns).services && !v.priv.Sync? && !Failed(v.priv)
    ensures var s := Run(Init(), turns);
            var t := TalkOf(s.log, v.handle);
            && IsOpen(t.first, v.peer, v.priv)
            && Payloads(t.passed) == WrittenTo(t.frames, v.handle, v.peer)
            && (forall r :: r in s.requests && r.target == Socket(v.handle) ==>
                  Passing(r.packet.pid, Payload(r.packet)) in t.passed)
            && t.sent == t.fetched
  {
    ServiceInRun(turns, v);
    var t := TalkOf(Run(Init(), turns).log, v.handle);
    assert Payloads(t.passed) + [] == Payloads(t.passed);
  }
}
