/** Runs that show what can happen: packets are lost, and a push goes through. */
module ClientLimits {
  import opened Bytes
  import opened Frame
  import opened ClientSpec

  /** An open client with one sync service, nothing outstanding and `lost` packets lost. */
  ghost predicate Bare(s: State, lost: nat) {
    && s.open && s.reading && !s.isConnected && s.cur.None? && s.requests == [] && s.services == [SYNC]
    && s.frameCount == |s.leaked| == lost
  }

  const SYNC: Service := Service(1, 1, 1, Sync)

  /** The same client with a stream in front, in some state, and perhaps one request. */
  ghost predicate Busy(s: State, lost: nat, id: nat, priv: Private, rs: seq<Request>) {
    && s.open && s.reading && !s.isConnected && s.cur.None? && s.requests == rs
    && s.services == [Service(id, id, 1, priv), SYNC]
    && s.frameCount == lost + |rs| && |s.leaked| == lost && s.nextId == id + 1
  }

  const ENV: Env := Env(true, true, true, [], None)

  // ---------- frames ----------

  /** The reads of a frame: its header, then its payload. */
  function Arrives(f: Frame, env: Env): seq<Turn> {
    [Turn(ReadTransport(Encode(f)), env)]
    + (if f.payload == [] then [] else [Turn(ReadTransport(f.payload), env)])
  }

  /** The packet in which a frame arrives. */
  function Packed(s: State, f: Frame): (p: Packet)
    ensures p.pid == s.nextPid && p.writeLen == 0 && p.data == f.payload
  {
    Packet(s.nextPid, ParseHeader(Encode(f)), f.payload, 0)
  }

  /** The client when a frame has been read, just before it is processed. */
  function Received(s: State, f: Frame): State {
    var p := Packed(s, f);
    Log(s.(frameCount := s.frameCount + 1, nextPid := s.nextPid + 1, rx := s.rx + Encode(f)), Got(p.pid, p.msg, p.data))
  }

  /** The client when the frame has been processed. */
  function Processed(s: State, f: Frame, env: Env): State {
    ProcessPacket(Received(s, f), Packed(s, f), env)
  }

  /** The packet of a frame. */
  predicate Carries(p: Packet, s: State, f: Frame) {
    && p.msg.command == f.command && p.msg.arg0 == f.arg0 && p.msg.arg1 == f.arg1
    && p.msg.dataLength == |f.payload| && p.data == f.payload && p.pid == s.nextPid && p.writeLen == 0
  }

  /** A frame without payload is read at once. */
  lemma HeaderArrives(s: State, f: Frame, env: Env)
    requires s.cur.None? && s.frameCount < FRAME_MAX && f.payload == [] && Sendable(s.isConnected, f)
    ensures Carries(Packed(s, f), s, f) && TransportRead(s, Encode(f), env) == Processed(s, f, env)
  {
    hide ProcessPacket;
    hide ParseHeader;
    hide HeaderOk;
    hide DataOk;
    hide Encode;
    var e := Encode(f);
    assert e + [] == e;
    EncodedFrameIsAccepted(s.isConnected, f, []);
    assert |e| == HEADER_SIZE && e[HEADER_SIZE..] == [];
    assert [] + e == e && e[..HEADER_SIZE] == e;
    assert PacketOf(s.nextPid, e) == Packed(s, f);
  }

  /** A client that has read the header of a frame and waits for its payload. */
  function Begun(s: State, f: Frame): State
    requires |Encode(f)| >= HEADER_SIZE
  {
    var h := Encode(f)[..HEADER_SIZE];
    s.(frameCount := s.frameCount + 1, nextPid := s.nextPid + 1, rx := s.rx + h, cur := Some(Incoming(s.nextPid, h)))
  }

  lemma HeaderOfFrame(connected: bool, f: Frame)
    requires Sendable(connected, f)
    ensures var e := Encode(f);
            && |e| == HEADER_SIZE + |f.payload| && e[HEADER_SIZE..] == f.payload
            && HeaderOk(connected, ParseHeader(e)) && DataOk(ParseHeader(e), f.payload)
            && ParseHeader(e[..HEADER_SIZE]) == ParseHeader(e)
            && ParseHeader(e).dataLength == |f.payload|
            && f == Frame(ParseHeader(e).command, ParseHeader(e).arg0, ParseHeader(e).arg1, f.payload)
  {
    hide ParseHeader;
    hide HeaderOk;
    hide DataOk;
    hide Encode;
    var e := Encode(f);
    assert e + [] == e;
    EncodedFrameIsAccepted(connected, f, []);
    HeaderStart(e);
  }

  lemma HeaderStart(e: seq<byte>)
    requires |e| >= HEADER_SIZE
    ensures ParseHeader(e[..HEADER_SIZE]) == ParseHeader(e)
  {
    var h := e[..HEADER_SIZE];
    assert h[0..4] == e[0..4] && h[4..8] == e[4..8] && h[8..12] == e[8..12];
    assert h[12..16] == e[12..16] && h[16..20] == e[16..20] && h[20..24] == e[20..24];
  }

  lemma PayloadBegins(s: State, f: Frame, env: Env)
    requires s.cur.None? && s.frameCount < FRAME_MAX && f.payload != [] && Sendable(s.isConnected, f)
    ensures |Encode(f)| >= HEADER_SIZE && TransportRead(s, Encode(f), env) == Begun(s, f)
  {
    hide ProcessPacket;
    hide ParseHeader;
    hide HeaderOk;
    hide DataOk;
    hide Encode;
    HeaderOfFrame(s.isConnected, f);
    var h := Encode(f)[..HEADER_SIZE];
    assert [] + h == h && |h| == HEADER_SIZE;
  }

  lemma PayloadArrives(s: State, f: Frame, env: Env)
    requires s.cur.None? && s.frameCount < FRAME_MAX && f.payload != [] && Sendable(s.isConnected, f)
    requires |Encode(f)| >= HEADER_SIZE
    ensures Carries(Packed(s, f), s, f)
    ensures TransportRead(Begun(s, f), f.payload, env) == Processed(s, f, env)
  {
    hide ProcessPacket;
    hide ParseHeader;
    hide HeaderOk;
    hide DataOk;
    hide Encode;
    HeaderOfFrame(s.isConnected, f);
    var e := Encode(f);
    assert e[..HEADER_SIZE] + f.payload == e && f.payload[..|f.payload|] == f.payload;
    assert s.rx + e[..HEADER_SIZE] + f.payload == s.rx + e;
    assert PacketOf(s.nextPid, e) == Packed(s, f);
  }

  /** In a run, a frame is read and processed, whatever its length. */
  lemma FrameArrives(s: State, f: Frame, env: Env, more: seq<Turn>)
    requires s.open && s.reading && IsEnv(env)
    requires s.cur.None? && s.frameCount < FRAME_MAX && Sendable(s.isConnected, f)
    ensures Carries(Packed(s, f), s, f)
    ensures var s1 := Processed(s, f, env);
            CanRun(s1, more) ==>
              CanRun(s, Arrives(f, env) + more) && Run(s, Arrives(f, env) + more) == Run(s1, more)
  {
    hide TransportRead;
    hide Processed;
    hide Packed;
    hide CanRun;
    hide Run;
    hide Encode;
    if f.payload == [] {
      HeaderArrives(s, f, env);
      if CanRun(Processed(s, f, env), more) {
        Prepend(s, Turn(ReadTransport(Encode(f)), env), more);
      }
      assert Arrives(f, env) == [Turn(ReadTransport(Encode(f)), env)];
    } else {
      PayloadBegins(s, f, env);
      PayloadArrives(s, f, env);
      var last := [Turn(ReadTransport(f.payload), env)];
      if CanRun(Processed(s, f, env), more) {
        Prepend(Begun(s, f), last[0], more);
        Prepend(s, Turn(ReadTransport(Encode(f)), env), last + more);
      }
      assert Arrives(f, env) + more == [Turn(ReadTransport(Encode(f)), env)] + (last + more);
    }
  }

  lemma Prepend(s: State, t: Turn, turns: seq<Turn>)
    requires Enabled(s, t.event) && IsEnv(t.env) && CanRun(Step(s, t.event, t.env), turns)
    ensures CanRun(s, [t] + turns) && Run(s, [t] + turns) == Run(Step(s, t.event, t.env), turns)
  {
    assert ([t] + turns)[1..] == turns;
    hide Step;
    hide Enabled;
  }

  // ---------- one packet lost ----------

  const SYNC_OPEN: Frame := Frame(A_OPEN, 1, 0, SYNC_NAME + [0])
  const TCP_OPEN: Frame := Frame(A_OPEN, 1, 0, TCP_NAME + [0])

  lemma Names(p: Packet, env: Env)
    requires env.refused.None? && p.msg.dataLength == |p.data|
    ensures p.data == SYNC_NAME + [0] ==> OpeningOf(p, env) == Opens(Sync)
    ensures p.data == TCP_NAME + [0] ==> OpeningOf(p, env) == Opens(Stream(NotConnected, false))
  {
    assert p.data == SYNC_NAME + [0] ==> ServiceName(p) == SYNC_NAME;
    assert p.data == TCP_NAME + [0] ==> ServiceName(p) == TCP_NAME;
  }

  lemma Opened(s: State, lost: nat)
    requires Bare(s, lost) && lost < FRAME_MAX && Carries(Packed(s, TCP_OPEN), s, TCP_OPEN)
    ensures Busy(Processed(s, TCP_OPEN, ENV), lost, s.nextId, Stream(NotConnected, false), [])
  {
    Names(Packed(s, TCP_OPEN), ENV);
    hide Packed;
    hide Encode;
    hide OpeningOf;
  }

  lemma Connects(s: State, lost: nat, id: nat) returns (r: Request)
    requires Busy(s, lost, id, Stream(NotConnected, false), []) && lost < FRAME_MAX
    ensures r.target == Transport && r.packet.writeLen == 0
    ensures Busy(ConnectDone(s, 0, false, true), lost, id, Stream(Connected, true), [r])
  {
    r := ConnectDone(s, 0, false, true).requests[0];
  }

  lemma Told(s: State, lost: nat, id: nat, r: Request)
    requires Busy(s, lost, id, Stream(Connected, true), [r]) && lost < FRAME_MAX
    requires r.target == Transport && r.packet.writeLen == 0
    ensures Busy(WriteDone(s, 0, false, true), lost, id, Stream(Connected, true), [])
  {
    assert Cut(s.requests, 0) == [];
  }

  lemma Queued(s: State, lost: nat, id: nat, f: Frame) returns (r: Request)
    requires Busy(s, lost, id, Stream(Connected, true), []) && lost < FRAME_MAX && id > 1
    requires f == Frame(A_WRTE, 1, id, []) && Carries(Packed(s, f), s, f)
    ensures r.target == Socket(id)
    ensures Busy(Processed(s, f, ENV), lost, id, Stream(Connected, true), [r])
  {
    hide Encode;
    hide SendFrame;
    hide CloseService;
    hide Release;
    hide HandleOpen;
    hide HandleClose;
    hide HandleOkay;
    hide Packed;
    r := Request(Socket(id), Packed(s, f));
    assert Find(s.services, id, 1) == Some(0);
  }

  lemma Lost(s: State, lost: nat, id: nat, r: Request, f: Frame)
    requires Busy(s, lost, id, Stream(Connected, true), [r]) && r.target == Socket(id)
    requires lost + 1 < FRAME_MAX && id > 1
    requires f == Frame(A_CLSE, 1, id, []) && Carries(Packed(s, f), s, f)
    ensures var s1 := Processed(s, f, ENV); Bare(s1, lost + 1) && s1.nextId == id + 1
  {
    hide Encode;
    hide SendFrame;
    hide HandleOpen;
    hide HandleWrite;
    hide HandleOkay;
    hide KickFrom;
    hide Packed;
    assert Find(s.services, id, 1) == Some(0);
    assert NotFor([r], id) == [] && QueuedFor([r], id) == multiset{r.packet.pid};
    assert |s.leaked + multiset{r.packet.pid}| == lost + 1;
    assert Cut(s.services, 0) == [SYNC];
  }

  /** A stream is opened and connected, a WRTE is queued on its socket, and the peer closes it. */
  function Round(id: nat): seq<Turn> {
    Arrives(TCP_OPEN, ENV) + ([Turn(CompleteConnect(0, false), ENV)] + ([Turn(CompleteWrite(0, false), ENV)]
    + (Arrives(Frame(A_WRTE, 1, id, []), ENV) + Arrives(Frame(A_CLSE, 1, id, []), ENV))))
  }

  lemma LoseOne(s: State, lost: nat) returns (s1: State)
    requires Bare(s, lost) && lost + 1 < FRAME_MAX && 1 < s.nextId < WORD
    ensures Bare(s1, lost + 1) && s1.nextId == s.nextId + 1
    ensures forall more :: CanRun(s1, more) ==>
              CanRun(s, Round(s.nextId) + more) && Run(s, Round(s.nextId) + more) == Run(s1, more)
  {
    hide Bare;
    hide ConnectDone;
    hide WriteDone;
    hide Processed;
    hide Packed;
    hide Encode;
    hide CanRun;
    hide Run;
    hide Arrives;
    hide Round;
    var id := s.nextId;
    var f, g := Frame(A_WRTE, 1, id, []), Frame(A_CLSE, 1, id, []);
    BareFacts(s, lost);
    FrameArrives(s, TCP_OPEN, ENV, []);
    var a := Processed(s, TCP_OPEN, ENV);
    Opened(s, lost);
    var r := Connects(a, lost, id);
    var b := ConnectDone(a, 0, false, true);
    Told(b, lost, id, r);
    var c := WriteDone(b, 0, false, true);
    FrameArrives(c, f, ENV, []);
    var d := Processed(c, f, ENV);
    var q := Queued(c, lost, id, f);
    FrameArrives(d, g, ENV, []);
    s1 := Processed(d, g, ENV);
    Lost(d, lost, id, q, g);
    forall more | CanRun(s1, more)
      ensures CanRun(s, Round(id) + more) && Run(s, Round(id) + more) == Run(s1, more)
    {
      var t4 := Arrives(g, ENV) + more;
      var t3 := Arrives(f, ENV) + t4;
      var t2 := [Turn(CompleteWrite(0, false), ENV)] + t3;
      var t1 := [Turn(CompleteConnect(0, false), ENV)] + t2;
      FrameArrives(d, g, ENV, more);
      FrameArrives(c, f, ENV, t4);
      Prepend(b, Turn(CompleteWrite(0, false), ENV), t3);
      Prepend(a, Turn(CompleteConnect(0, false), ENV), t2);
      FrameArrives(s, TCP_OPEN, ENV, t1);
      RoundIs(id, more);
    }
  }

  lemma BareFacts(s: State, lost: nat)
    requires Bare(s, lost)
    ensures s.open && s.reading && !s.isConnected && s.cur.None? && s.frameCount == lost
  {
  }

  lemma RoundIs(id: nat, more: seq<Turn>)
    ensures Round(id) + more ==
            Arrives(TCP_OPEN, ENV) + ([Turn(CompleteConnect(0, false), ENV)] + ([Turn(CompleteWrite(0, false), ENV)]
            + (Arrives(Frame(A_WRTE, 1, id, []), ENV) + (Arrives(Frame(A_CLSE, 1, id, []), ENV) + more))))
  {
    hide Arrives;
  }

  lemma {:induction false} LoseFrom(s: State, lost: nat, n: nat) returns (turns: seq<Turn>)
    requires Bare(s, lost) && lost <= n < FRAME_MAX && s.nextId == lost + 2 && n + 2 < WORD
    ensures CanRun(s, turns) && Bare(Run(s, turns), n)
    decreases n - lost
  {
    hide Bare;
    if lost == n {
      turns := [];
    } else {
      var s1 := LoseOne(s, lost);
      hide CanRun;
      hide Run;
      hide Round;
      var more := LoseFrom(s1, lost + 1, n);
      turns := Round(s.nextId) + more;
    }
  }

  // ---------- the sync service is opened ----------

  /** The client at the start, when the OPEN of a sync service has been read and acknowledged. */
  function Start(): State {
    var s := Processed(Init(), SYNC_OPEN, ENV);
    if |s.requests| == 1 then WriteDone(s, 0, false, true) else s
  }

  const PREPARE: seq<Turn> := Arrives(SYNC_OPEN, ENV) + [Turn(CompleteWrite(0, false), ENV)]

  lemma SyncOpens()
    requires Carries(Packed(Init(), SYNC_OPEN), Init(), SYNC_OPEN)
    ensures var s := Processed(Init(), SYNC_OPEN, ENV);
            && s.open && |s.requests| == 1 && s.requests[0].target == Transport && s.requests[0].packet.writeLen == 0
            && s.services == [SYNC] && s.frameCount == 1 && s.reading && s.cur.None? && !s.isConnected
            && s.nextId == 2 && s.leaked == multiset{}
  {
    Names(Packed(Init(), SYNC_OPEN), ENV);
    hide Packed;
    hide Encode;
    hide OpeningOf;
  }

  lemma Prepared(more: seq<Turn>)
    ensures Bare(Start(), 0) && Start().nextId == 2
    ensures CanRun(Start(), more) ==>
              CanRun(Init(), PREPARE + more) && Run(Init(), PREPARE + more) == Run(Start(), more)
  {
    hide CanRun;
    hide Run;
    hide Processed;
    hide Packed;
    hide Encode;
    hide Arrives;
    var s := Processed(Init(), SYNC_OPEN, ENV);
    FrameArrives(Init(), SYNC_OPEN, ENV, []);
    SyncOpens();
    assert Cut(s.requests, 0) == [];
    if CanRun(Start(), more) {
      Prepend(s, Turn(CompleteWrite(0, false), ENV), more);
      FrameArrives(Init(), SYNC_OPEN, ENV, [Turn(CompleteWrite(0, false), ENV)] + more);
      assert PREPARE + more == Arrives(SYNC_OPEN, ENV) + ([Turn(CompleteWrite(0, false), ENV)] + more);
    }
  }

  /** For every number below FRAME_MAX there is a run after which an open client, with its sync service still
      listed and nothing outstanding, has lost that many packets. */
  lemma PacketsAreLost(n: nat) returns (turns: seq<Turn>)
    requires n < FRAME_MAX && n + 2 < WORD
    ensures CanRun(Init(), turns) && Bare(Run(Init(), turns), n)
  {
    hide CanRun;
    hide Run;
    hide Bare;
    hide Start;
    Prepared([]);
    var more := LoseFrom(Start(), 0, n);
    Prepared(more);
    turns := PREPARE + more;
  }
}
