/** The daemon's per-client state machine as a function of its events: packet pool, frame
    reassembly, dispatch, service table and stream services. `Client` implements it. */
module ClientSpec {
  import opened Bytes
  import opened Frame

  type FrameLimit = n: nat | 1 <= n witness 4

  /** CONFIG_ADBD_FRAME_MAX, any positive number. */
  const FRAME_MAX: FrameLimit

  type BannerText = s: seq<byte> | |s| <= CNXN_PAYLOAD_SIZE witness []

  /** What adb_fill_connect_data puts in the CNXN answer. */
  const BANNER: BannerText

  // ---------- state ----------

  /** An `apacket`: header fields, the meaningful part of the data buffer, and the reply length. */
  datatype Packet = Packet(pid: nat, msg: Message, data: seq<byte>, writeLen: nat)

  /** enum stream_state. */
  datatype StreamState = ErrorClose | NotConnected | NotifyClient | Connected | WaitAck

  /** The part of a service that its callbacks own. `reading` is uv_is_active of its handle. */
  datatype Private =
    | Sync
    | Stream(state: StreamState, reading: bool)
    | Shell(waitAck: bool, reading: bool)

  /** `handle` is the id given at registration; `id` is what is put in frames. */
  datatype Service = Service(handle: nat, id: nat, peer: nat, priv: Private)

  datatype Target = Transport | Socket(handle: nat)

  /** A uv_write request that has not completed. */
  datatype Request = Request(target: Target, packet: Packet)

  /** The packet being received and the bytes received so far (`cur_packet`, `cur_len`). */
  datatype Incoming = Incoming(pid: nat, got: seq<byte>)

  /** What the sync service is asked to process: the data of a WRTE, or a READY. */
  datatype Asked = Data(bytes: seq<byte>) | Ready

  /** The history of a client. */
  datatype Entry =
    | Got(pid: nat, msg: Message, payload: seq<byte>)       // given to adb_process_packet
    | Offered(pid: nat, msg: Message, payload: seq<byte>)   // given to ops->write
    | Passed(pid: nat, handle: nat, payload: seq<byte>)     // left with a service, queued on its socket
    | Freed(pid: nat)
    | Fetched(handle: nat, bytes: seq<byte>)                // read from the socket or pipe of a service
    | Registered(handle: nat, peer: nat)
    | ConnectFailed(handle: nat)
    | Answered(handle: nat, asked: Asked, ok: bool, reply: seq<byte>) // by the sync service
    | Closed(handle: nat)

  datatype State = State(
    frameCount: int, nextPid: nat, cur: Option<Incoming>, isConnected: bool,
    reading: bool, open: bool, rejected: bool,
    nextId: nat, services: seq<Service>, requests: seq<Request>,
    leaked: multiset<nat>, rx: seq<byte>, log: seq<Entry>)

  /** How a one-service `open` ends: refused (perhaps with a one-shot reply) or a new service. */
  datatype Opening = Refused(reply: seq<byte>) | Opens(priv: Private)

  predicate IsOpening(o: Opening) {
    o.Opens? ==> o.priv == Sync || o.priv == Stream(NotConnected, false) || o.priv == Shell(false, true)
  }

  /** What the environment decides while one event is processed: does uv_write accept on the
      transport and on a service's socket, what does the sync service answer, and is an open refused
      (perhaps with a one-shot reply) although its name is known. */
  datatype Env = Env(writeOk: bool, socketOk: bool, syncOk: bool, reply: seq<byte>, refused: Option<seq<byte>>)

  function Init(): State {
    State(0, 0, None, false, true, true, false, 1, [], [], multiset{}, [], [])
  }

  // ---------- packet pool ----------

  function Log(s: State, e: Entry): State {
    s.(log := s.log + [e])
  }

  /** adb_uv_packet_allocate: refusing marks the pool with FRAME_MAX + 1. */
  function Allocate(s: State): (State, Option<nat>) {
    if s.frameCount >= FRAME_MAX then
      (s.(frameCount := FRAME_MAX + 1), None)
    else
      (s.(frameCount := s.frameCount + 1, nextPid := s.nextPid + 1), Some(s.nextPid))
  }

  /** A fresh packet. Its C counterpart is uninitialised: every field is set before it is read. */
  function Fresh(pid: nat): Packet {
    Packet(pid, Message(0, 0, 0, 0, 0, 0), [], 0)
  }

  /** adb_hal_apacket_release of the packet `pid`. */
  function Release(s: State, pid: nat, ok: bool): State {
    var s1 := Log(s, Freed(pid));
    if s.frameCount > FRAME_MAX then Kick(s1.(frameCount := FRAME_MAX - 1), ok)
    else s1.(frameCount := s.frameCount - 1)
  }

  // ---------- sending ----------

  function Payload(p: Packet): seq<byte> {
    p.data[..Min(p.msg.dataLength, |p.data|)]
  }

  /** send_frame: seal the header and offer the packet to the transport. */
  function SendFrame(s: State, p: Packet, ok: bool): State {
    var q := p.(msg := Seal(p.msg, Payload(p)));
    var s1 := Log(s, Offered(q.pid, q.msg, Payload(q)));
    if ok then s1.(requests := s1.requests + [Request(Transport, q)])
    else s1.(leaked := s1.leaked + multiset{q.pid}, open := false)
  }

  function Headed(p: Packet, command: nat, local: nat, remote: nat, dataLength: nat): Packet {
    p.(msg := p.msg.(command := command, arg0 := local, arg1 := remote, dataLength := dataLength))
  }

  function SendClose(s: State, p: Packet, local: nat, remote: nat, ok: bool): State {
    SendFrame(s, Headed(p, A_CLSE, local, remote, 0).(writeLen := 0), ok)
  }

  /** adb_send_okay_frame_with_data: the reply bytes, if any, follow when this write completes. */
  function SendOkayWithData(s: State, p: Packet, local: nat, remote: nat, ok: bool): State {
    SendFrame(s, Headed(p, A_OKAY, local, remote, 0), ok)
  }

  function SendOkay(s: State, p: Packet, local: nat, remote: nat, ok: bool): State {
    SendOkayWithData(s, p.(writeLen := 0), local, remote, ok)
  }

  function SendData(s: State, p: Packet, ok: bool): State {
    SendFrame(s, p.(msg := p.msg.(command := A_WRTE, dataLength := p.writeLen), writeLen := 0), ok)
  }

  function SendConnect(s: State, p: Packet, ok: bool): State {
    SendFrame(s, Headed(p, A_CNXN, A_VERSION, PAYLOAD_SIZE, |BANNER|).(data := BANNER), ok)
  }

  // ---------- service table ----------

  /** adb_client_find_service: the first service from position `i` on with this id (and peer, unless 0). */
  function FindFrom(ss: seq<Service>, i: nat, id: nat, peer: nat): (r: Option<nat>)
    ensures r.Some? ==> i <= r.value < |ss|
    decreases |ss| - i
  {
    if i >= |ss| then None
    else if ss[i].id == id && (peer == 0 || ss[i].peer == peer) then Some(i)
    else FindFrom(ss, i + 1, id, peer)
  }

  function Find(ss: seq<Service>, id: nat, peer: nat): (r: Option<nat>)
    ensures r.Some? ==> r.value < |ss|
  {
    FindFrom(ss, 0, id, peer)
  }

  function SetPrivate(s: State, k: nat, priv: Private): State
    requires k < |s.services|
  {
    s.(services := s.services[k := s.services[k].(priv := priv)])
  }

  function RegisterService(s: State, peer: nat, priv: Private): State {
    var v := Service(s.nextId, s.nextId, peer, priv);
    Log(s.(nextId := s.nextId + 1, services := [v] + s.services), Registered(v.handle, peer))
  }

  function NotFor(rs: seq<Request>, h: nat): seq<Request> {
    if rs == [] then []
    else NotFor(rs[..|rs| - 1], h) + (if rs[|rs| - 1].target == Socket(h) then [] else [rs[|rs| - 1]])
  }

  /** The pids of the packets still queued on the socket of service `h`. */
  function QueuedFor(rs: seq<Request>, h: nat): multiset<nat> {
    if rs == [] then multiset{}
    else
      var last := rs[|rs| - 1];
      QueuedFor(rs[..|rs| - 1], h) + (if last.target == Socket(h) then multiset{last.packet.pid} else multiset{})
  }

  /** on_close of the service h. The packets its socket still holds are never released:
      their write callbacks no longer find the service. */
  function Orphan(s: State, h: nat): State {
    Log(s.(requests := NotFor(s.requests, h), leaked := s.leaked + QueuedFor(s.requests, h)), Closed(h))
  }

  /** adb_service_close of the service at position k: unlink, tell the peer if a packet is at hand, on_close. */
  function CloseService(s: State, k: nat, p: Option<Packet>, ok: bool): (r: State)
    requires k < |s.services|
    ensures |r.services| == |s.services| - 1
  {
    var v := s.services[k];
    var s1 := s.(services := Cut(s.services, k));
    Orphan(if p.Some? then SendClose(s1, p.value, v.id, v.peer, ok) else s1, v.handle)
  }

  // ---------- kicks ----------

  function TryClose(s: State, k: nat, ok: bool): (r: State)
    requires k < |s.services|
    ensures |s.services| - 1 <= |r.services| <= |s.services|
  {
    var (s1, pid) := Allocate(s);
    if pid.None? then s1 else CloseService(s1, k, Some(Fresh(pid.value)), ok)
  }

  function TryConnect(s: State, k: nat, ok: bool): (r: State)
    requires k < |s.services|
    ensures |r.services| == |s.services|
  {
    var (s1, pid) := Allocate(s);
    if pid.None? then s1
    else
      var v := s.services[k];
      SendOkay(SetPrivate(s1, k, Stream(Connected, true)), Fresh(pid.value), v.id, v.peer, ok)
  }

  /** The on_kick callback of the service at position k. */
  function OnKick(s: State, k: nat, ok: bool): (r: State)
    requires k < |s.services|
    ensures |s.services| - 1 <= |r.services| <= |s.services|
  {
    match s.services[k].priv
    case Sync => s
    case Shell(waitAck, reading) => if waitAck then s else SetPrivate(s, k, Shell(waitAck, true))
    case Stream(state, reading) =>
      match state
      case NotConnected => s
      case WaitAck => s
      case Connected => SetPrivate(s, k, Stream(Connected, true))
      case NotifyClient => TryConnect(s, k, ok)
      case ErrorClose => TryClose(s, k, ok)
  }

  /** adb_client_kick_services from position k: a service that unlinks itself leaves its successor there. */
  function KickFrom(s: State, k: nat, ok: bool): State
    decreases |s.services| - k
  {
    if k >= |s.services| then s
    else
      var s1 := OnKick(s, k, ok);
      KickFrom(s1, if |s1.services| < |s.services| then k else k + 1, ok)
  }

  /** tcp_uv_kick. */
  function Kick(s: State, ok: bool): State {
    KickFrom(s.(reading := true), 0, ok)
  }

  // ---------- dispatch ----------

  const SYNC_NAME: seq<byte> := [115, 121, 110, 99, 58]
  const TCP_NAME: seq<byte> := [116, 99, 112, 58]
  const SHELL_NAME: seq<byte> := [115, 104, 101, 108, 108]

  /** The name in an OPEN: the last byte of the data is replaced by its terminator. */
  function ServiceName(p: Packet): seq<byte> {
    var data := Payload(p);
    if data == [] then [] else data[..|data| - 1]
  }

  /** adb_service_open. */
  function OpeningOf(p: Packet, env: Env): (o: Opening)
    ensures IsOpening(o)
  {
    var name := ServiceName(p);
    if env.refused.Some? then Refused(env.refused.value)
    else if SYNC_NAME <= name then Opens(Sync)
    else if TCP_NAME <= name then Opens(Stream(NotConnected, false))
    else if SHELL_NAME <= name then Opens(Shell(false, true))
    else Refused([])
  }

  function HandleOpen(s: State, p: Packet, env: Env): State {
    if p.msg.arg0 == 0 || p.msg.arg1 != 0 then Release(s, p.pid, env.writeOk)
    else
      match OpeningOf(p, env)
      case Refused(reply) =>
        if |reply| > 0 then
          SendOkayWithData(s.(nextId := s.nextId + 1), p.(data := reply, writeLen := |reply|),
                           s.nextId, p.msg.arg0, env.writeOk)
        else SendClose(s, p, 0, p.msg.arg0, env.writeOk)
      case Opens(priv) =>
        var s1 := RegisterService(s, p.msg.arg0, priv);
        if priv.Stream? then Release(s1, p.pid, env.writeOk)
        else SendOkayWithData(s1, p, s.nextId, p.msg.arg0, env.writeOk)
  }

  function HandleClose(s: State, p: Packet, env: Env): State {
    var k := Find(s.services, p.msg.arg1, p.msg.arg0);
    Release(if k.Some? then CloseService(s, k.value, None, env.writeOk) else s, p.pid, env.writeOk)
  }

  function QueueOnSocket(s: State, handle: nat, p: Packet): State {
    Log(s.(requests := s.requests + [Request(Socket(handle), p)]), Passed(p.pid, handle, Payload(p)))
  }

  /** A WRTE for the sync service at position k: closed after an error, or acknowledged with its reply. */
  function SyncWrite(s: State, k: nat, p: Packet, env: Env): State
    requires k < |s.services|
  {
    var v := s.services[k];
    var s1 := Log(s, Answered(v.handle, Data(Payload(p)), env.syncOk, env.reply));
    if !env.syncOk then CloseService(s1, k, Some(p), env.writeOk)
    else SendOkayWithData(s1, p.(data := env.reply, writeLen := |env.reply|), v.id, v.peer, env.writeOk)
  }

  /** A READY for the sync service at position k: closed after an error, or answered by its next message. */
  function SyncOkay(s: State, k: nat, p: Packet, env: Env): State
    requires k < |s.services|
  {
    var v := s.services[k];
    var s1 := Log(s, Answered(v.handle, Asked.Ready, env.syncOk, env.reply));
    if !env.syncOk then CloseService(s1, k, Some(p), env.writeOk)
    else if |env.reply| > 0 then SendData(s1, ReplyTo(p, v, env.reply), env.writeOk)
    else Release(s1, p.pid, env.writeOk)
  }

  function HandleWrite(s: State, p: Packet, env: Env): State {
    var k := Find(s.services, p.msg.arg1, p.msg.arg0);
    if k.None? then SendClose(s, p, p.msg.arg1, p.msg.arg0, env.writeOk)
    else
      var v := s.services[k.value];
      match v.priv
      case Sync => SyncWrite(s, k.value, p, env)
      case _ =>
        if !Accepts(v.priv) || !env.socketOk then
          CloseService(s, k.value, Some(p), env.writeOk)
        else QueueOnSocket(s, v.handle, p)
  }

  /** A stream takes WRTE frames only once it is connected (F_CONNECTED and above). */
  predicate Accepts(priv: Private) {
    priv.Stream? ==> priv.state == Connected || priv.state == WaitAck
  }

  /** The on_ack_frame callbacks of stream and shell services. */
  function Acked(priv: Private): Private {
    match priv
    case Sync => Sync
    case Stream(state, reading) => if state == WaitAck then Stream(Connected, true) else priv
    case Shell(waitAck, reading) => Shell(false, true)
  }

  /** `svc->peer_id` is learnt from the first READY if it is still 0. */
  function WithPeer(s: State, k: nat, peer: nat): (r: State)
    requires k < |s.services|
    ensures |r.services| == |s.services|
  {
    if s.services[k].peer == 0 then s.(services := s.services[k := s.services[k].(peer := peer)]) else s
  }

  /** The packet of a READY, with the next message of the sync service. */
  function ReplyTo(p: Packet, v: Service, reply: seq<byte>): Packet {
    p.(msg := p.msg.(arg0 := v.id, arg1 := v.peer), data := reply, writeLen := |reply|)
  }

  function HandleOkay(s: State, p: Packet, env: Env): State {
    var k := Find(s.services, p.msg.arg1, 0);
    if k.None? then SendClose(s, p, p.msg.arg1, p.msg.arg0, env.writeOk)
    else
      var s1 := WithPeer(s, k.value, p.msg.arg0);
      var v := s1.services[k.value];
      if v.priv.Sync? then SyncOkay(s1, k.value, p, env)
      else Release(SetPrivate(s1, k.value, Acked(v.priv)), p.pid, env.writeOk)
  }

  /** adb_process_packet. */
  function ProcessPacket(s: State, packet: Packet, env: Env): State {
    var p := packet.(writeLen := 0);
    var command := p.msg.command;
    if command == A_CNXN then SendConnect(s, p, env.writeOk).(isConnected := true)
    else if command == A_OPEN then HandleOpen(s, p, env)
    else if command == A_CLSE then HandleClose(s, p, env)
    else if command == A_WRTE then HandleWrite(s, p, env)
    else if command == A_OKAY then HandleOkay(s, p, env)
    else Release(s, p.pid, env.writeOk).(open := false)
  }

  // ---------- transport reader ----------

  /** adb_uv_allocate_frame. */
  function AllocateFrame(s: State): State {
    if s.cur.Some? then s
    else
      var (s1, pid) := Allocate(s);
      if pid.None? then s1 else s1.(cur := Some(Incoming(pid.value, [])))
  }

  /** The length of the buffer offered to the transport while a packet is incomplete. */
  function OfferedLength(got: seq<byte>): int {
    if |got| < HEADER_SIZE then HEADER_SIZE - |got|
    else HEADER_SIZE + ParseHeader(got).dataLength - |got|
  }

  predicate Complete(got: seq<byte>) {
    |got| >= HEADER_SIZE && |got| >= HEADER_SIZE + ParseHeader(got).dataLength
  }

  function PacketOf(pid: nat, got: seq<byte>): Packet
    requires Complete(got)
  {
    Packet(pid, ParseHeader(got), got[HEADER_SIZE..], 0)
  }

  /** adb_uv_on_data_available for `chunk` just read into the current packet. */
  function OnData(s: State, chunk: seq<byte>, env: Env): State
    requires s.cur.Some?
  {
    var before := s.cur.value.got;
    var got := before + chunk;
    var s1 := s.(rx := s.rx + chunk);
    if |before| < HEADER_SIZE <= |got| && !HeaderOk(s.isConnected, ParseHeader(got)) then
      s1.(open := false, rejected := true)
    else
      var s2 := s1.(cur := Some(s.cur.value.(got := got)));
      if !Complete(got) then s2
      else if !DataOk(ParseHeader(got), got[HEADER_SIZE..]) then s2.(open := false, rejected := true)
      else
        var p := PacketOf(s.cur.value.pid, got);
        ProcessPacket(Log(s2.(cur := None), Got(p.pid, p.msg, p.data)), p, env)
  }

  /** One turn of libuv on the readable transport: `avail` is what the peer has sent and not yet been read. */
  function TransportRead(s: State, avail: seq<byte>, env: Env): State {
    var s1 := AllocateFrame(s);
    if s1.cur.None? then s1.(reading := false)
    else
      var n := Min(|avail|, OfferedLength(s1.cur.value.got));
      if n > 0 then OnData(s1, avail[..n], env)
      else if |s1.cur.value.got| <= 0 then Release(s1.(cur := None), s1.cur.value.pid, env.writeOk)
      else s1
  }

  function TransportError(s: State): State {
    var s1 := AllocateFrame(s);
    if s1.cur.None? then s1.(reading := false) else s1.(open := false)
  }

  // ---------- service sockets ----------

  /** tcp_stream_on_data_cb. */
  function OnStreamData(s: State, k: nat, p: Packet, ok: bool): State
    requires k < |s.services|
  {
    var v := s.services[k];
    if !(v.priv.Stream? && v.priv.state == Connected) || p.msg.dataLength <= 0 then
      CloseService(s, k, Some(p), ok)
    else
      SendData(SetPrivate(s, k, Stream(WaitAck, false)),
               p.(msg := p.msg.(arg0 := v.id, arg1 := v.peer), writeLen := p.msg.dataLength), ok)
  }

  function Filled(pid: nat, bytes: seq<byte>): Packet {
    Fresh(pid).(msg := Message(0, 0, 0, |bytes|, 0, 0), data := bytes)
  }

  function Readable(avail: seq<byte>): seq<byte> {
    avail[..Min(|avail|, PAYLOAD_SIZE)]
  }

  /** tcp_stream_allocate_frame, then tcp_stream_on_data_available. */
  function StreamRead(s: State, k: nat, avail: seq<byte>, failed: bool, ok: bool): State
    requires k < |s.services| && s.services[k].priv.Stream?
  {
    var state := s.services[k].priv.state;
    var (s1, pid) := Allocate(s);
    var bytes := Readable(avail);
    if pid.None? then SetPrivate(s1, k, Stream(state, false))
    else if failed then OnStreamData(s1, k, Filled(pid.value, []), ok)
    else if bytes == [] then Release(s1, pid.value, ok)
    else
      var s2 := Log(s1, Fetched(s.services[k].handle, bytes));
      OnStreamData(SetPrivate(s2, k, Stream(state, false)), k, Filled(pid.value, bytes), ok)
  }

  /** alloc_buffer, then pipe_on_data_available. */
  function ShellRead(s: State, k: nat, avail: seq<byte>, failed: bool, ok: bool): State
    requires k < |s.services| && s.services[k].priv.Shell?
  {
    var v := s.services[k];
    var (s1, pid) := Allocate(s);
    var bytes := Readable(avail);
    if pid.None? then SetPrivate(s1, k, Shell(v.priv.waitAck, false))
    else if failed || bytes == [] then CloseService(s1, k, Some(Fresh(pid.value)), ok)
    else
      var s2, p := Log(s1, Fetched(v.handle, bytes)), Filled(pid.value, bytes);
      SendData(SetPrivate(s2, k, Shell(true, false)),
               p.(msg := p.msg.(arg0 := v.id, arg1 := v.peer), writeLen := |bytes|), ok)
  }

  /** A readable (or failed) socket of a stream or shell service: allocate, then the read callback. */
  function ServiceRead(s: State, k: nat, avail: seq<byte>, failed: bool, ok: bool): State
    requires k < |s.services| && !s.services[k].priv.Sync?
  {
    if s.services[k].priv.Stream? then StreamRead(s, k, avail, failed, ok) else ShellRead(s, k, avail, failed, ok)
  }

  /** The stream gives up its id and waits to tell the peer. */
  function ConnectFails(s: State, k: nat): (r: State)
    requires k < |s.services| && s.services[k].priv.Stream?
    ensures |r.services| == |s.services|
  {
    var v := s.services[k];
    var w := v.(id := 0, priv := Stream(ErrorClose, v.priv.reading));
    Log(s.(services := s.services[k := w]), ConnectFailed(v.handle))
  }

  /** tcp_stream_on_connect_cb. */
  function ConnectDone(s: State, k: nat, failed: bool, ok: bool): State
    requires k < |s.services| && s.services[k].priv.Stream?
  {
    var v := s.services[k];
    if failed || v.priv.state != NotConnected then
      TryClose(ConnectFails(s, k), k, ok)
    else
      TryConnect(SetPrivate(s, k, Stream(NotifyClient, v.priv.reading)), k, ok)
  }

  /** The position of the service whose socket a request belongs to. */
  function OwnerFrom(ss: seq<Service>, i: nat, h: nat): (r: Option<nat>)
    ensures r.Some? ==> i <= r.value < |ss| && ss[r.value].handle == h
    ensures r.None? ==> forall j :: i <= j < |ss| ==> ss[j].handle != h
    decreases |ss| - i
  {
    if i >= |ss| then None else if ss[i].handle == h then Some(i) else OwnerFrom(ss, i + 1, h)
  }

  /** Completion of request i: adb_uv_after_write, or the write callback of the service that owns the socket. */
  function WriteDone(s: State, i: nat, failed: bool, ok: bool): State
    requires i < |s.requests|
  {
    var r := s.requests[i];
    var p := r.packet;
    var s1 := s.(requests := Cut(s.requests, i));
    match r.target
    case Transport =>
      if failed then Release(s1, p.pid, ok).(open := false)
      else if p.writeLen > 0 then SendData(s1, p, ok)
      else Release(s1, p.pid, ok)
    case Socket(h) =>
      var k := OwnerFrom(s.services, 0, h);
      if k.None? then s1.(leaked := s1.leaked + multiset{p.pid})
      else if failed then CloseService(s1, k.value, Some(p), ok)
      else SendOkay(s1, p, s.services[k.value].id, s.services[k.value].peer, ok)
  }

  /** adb_destroy_client: every service still in the table is closed, head first. */
  function DestroyServices(s: State): State
    decreases |s.services|
  {
    if |s.services| == 0 then s else DestroyServices(CloseService(s, 0, None, true))
  }

  // ---------- events and runs ----------

  datatype Event =
    | ReadTransport(avail: seq<byte>)
    | FailTransport
    | CompleteWrite(i: nat, failed: bool)
    | CompleteConnect(k: nat, failed: bool)
    | ReadService(k: nat, avail: seq<byte>, failed: bool)

  /** libuv calls back only for active readers, outstanding requests and pending connects of an open client. */
  predicate Enabled(s: State, e: Event) {
    && s.open
    && match e
       case ReadTransport(_) => s.reading
       case FailTransport => s.reading
       case CompleteWrite(i, _) => i < |s.requests|
       case CompleteConnect(k, _) =>
         k < |s.services| && s.services[k].priv.Stream? && s.services[k].priv.state == NotConnected
       case ReadService(k, _, _) =>
         k < |s.services| && !s.services[k].priv.Sync? && s.services[k].priv.reading
  }

  predicate IsEnv(env: Env) {
    |env.reply| <= PAYLOAD_SIZE
  }

  function Step(s: State, e: Event, env: Env): State
    requires Enabled(s, e)
  {
    match e
    case ReadTransport(avail) => TransportRead(s, avail, env)
    case FailTransport => TransportError(s)
    case CompleteWrite(i, failed) => WriteDone(s, i, failed, env.writeOk)
    case CompleteConnect(k, failed) => ConnectDone(s, k, failed, env.writeOk)
    case ReadService(k, avail, failed) => ServiceRead(s, k, avail, failed, env.writeOk)
  }

  datatype Turn = Turn(event: Event, env: Env)

  predicate CanRun(s: State, turns: seq<Turn>)
    decreases |turns|
  {
    turns == [] ||
    (Enabled(s, turns[0].event) && IsEnv(turns[0].env) && CanRun(Step(s, turns[0].event, turns[0].env), turns[1..]))
  }

  /** The state after a run. */
  function Run(s: State, turns: seq<Turn>): State
    requires CanRun(s, turns)
    decreases |turns|
  {
    if turns == [] then s else Run(Step(s, turns[0].event, turns[0].env), turns[1..])
  }
}
