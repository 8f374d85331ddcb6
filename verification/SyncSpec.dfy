/** The file sync service as a function of its input: one step of the frame loop, whole frames,
    acknowledgements and close. `FileSync` implements it on its buffers. */
module SyncSpec {
  import opened Bytes
  import opened Frame
  import opened SyncWorld

  const PATH_MAX: nat := 4096

  function Id(a: char, b: char, c: char, d: char): nat {
    a as nat + 0x100 * (b as nat) + 0x1_0000 * (c as nat) + 0x100_0000 * (d as nat)
  }

  const ID_STAT: nat := Id('S', 'T', 'A', 'T')
  const ID_LIST: nat := Id('L', 'I', 'S', 'T')
  const ID_SEND: nat := Id('S', 'E', 'N', 'D')
  const ID_RECV: nat := Id('R', 'E', 'C', 'V')
  const ID_DENT: nat := Id('D', 'E', 'N', 'T')
  const ID_DONE: nat := Id('D', 'O', 'N', 'E')
  const ID_DATA: nat := Id('D', 'A', 'T', 'A')
  const ID_OKAY: nat := Id('O', 'K', 'A', 'Y')
  const ID_FAIL: nat := Id('F', 'A', 'I', 'L')
  const ID_QUIT: nat := Id('Q', 'U', 'I', 'T')

  // ---------- messages ----------

  /** An id, a length and the bytes: DATA, FAIL, and with no bytes OKAY and DONE. */
  function DataMsg(id: nat, bytes: seq<byte>): (r: seq<byte>)
    ensures |r| == 8 + |bytes|
  {
    LE32(id) + LE32(|bytes|) + bytes
  }

  function StatMsg(m: Meta): (r: seq<byte>)
    ensures |r| == 16
  {
    LE32(ID_STAT) + LE32(m.mode) + LE32(m.size) + LE32(m.time)
  }

  function DentMsg(id: nat, m: Meta, name: Path): (r: seq<byte>)
    ensures |r| == 20 + |name|
  {
    LE32(id) + LE32(m.mode) + LE32(m.size) + LE32(m.time) + LE32(|name|) + name
  }

  const NO_META := Meta(0, 0, 0)

  /** What is left of the payload behind `used` bytes of replies and the fixed part of one more. */
  function Room(used: nat, head: nat): (r: nat)
    ensures used + head <= PAYLOAD_SIZE ==> used + head + r == PAYLOAD_SIZE
  {
    if used + head <= PAYLOAD_SIZE then PAYLOAD_SIZE - used - head else 0
  }

  /** prepare_fail_message: the reason is cut to what the payload has room for. */
  function FailMsg(reason: seq<byte>, used: nat): (r: seq<byte>)
    ensures |r| >= 8
    ensures used + 8 <= PAYLOAD_SIZE ==> used + |r| <= PAYLOAD_SIZE
  {
    DataMsg(ID_FAIL, reason[..Min(|reason|, Room(used, 8))])
  }

  function Ascii(s: string): seq<byte> {
    seq(|s|, i requires 0 <= i < |s| => s[i] as int % 0x100)
  }

  // ---------- state ----------

  /** The state together with the union member that belongs to it. */
  datatype Phase =
    | WaitCmd
    | WaitCmdData
    | Recv(fd: nat)
    | Listing(d: nat, mem: nat, path: Path)
    | SendFileHdr(fd: nat)
    | SendFileData(fd: nat)
    | SendSymHdr(mem: nat, path: Path)
    | SendSymData(mem: nat, path: Path)

  /** `buf` holds the bytes of a partial header or name (`buff[..size]`). */
  datatype Afs = Afs(phase: Phase, cmd: nat, namelen: nat, buf: seq<byte>)

  function Idle(cmd: nat, namelen: nat): Afs {
    Afs(WaitCmd, cmd, namelen, [])
  }

  predicate InData(p: Phase) {
    p.WaitCmdData? || p.SendFileData? || p.SendSymData?
  }

  predicate InHeader(p: Phase) {
    p.WaitCmd? || p.SendFileHdr? || p.SendSymHdr?
  }

  /** A header phase has buffered fewer than 8 bytes, a name or target less than all of it. */
  predicate Ready(a: Afs) {
    && (InHeader(a.phase) ==> |a.buf| < 8)
    && (a.phase.WaitCmdData? ==> a.namelen < PATH_MAX && (|a.buf| < a.namelen || a.buf == []))
    && (a.phase.SendSymData? ==> (|a.buf| < a.namelen && a.namelen <= PATH_MAX) || a.buf == [])
    && (a.phase.SendFileData? || a.phase.Recv? || a.phase.Listing? ==> a.buf == [])
  }

  /** What one handler leaves: the service, the world, the input not consumed, the reply and `ret`. */
  datatype Outcome = Outcome(afs: Afs, w: World, rest: seq<byte>, reply: seq<byte>, ret: int)

  // ---------- helpers ----------

  datatype Gathered = Invalid | Again(buf: seq<byte>) | Whole(bytes: seq<byte>, rest: seq<byte>)

  /** read_from_packet. */
  function Gather(buf: seq<byte>, size: nat, input: seq<byte>): Gathered {
    if |buf| > size || size > PATH_MAX then Invalid
    else if |input| < size - |buf| then Again(buf + input)
    else Whole(buf + input[..size - |buf|], input[size - |buf|..])
  }

  /** The C string at the start of a buffer. */
  function CString(s: seq<byte>): Path {
    if s == [] || s[0] == 0 then [] else [s[0]] + CString(s[1..])
  }

  const SLASH: byte := 47
  const COMMA: byte := 44

  function LastComma(s: seq<byte>): (r: Option<nat>)
    ensures r.Some? ==> r.value < |s| && s[r.value] == COMMA && forall i :: r.value < i < |s| ==> s[i] != COMMA
    ensures r.None? ==> COMMA !in s
  {
    if s == [] then None
    else if s[|s| - 1] == COMMA then Some(|s| - 1)
    else LastComma(s[..|s| - 1])
  }

  /** create_path_directories from the slash search at position i on. */
  function MakeParents(w: World, path: Path, i: nat): (World, bool)
    decreases |path| - i
  {
    if i >= |path| then (w, true)
    else if path[i] == SLASH then
      var (w1, made) := Mkdir(w, path[..i]);
      if made == Refused then (w1, false) else MakeParents(w1, path, i + 1)
    else MakeParents(w, path, i + 1)
  }

  function Parents(w: World, path: Path): (World, bool) {
    if path == [] || path[0] != SLASH then (w, false) else MakeParents(w, path, 1)
  }

  /** state_reset: release what the phase holds. */
  function Release(p: Phase, w: World): World {
    match p
    case Recv(fd) => Drop(w, fd)
    case Listing(d, mem, _) => Drop(Drop(w, mem), d)
    case SendFileHdr(fd) => Drop(w, fd)
    case SendFileData(fd) => Drop(w, fd)
    case SendSymHdr(mem, _) => Drop(w, mem)
    case SendSymData(mem, _) => Drop(w, mem)
    case _ => w
  }

  function Reset(a: Afs, w: World): (Afs, World) {
    (a.(phase := WaitCmd, buf := []), Release(a.phase, w))
  }

  // ---------- handlers: `used` is `write_len`, the length of the replies already in the packet ----------

  function WaitCmdStep(a: Afs, w: World, input: seq<byte>): Outcome {
    match Gather(a.buf, 8, input)
    case Invalid => Outcome(a.(buf := []), w, input, [], -1)
    case Again(buf) => Outcome(a.(buf := buf), w, [], [], 1)
    case Whole(bytes, rest) => Requested(a.(buf := []), w, rest, Word(bytes[0..4]), Word(bytes[4..8]))
  }

  /** A command header has arrived in full. */
  function Requested(a: Afs, w: World, rest: seq<byte>, id: nat, namelen: nat): Outcome {
    if id == ID_QUIT || namelen >= PATH_MAX then Outcome(a, w, rest, [], -1)
    else Outcome(a.(phase := WaitCmdData, cmd := id, namelen := namelen), w, rest, [], 1)
  }

  function InitStat(a: Afs, w: World, rest: seq<byte>, path: Path): Outcome {
    var (w1, m) := Stat(w, path);
    if m.Some? then Outcome(a.(phase := WaitCmd), w1, rest, StatMsg(m.value), 1)
    else Outcome(a, w1, rest, StatMsg(NO_META), 0)
  }

  /** state_process_list: one DENT, its name cut to the space in the payload, or DONE. */
  function ListStep(a: Afs, w: World, rest: seq<byte>, used: nat): Outcome
    requires a.phase.Listing?
  {
    var (w1, name) := ReadDir(w, a.phase.d);
    if name.None? then Outcome(a, w1, rest, DentMsg(ID_DONE, NO_META, []), 0)
    else if |name.value| >= PATH_MAX - (|a.phase.path| + 1) then
      Outcome(a, w1, rest, DentMsg(ID_DENT, NO_META, CutName(name.value, used)), 1)
    else
      var (w2, m) := Lstat(w1, a.phase.path + [SLASH] + name.value);
      Outcome(a, w2, rest, DentMsg(ID_DENT, if m.Some? then m.value else NO_META, CutName(name.value, used)), 1)
  }

  function CutName(name: Path, used: nat): Path {
    name[..Min(|name|, Room(used, 20))]
  }

  function InitList(a: Afs, w: World, rest: seq<byte>, path: Path, used: nat): Outcome {
    if |path| >= PATH_MAX - 3 then Outcome(a, w, rest, DentMsg(ID_DONE, NO_META, []), 0)
    else
      var (w1, mem) := (Acquire(w, Block), w.next);
      var (w2, d) := OpenDir(w1, path);
      if d.None? then Outcome(a, Drop(w2, mem), rest, DentMsg(ID_DONE, NO_META, []), 0)
      else ListStep(a.(phase := Listing(d.value, mem, path)), w2, rest, used)
  }

  function InitSend(a: Afs, w: World, rest: seq<byte>, name: Path, used: nat): Outcome {
    var comma := LastComma(name);
    var path := if comma.Some? then name[..comma.value] else name;
    var isLink := comma.Some? && w.env.isLink(name[comma.value + 1..]);
    var (w1, ok) := Parents(Unlink(w, path), path);
    if !ok then Outcome(a, w1, rest, FailMsg(w1.env.reason(w1.turn), used), 0)
    else if isLink then InitSendLink(a, w1, rest, path, used)
    else InitSendFile(a, w1, rest, path, used)
  }

  function InitSendFile(a: Afs, w: World, rest: seq<byte>, path: Path, used: nat): Outcome {
    var (w1, fd) := OpenWrite(w, path);
    if fd.None? then Outcome(a, w1, rest, FailMsg(w1.env.reason(w1.turn), used), 0)
    else Outcome(a.(phase := SendFileHdr(fd.value)), w1, rest, [], 1)
  }

  function InitSendLink(a: Afs, w: World, rest: seq<byte>, path: Path, used: nat): Outcome {
    if |path| >= PATH_MAX then Outcome(a, w, rest, FailMsg(Ascii("path too long"), used), 0)
    else Outcome(a.(phase := SendSymHdr(w.next, path)), Acquire(w, Block), rest, [], 1)
  }

  /** state_process_recv: one DATA message of at most a payload, or DONE, or FAIL. */
  function RecvStep(a: Afs, w: World, rest: seq<byte>, used: nat): Outcome
    requires a.phase.Recv?
  {
    var (w1, chunk) := Read(w, a.phase.fd, Room(used, 8));
    match chunk
    case Bytes(bytes) => Outcome(a, w1, rest, DataMsg(ID_DATA, bytes), 1)
    case Eof => Outcome(a, w1, rest, DataMsg(ID_DONE, []), 0)
    case Broken => Outcome(a, w1, rest, FailMsg(Ascii("read failed"), used), 0)
  }

  function InitRecv(a: Afs, w: World, rest: seq<byte>, path: Path, used: nat): Outcome {
    var (w1, fd) := OpenRead(w, path);
    if fd.None? then Outcome(a, w1, rest, FailMsg(Ascii("file does not exist"), used), 0)
    else RecvStep(a.(phase := Recv(fd.value)), w1, rest, used)
  }

  function Command(a: Afs, w: World, rest: seq<byte>, name: Path, used: nat): Outcome {
    if a.cmd == ID_STAT then InitStat(a, w, rest, name)
    else if a.cmd == ID_LIST then InitList(a, w, rest, name, used)
    else if a.cmd == ID_SEND then InitSend(a, w, rest, name, used)
    else if a.cmd == ID_RECV then InitRecv(a, w, rest, name, used)
    else if a.cmd == ID_QUIT then Outcome(a, w, rest, [], 0)
    else Outcome(a, w, rest, [], -1)
  }

  function WaitCmdDataStep(a: Afs, w: World, input: seq<byte>, used: nat): Outcome {
    match Gather(a.buf, a.namelen, input)
    case Invalid => Outcome(a.(buf := []), w, input, [], -1)
    case Again(buf) => Outcome(a.(buf := buf), w, [], [], 1)
    case Whole(bytes, rest) =>
      if a.namelen >= PATH_MAX then Outcome(a.(buf := []), w, rest, [], -1)
      else Command(a.(buf := []), w, rest, CString(bytes), used)
  }

  /** state += 1 in a header phase, state -= 1 in a data phase. */
  function Up(p: Phase): Phase {
    match p
    case SendFileHdr(fd) => SendFileData(fd)
    case SendSymHdr(mem, path) => SendSymData(mem, path)
    case _ => p
  }

  function Down(p: Phase): Phase {
    match p
    case SendFileData(fd) => SendFileHdr(fd)
    case SendSymData(mem, path) => SendSymHdr(mem, path)
    case _ => p
  }

  function HeaderStep(a: Afs, w: World, input: seq<byte>, used: nat): Outcome {
    match Gather(a.buf, 8, input)
    case Invalid => Outcome(a.(buf := []), w, input, FailMsg(Ascii("read error"), used), 0)
    case Again(buf) => Outcome(a.(buf := buf), w, [], [], 1)
    case Whole(bytes, rest) => Header(a.(buf := []), w, rest, Word(bytes[0..4]), Word(bytes[4..8]), used)
  }

  /** A DATA or DONE header has arrived in full. */
  function Header(a: Afs, w: World, rest: seq<byte>, id: nat, length: nat, used: nat): Outcome {
    if id == ID_DONE then Outcome(a, w, rest, DataMsg(ID_OKAY, []), 0)
    else if id != ID_DATA then Outcome(a, w, rest, FailMsg(Ascii("invalid data message"), used), 0)
    else Outcome(a.(phase := Up(a.phase), namelen := length), w, rest, [], 1)
  }

  function SendFileStep(a: Afs, w: World, input: seq<byte>, used: nat): Outcome
    requires a.phase.SendFileData?
  {
    var n := Min(|input|, a.namelen);
    var b := a.(namelen := a.namelen - n);
    var (w1, ok) := WriteAll(w, a.phase.fd, input[..n]);
    if !ok then Outcome(b, w1, input[n..], FailMsg(Ascii("write error"), used), 0)
    else Outcome(if b.namelen == 0 then b.(phase := Down(b.phase)) else b, w1, input[n..], [], 1)
  }

  function SendSymStep(a: Afs, w: World, input: seq<byte>, used: nat): Outcome
    requires a.phase.SendSymData?
  {
    if !w.env.symlinks then Outcome(a, w, input, [], -1)
    else
      match Gather(a.buf, a.namelen, input)
      case Invalid => Outcome(a.(buf := []), w, input, FailMsg(Ascii("read error"), used), 0)
      case Again(buf) => Outcome(a.(buf := buf), w, [], [], 1)
      case Whole(bytes, rest) =>
        Linked(a.(buf := []), w, rest, CString(bytes), used)
  }

  /** The target of a symlink has arrived in full. */
  function Linked(a: Afs, w: World, rest: seq<byte>, target: seq<byte>, used: nat): Outcome
    requires a.phase.SendSymData?
  {
    if a.namelen >= PATH_MAX then Outcome(a, w, rest, FailMsg(Ascii("symlink target too long"), used), 0)
    else
      var (w1, ok) := Symlink(w, target, a.phase.path);
      if !ok then Outcome(a, w1, rest, FailMsg(Ascii("symlink call failed"), used), 0)
      else Outcome(a.(phase := Down(a.phase)), w1, rest, [], 1)
  }

  // ---------- the frame loop ----------

  function Dispatch(a: Afs, w: World, input: seq<byte>, used: nat): Outcome {
    match a.phase
    case WaitCmd => WaitCmdStep(a, w, input)
    case WaitCmdData => WaitCmdDataStep(a, w, input, used)
    case SendFileHdr(_) => HeaderStep(a, w, input, used)
    case SendSymHdr(_, _) => HeaderStep(a, w, input, used)
    case SendFileData(_) => SendFileStep(a, w, input, used)
    case SendSymData(_, _) => SendSymStep(a, w, input, used)
    case _ => Outcome(a, w, input, [], -1)
  }

  function Settle(o: Outcome): Outcome {
    if o.ret <= 0 then
      var (a, w) := Reset(o.afs, o.w);
      o.(afs := a, w := w)
    else o
  }

  /** What the loop has left to do: twice the input, plus one in a data phase. */
  function Measure(a: Afs, input: seq<byte>): nat {
    2 * |input| + (if InData(a.phase) then 1 else 0)
  }

  /** A command leaves its service idle, in a header phase, or streaming, with nothing buffered. */
  lemma CommandProgress(a: Afs, w: World, rest: seq<byte>, name: Path, used: nat)
    requires a.buf == []
    ensures var o := Command(a, w, rest, name, used);
            o.rest == rest && (o.ret > 0 ==> Ready(o.afs) && !InData(o.afs.phase))
  {
    hide FailMsg;
    hide StatMsg;
    hide DentMsg;
    hide DataMsg;
    hide Parents;
    hide Read;
    hide ReadDir;
    if a.cmd == ID_SEND {
      hide OpenWrite;
    }
  }

  lemma HeaderProgress(a: Afs, w: World, input: seq<byte>, used: nat)
    requires Ready(a) && InHeader(a.phase) && input != []
    ensures var o := HeaderStep(a, w, input, used);
            && |o.rest| <= |input|
            && (o.ret > 0 ==> Ready(o.afs) && Measure(o.afs, o.rest) < Measure(a, input))
  {
    hide FailMsg;
    hide DataMsg;
    hide Ascii;
    hide Word;
  }

  lemma NameProgress(a: Afs, w: World, input: seq<byte>, used: nat)
    requires Ready(a) && a.phase.WaitCmdData? && input != []
    ensures var o := WaitCmdDataStep(a, w, input, used);
            && |o.rest| <= |input|
            && (o.ret > 0 ==> Ready(o.afs) && Measure(o.afs, o.rest) < Measure(a, input))
  {
    hide Command;
    hide CString;
    var g := Gather(a.buf, a.namelen, input);
    if g.Whole? {
      CommandProgress(a.(buf := []), w, g.rest, CString(g.bytes), used);
    }
  }

  lemma RequestProgress(a: Afs, w: World, input: seq<byte>)
    requires Ready(a) && a.phase.WaitCmd? && input != []
    ensures var o := WaitCmdStep(a, w, input);
            && |o.rest| <= |input|
            && (o.ret > 0 ==> Ready(o.afs) && Measure(o.afs, o.rest) < Measure(a, input))
  {
    hide Word;
  }

  lemma BlockProgress(a: Afs, w: World, input: seq<byte>, used: nat)
    requires Ready(a) && a.phase.SendFileData? && input != []
    ensures var o := SendFileStep(a, w, input, used);
            && |o.rest| <= |input|
            && (o.ret > 0 ==> Ready(o.afs) && Measure(o.afs, o.rest) < Measure(a, input))
  {
    hide FailMsg;
    hide Ascii;
    hide WriteAll;
  }

  lemma TargetProgress(a: Afs, w: World, input: seq<byte>, used: nat)
    requires Ready(a) && a.phase.SendSymData? && input != []
    ensures var o := SendSymStep(a, w, input, used);
            && |o.rest| <= |input|
            && (o.ret > 0 ==> Ready(o.afs) && Measure(o.afs, o.rest) < Measure(a, input))
  {
    hide FailMsg;
    hide Ascii;
    hide CString;
    hide Symlink;
  }

  lemma HandleProgress(a: Afs, w: World, input: seq<byte>, used: nat)
    requires Ready(a) && input != []
    ensures var o := Dispatch(a, w, input, used);
            && |o.rest| <= |input|
            && (o.ret > 0 ==> Ready(o.afs) && Measure(o.afs, o.rest) < Measure(a, input))
  {
    hide WaitCmdStep;
    hide WaitCmdDataStep;
    hide HeaderStep;
    hide SendFileStep;
    hide SendSymStep;
    hide Ready;
    hide Measure;
    match a.phase
    case WaitCmd => RequestProgress(a, w, input);
    case WaitCmdData => NameProgress(a, w, input, used);
    case SendFileHdr(_) => HeaderProgress(a, w, input, used);
    case SendSymHdr(_, _) => HeaderProgress(a, w, input, used);
    case SendFileData(_) => BlockProgress(a, w, input, used);
    case SendSymData(_, _) => TargetProgress(a, w, input, used);
    case _ =>
  }

  /** One iteration of the loop of file_sync_on_write. Whatever the input, it makes progress or ends
      the loop, and it leaves the buffered bytes within bounds. */
  function Step(a: Afs, w: World, input: seq<byte>, used: nat): (o: Outcome)
    requires Ready(a) && input != []
    ensures Ready(o.afs) && |o.rest| <= |input|
    ensures o.ret >= 0 ==> Measure(o.afs, o.rest) < Measure(a, input)
  {
    HandleProgress(a, w, input, used);
    hide Dispatch;
    Settle(Dispatch(a, w, input, used))
  }

  /** Replies are stored at the start of the packet's data. Where they reach past the read position `at`,
      they replace input that has not been read. */
  function Overlay(rest: seq<byte>, at: nat, reply: seq<byte>): (r: seq<byte>)
    ensures |r| == |rest|
  {
    if |reply| <= at then rest
    else
      var n := Min(|rest|, |reply| - at);
      reply[at..at + n] + rest[n..]
  }

  /** What a callback leaves: the service, the world, the replies in the packet and the result. */
  datatype Fed = Fed(afs: Afs, w: World, reply: seq<byte>, ret: int)

  /** The loop of file_sync_on_write in the packet's own data: `input` is unread, it ends at `end`, and the
      data starts with `reply`. It is the source's loop as long as the replies fit the packet. */
  function Loop(a: Afs, w: World, end: nat, input: seq<byte>, reply: seq<byte>): (f: Fed)
    requires Ready(a) && |input| <= end
    ensures Ready(f.afs) && f.ret <= 0 && reply <= f.reply
    decreases Measure(a, input)
  {
    if input == [] then Fed(a, w, reply, 0)
    else
      var o := Step(a, w, input, |reply|);
      var all := reply + o.reply;
      if o.ret < 0 then Fed(o.afs, o.w, all, o.ret)
      else Loop(o.afs, o.w, end, Overlay(o.rest, end - |o.rest|, all), all)
  }

  /** file_sync_on_write on a frame holding `input`. */
  function Feed(a: Afs, w: World, input: seq<byte>): (f: Fed)
    requires Ready(a)
    ensures Ready(f.afs) && f.ret <= 0
  {
    Loop(a, w, |input|, input, [])
  }

  /** The frame up to its first answer or failure, or all of it. */
  function Quiet(a: Afs, w: World, input: seq<byte>): (o: Outcome)
    requires Ready(a)
    ensures Ready(o.afs) && |o.rest| <= |input|
    ensures o.reply == [] && o.ret >= 0 ==> o.rest == []
    decreases Measure(a, input)
  {
    if input == [] then Outcome(a, w, [], [], 1)
    else
      var o := Step(a, w, input, 0);
      if o.reply != [] || o.ret < 0 then o else Quiet(o.afs, o.w, o.rest)
  }

  /** file_sync_on_ack. */
  function Ack(a: Afs, w: World): (f: Fed)
    ensures Ready(a) ==> Ready(f.afs)
  {
    var o := match a.phase
             case Recv(_) => RecvStep(a, w, [], 0)
             case Listing(_, _, _) => ListStep(a, w, [], 0)
             case SendFileHdr(_) => Outcome(a, w, [], [], 0)
             case SendSymHdr(_, _) => Outcome(a, w, [], [], 0)
             case WaitCmd => Outcome(a, w, [], [], 0)
             case _ => Outcome(a, w, [], [], -1);
    if o.ret > 0 then Fed(o.afs, o.w, o.reply, 0)
    else
      var (b, w1) := Reset(o.afs, o.w);
      Fed(b, w1, o.reply, o.ret)
  }

  /** What a host does: it sends a piece of its bytes in a frame, or acknowledges a message. */
  datatype HostEvent = Piece(bytes: seq<byte>) | Acked

  function React(a: Afs, w: World, e: HostEvent): (f: Fed)
    requires Ready(a)
    ensures Ready(f.afs)
  {
    match e
    case Piece(bytes) => Feed(a, w, bytes)
    case Acked => Ack(a, w)
  }
}
