/** The file sync service as the source keeps it: a state number, a union, a buffer for partial input
    and replies written into the packet that brought the request. Each handler is proved against SyncSpec. */
module FileSync {
  import opened Bytes
  import opened Frame
  import opened SyncWorld
  import opened SyncSpec
  import opened SyncSplit

  // ---------- system calls ----------

  /** The system the service runs on. Beyond `w`, it decides how short each write is and which writes are
      interrupted, finitely often. */
  class Os {
    var w: World
    var calls: nat
    var interrupts: nat
    const shortWrite: nat -> nat
    const interrupted: nat -> bool

    constructor (w: World, interrupts: nat, shortWrite: nat -> nat, interrupted: nat -> bool)
      ensures this.w == w
    {
      this.w, this.calls, this.interrupts := w, 0, interrupts;
      this.shortWrite, this.interrupted := shortWrite, interrupted;
    }

    method OpenWrite(path: Path) returns (fd: Option<nat>)
      modifies this`w
      ensures (w, fd) == SyncWorld.OpenWrite(old(w), path)
    {
      fd := SyncWorld.OpenWrite(w, path).1;
      w := SyncWorld.OpenWrite(w, path).0;
    }

    method OpenRead(path: Path) returns (fd: Option<nat>)
      modifies this`w
      ensures (w, fd) == SyncWorld.OpenRead(old(w), path)
    {
      fd := SyncWorld.OpenRead(w, path).1;
      w := SyncWorld.OpenRead(w, path).0;
    }

    method Read(fd: nat, n: nat) returns (chunk: Chunk)
      modifies this`w
      ensures (w, chunk) == SyncWorld.Read(old(w), fd, n)
      ensures chunk.Bytes? ==> |chunk.bytes| <= n
    {
      chunk := SyncWorld.Read(w, fd, n).1;
      w := SyncWorld.Read(w, fd, n).0;
    }

    /** write(2): interrupted with no effect, or a failure at the first byte, or some bytes from the start
        have reached the file. */
    method Write(fd: nat, bytes: seq<byte>) returns (ret: int, eintr: bool)
      requires bytes != []
      modifies this
      ensures eintr ==> ret < 0 && w == old(w) && interrupts < old(interrupts)
      ensures !eintr ==> interrupts == old(interrupts)
      ensures !eintr && ret <= 0 ==> WriteAll(old(w), fd, bytes) == (w, false)
      ensures ret > 0 ==> !eintr && ret <= |bytes| && WriteAll(old(w), fd, bytes[..ret]) == (w, true)
    {
      calls := calls + 1;
      if interrupts > 0 && interrupted(calls) {
        interrupts := interrupts - 1;
        return -1, true;
      }
      eintr := false;
      if w.env.fails(w.turn) {
        ret := if shortWrite(calls) == 0 then 0 else -1;
        w := Tick(w);
        return;
      }
      ret := WriteSome(fd, bytes, Min(if shortWrite(calls) == 0 then 1 else shortWrite(calls), |bytes|));
    }

    /** At most n bytes, up to the first that cannot be written. */
    method WriteSome(fd: nat, bytes: seq<byte>, n: nat) returns (ret: int)
      requires 1 <= n <= |bytes| && !w.env.fails(w.turn)
      modifies this`w
      ensures 1 <= ret <= n && WriteAll(old(w), fd, bytes[..ret]) == (w, true)
    {
      ret := 0;
      while ret < n && !w.env.fails(w.turn)
        invariant 0 <= ret <= n && (ret == 0 ==> w == old(w)) && w.env == old(w).env
        invariant WriteAll(old(w), fd, bytes[..ret]) == (w, true)
      {
        WriteNext(old(w), w, fd, bytes, ret);
        w := PutByte(w, fd, bytes[ret]);
        ret := ret + 1;
      }
    }

    method Stat(path: Path) returns (m: Option<Meta>)
      modifies this`w
      ensures (w, m) == SyncWorld.Stat(old(w), path)
    {
      m := SyncWorld.Stat(w, path).1;
      w := SyncWorld.Stat(w, path).0;
    }

    method Lstat(path: Path) returns (m: Option<Meta>)
      modifies this`w
      ensures (w, m) == SyncWorld.Lstat(old(w), path)
    {
      m := SyncWorld.Lstat(w, path).1;
      w := SyncWorld.Lstat(w, path).0;
    }

    method OpenDir(path: Path) returns (d: Option<nat>)
      modifies this`w
      ensures (w, d) == SyncWorld.OpenDir(old(w), path)
    {
      d := SyncWorld.OpenDir(w, path).1;
      w := SyncWorld.OpenDir(w, path).0;
    }

    method ReadDir(d: nat) returns (name: Option<Path>)
      modifies this`w
      ensures (w, name) == SyncWorld.ReadDir(old(w), d)
    {
      name := SyncWorld.ReadDir(w, d).1;
      w := SyncWorld.ReadDir(w, d).0;
    }

    method Mkdir(path: Path) returns (made: Made)
      modifies this`w
      ensures (w, made) == SyncWorld.Mkdir(old(w), path)
    {
      made := SyncWorld.Mkdir(w, path).1;
      w := SyncWorld.Mkdir(w, path).0;
    }

    method Symlink(target: seq<byte>, path: Path) returns (ok: bool)
      modifies this`w
      ensures (w, ok) == SyncWorld.Symlink(old(w), target, path)
    {
      ok := SyncWorld.Symlink(w, target, path).1;
      w := SyncWorld.Symlink(w, target, path).0;
    }

    method Unlink(path: Path)
      modifies this`w
      ensures w == SyncWorld.Unlink(old(w), path)
    {
      w := SyncWorld.Unlink(w, path);
    }

    method Malloc() returns (mem: nat)
      modifies this`w
      ensures w == Acquire(old(w), Block) && mem == old(w).next
    {
      mem, w := w.next, Acquire(w, Block);
    }

    /** close, closedir and free. */
    method Drop(h: nat)
      modifies this`w
      ensures w == SyncWorld.Drop(old(w), h)
    {
      w := SyncWorld.Drop(w, h);
    }
  }

  lemma WriteNext(w: World, w1: World, fd: nat, bytes: seq<byte>, i: nat)
    requires i < |bytes| && WriteAll(w, fd, bytes[..i]) == (w1, true) && !w1.env.fails(w1.turn)
    ensures WriteAll(w, fd, bytes[..i + 1]) == (PutByte(w1, fd, bytes[i]), true)
  {
    WriteAllAppend(w, fd, bytes[..i], [bytes[i]]);
    assert bytes[..i + 1] == bytes[..i] + [bytes[i]];
    assert [bytes[i]][1..] == [];
  }

  // ---------- C strings ----------

  lemma {:induction false} CStringIs(s: seq<byte>, n: nat)
    requires n <= |s| && (n < |s| ==> s[n] == 0) && forall i :: 0 <= i < n ==> s[i] != 0
    ensures CString(s) == s[..n]
  {
    if n > 0 {
      CStringIs(s[1..], n - 1);
    }
  }

  lemma {:induction false} CStringEnd(s: seq<byte>)
    ensures var n := |CString(s)|;
            n <= |s| && CString(s) == s[..n] && (n < |s| ==> s[n] == 0) && 0 !in CString(s)
  {
    if s != [] && s[0] != 0 {
      CStringEnd(s[1..]);
    }
  }

  /** Storing the terminator makes the buffer hold the string of the bytes before it. */
  lemma CStringStored(s: seq<byte>, n: nat)
    requires n < |s| && s[n] == 0
    ensures CString(s) == CString(s[..n])
  {
    CStringEnd(s[..n]);
    var m := |CString(s[..n])|;
    forall i | 0 <= i < m ensures s[i] != 0 {
      assert CString(s[..n])[i] == s[..n][i];
    }
    CStringIs(s, m);
  }

  /** Cutting the string in a buffer at one of its positions. */
  lemma CStringShortened(s: seq<byte>, t: seq<byte>, x: nat)
    requires |t| == |s| && x < |CString(s)| && x < |s| && t[..x] == s[..x] && t[x] == 0
    ensures CString(t) == CString(s)[..x]
  {
    CStringEnd(s);
    forall i | 0 <= i < x ensures t[i] != 0 {
      assert t[i] == t[..x][i] == s[i] == CString(s)[i];
    }
    CStringIs(t, x);
  }

  lemma {:induction false} NoSlash(w: World, path: Path, i: nat, j: nat)
    requires i <= j <= |path| && forall n :: i <= n < j ==> path[n] != SLASH
    ensures MakeParents(w, path, i) == MakeParents(w, path, j)
    decreases j - i
  {
    if i < j {
      NoSlash(w, path, i + 1, j);
    }
  }

  // ---------- packets ----------

  class Packet {
    const data: array<byte>
    var dataLength: nat
    var writeLen: nat

    constructor (data: array<byte>, dataLength: nat)
      ensures this.data == data && this.dataLength == dataLength && writeLen == 0
    {
      this.data, this.dataLength, this.writeLen := data, dataLength, 0;
    }

    ghost function Reply(): seq<byte>
      requires writeLen <= data.Length
      reads this, data
    {
      data[..writeLen]
    }

    /** A reply message goes behind those already in the packet. */
    method Append(msg: seq<byte>)
      requires writeLen + |msg| <= data.Length
      modifies this`writeLen, data
      ensures writeLen == old(writeLen) + |msg| && Reply() == old(Reply()) + msg
      ensures forall i :: writeLen <= i < data.Length ==> data[i] == old(data[i])
    {
      forall i | 0 <= i < |msg| {
        data[writeLen + i] := msg[i];
      }
      writeLen := writeLen + |msg|;
    }
  }

  // ---------- the service ----------

  /** The union: the member that was written last. */
  datatype Union =
    | Unset
    | ListOf(d: nat, mem: nat, dir: Path)
    | SendFileTo(fd: nat)
    | SendLinkTo(link: nat, name: Path)
    | RecvFrom(source: nat)

  const WAIT_CMD: nat := 0
  const WAIT_CMD_DATA: nat := 1
  const PROCESS_RECV: nat := 2
  const PROCESS_LIST: nat := 3
  const SEND_FILE_HDR: nat := 4
  const SEND_FILE_DATA: nat := 5
  const SEND_SYM_HDR: nat := 6
  const SEND_SYM_DATA: nat := 7

  /** Each state reads one member of the union, the one it finds there. */
  predicate Tagged(state: nat, u: Union) {
    && state <= SEND_SYM_DATA
    && (state == PROCESS_RECV ==> u.RecvFrom?)
    && (state == PROCESS_LIST ==> u.ListOf?)
    && (state == SEND_FILE_HDR || state == SEND_FILE_DATA ==> u.SendFileTo?)
    && (state == SEND_SYM_HDR || state == SEND_SYM_DATA ==> u.SendLinkTo?)
  }

  function PhaseOf(state: nat, u: Union): Phase
    requires Tagged(state, u)
  {
    if state == WAIT_CMD then WaitCmd
    else if state == WAIT_CMD_DATA then WaitCmdData
    else if state == PROCESS_RECV then Recv(u.source)
    else if state == PROCESS_LIST then Listing(u.d, u.mem, u.dir)
    else if state == SEND_FILE_HDR then SendFileHdr(u.fd)
    else if state == SEND_FILE_DATA then SendFileData(u.fd)
    else if state == SEND_SYM_HDR then SendSymHdr(u.link, u.name)
    else SendSymData(u.link, u.name)
  }

  lemma PhaseUp(state: nat, u: Union)
    requires Tagged(state, u)
    ensures state == SEND_FILE_HDR || state == SEND_SYM_HDR ==>
              Tagged(state + 1, u) && PhaseOf(state + 1, u) == Up(PhaseOf(state, u))
  {
  }

  lemma PhaseDown(state: nat, u: Union)
    requires Tagged(state, u) && (state == SEND_FILE_DATA || state == SEND_SYM_DATA)
    ensures PhaseOf(state, u) ==
            if state == SEND_FILE_DATA then Phase.SendFileData(u.fd) else Phase.SendSymData(u.link, u.name)
    ensures Tagged(state - 1, u) && PhaseOf(state - 1, u) == Down(PhaseOf(state, u))
  {
  }

  lemma PhaseAt(state: nat, u: Union)
    requires Tagged(state, u)
    ensures state == WAIT_CMD ==> PhaseOf(state, u) == WaitCmd
    ensures state == WAIT_CMD_DATA ==> PhaseOf(state, u) == WaitCmdData
    ensures state == PROCESS_LIST ==> PhaseOf(state, u) == Listing(u.d, u.mem, u.dir)
    ensures state == PROCESS_RECV ==> PhaseOf(state, u) == Recv(u.source)
  {
  }

  lemma CutHere(name: Path, used: nat)
    requires used + 20 <= PAYLOAD_SIZE
    ensures CutName(name, used) == name[..Min(|name|, PAYLOAD_SIZE - 20 - used)]
  {
  }

  /** What an acknowledgement does not depend on. */
  lemma AnyRest(a: Afs, w: World, rest: seq<byte>)
    ensures a.phase.Recv? ==> RecvStep(a, w, rest, 0) == RecvStep(a, w, [], 0).(rest := rest)
    ensures a.phase.Listing? ==> ListStep(a, w, rest, 0) == ListStep(a, w, [], 0).(rest := rest)
  {
  }

  const EAGAIN: int := 11
  const EINVAL: int := 22

  class FileSync {
    const os: Os
    const buff: array<byte>
    var state: nat
    var u: Union
    var cmd: nat
    var namelen: nat
    var size: nat
    var packetPtr: nat

    ghost predicate Valid()
      reads this
    {
      buff.Length == PATH_MAX && size <= PATH_MAX && Tagged(state, u)
    }

    ghost function View(): Afs
      requires Valid()
      reads this, buff
    {
      Afs(PhaseOf(state, u), cmd, namelen, buff[..size])
    }

    constructor (os: Os)
      ensures Valid() && View() == Idle(0, 0) && this.os == os && fresh(buff)
    {
      this.os, this.buff := os, new byte[PATH_MAX];
      state, u, cmd, namelen, size, packetPtr := WAIT_CMD, Unset, 0, 0, 0, 0;
    }

    /** A packet of any size, its unread input and its replies within it. */
    ghost predicate Holds(p: Packet)
      reads this, p
    {
      p.data != buff && packetPtr + p.dataLength <= p.data.Length && p.writeLen <= p.data.Length
    }

    /** Where the input of the frame ends. */
    ghost function End(p: Packet): nat
      reads this, p
    {
      packetPtr + p.dataLength
    }

    ghost function Input(p: Packet): seq<byte>
      requires Holds(p)
      reads this, p, p.data
    {
      p.data[packetPtr..packetPtr + p.dataLength]
    }

    /** The handler has left what the specification says, its reply behind `before` in the packet. */
    ghost predicate Left(p: Packet, o: Outcome, ret: int, before: seq<byte>, end: nat)
      reads this, buff, p, p.data, os
    {
      && Valid() && Holds(p) && End(p) == end
      && View() == o.afs && os.w == o.w && ret == o.ret
      && p.Reply() == before + o.reply
      && Input(p) == if o.reply == [] then o.rest else Overlay(o.rest, packetPtr, p.Reply())
    }

    /** The memcpy of read_from_packet. */
    method Take(p: Packet, chunk: nat)
      requires Valid() && Holds(p) && chunk <= p.dataLength && size + chunk <= PATH_MAX
      modifies this`size, this`packetPtr, buff, p`dataLength
      ensures Valid() && Holds(p) && size == old(size) + chunk
      ensures buff[..size] == old(buff[..size]) + old(Input(p))[..chunk]
      ensures Input(p) == old(Input(p))[chunk..] && End(p) == old(End(p))
    {
      forall i | 0 <= i < chunk {
        buff[size + i] := p.data[packetPtr + i];
      }
      size := size + chunk;
      p.dataLength := p.dataLength - chunk;
      packetPtr := packetPtr + chunk;
    }

    /** read_from_packet. */
    method ReadFromPacket(p: Packet, want: nat) returns (ret: int)
      requires Valid() && Holds(p)
      modifies this`size, this`packetPtr, buff, p`dataLength
      ensures Valid() && Holds(p) && p.Reply() == old(p.Reply()) && End(p) == old(End(p))
      ensures match Gather(old(View()).buf, want, old(Input(p)))
              case Invalid => ret == -EINVAL && size == 0 && Input(p) == old(Input(p))
              case Again(buf) => ret == -EAGAIN && buff[..size] == buf && Input(p) == []
              case Whole(bytes, rest) =>
                ret == 0 && size == 0 && want <= PATH_MAX && buff[..want] == bytes && Input(p) == rest
    {
      if size > want || want > PATH_MAX {
        size := 0;
        return -EINVAL;
      }
      Take(p, Min(want - size, p.dataLength));
      if size == want {
        size := 0;
        return 0;
      }
      ret := -EAGAIN;
    }

    // ---------- replies and reset ----------

    /** A reply is stored behind those already in the packet, over input where it reaches that far. */
    method Answer(p: Packet, msg: seq<byte>)
      requires Valid() && Holds(p) && p.writeLen + |msg| <= p.data.Length
      modifies p`writeLen, p.data
      ensures Valid() && Holds(p) && View() == old(View())
      ensures p.Reply() == old(p.Reply()) + msg
      ensures Input(p) == Overlay(old(Input(p)), packetPtr, p.Reply())
    {
      p.Append(msg);
    }

    /** prepare_fail_message. */
    method PrepareFail(p: Packet, reason: seq<byte>)
      requires Valid() && Holds(p) && Fits(p, FailMsg(reason, p.writeLen))
      modifies p`writeLen, p.data
      ensures Valid() && Holds(p) && View() == old(View())
      ensures p.Reply() == old(p.Reply()) + FailMsg(reason, old(p.writeLen))
      ensures Input(p) == Overlay(old(Input(p)), packetPtr, p.Reply())
    {
      var len := Min(|reason|, PAYLOAD_SIZE - 8 - p.writeLen);
      Answer(p, DataMsg(ID_FAIL, reason[..len]));
    }

    method PrepareOkay(p: Packet)
      requires Valid() && Holds(p) && Fits(p, DataMsg(ID_OKAY, []))
      modifies p`writeLen, p.data
      ensures Valid() && Holds(p) && View() == old(View())
      ensures p.Reply() == old(p.Reply()) + DataMsg(ID_OKAY, [])
      ensures Input(p) == Overlay(old(Input(p)), packetPtr, p.Reply())
    {
      Answer(p, DataMsg(ID_OKAY, []));
    }

    /** state_reset. */
    method StateReset()
      requires Valid()
      modifies this`state, this`size, os`w
      ensures Valid() && (View(), os.w) == Reset(old(View()), old(os.w))
    {
      if state == PROCESS_LIST {
        os.Drop(u.mem);
        os.Drop(u.d);
      } else if state == PROCESS_RECV {
        os.Drop(u.source);
      } else if state == SEND_SYM_HDR || state == SEND_SYM_DATA {
        os.Drop(u.link);
      } else if state == SEND_FILE_HDR || state == SEND_FILE_DATA {
        os.Drop(u.fd);
      }
      state := WAIT_CMD;
      size := 0;
    }

    // ---------- commands ----------

    /** One more reply fits the packet, and the payload that the source declares for it. */
    ghost predicate Fits(p: Packet, reply: seq<byte>)
      reads p
    {
      p.writeLen + |reply| <= Min(p.data.Length, PAYLOAD_SIZE)
    }

    /** What a handler needs: its reply fits. */
    ghost predicate MayRun(p: Packet, o: Outcome)
      reads this, p
    {
      Valid() && Holds(p) && Fits(p, o.reply)
    }

    /** state_init_stat. */
    method InitStat(p: Packet, path: Path) returns (ret: int)
      requires Valid() && Holds(p) && size == 0 && state == WAIT_CMD_DATA
      requires MayRun(p, SyncSpec.InitStat(View(), os.w, Input(p), path))
      modifies this`state, p`writeLen, p.data, os`w
      ensures Left(p, old(SyncSpec.InitStat(View(), os.w, Input(p), path)), ret, old(p.Reply()), old(End(p)))
    {
      hide Overlay;
      hide PhaseOf;
      hide StatMsg;
      assert p.Reply() + [] == p.Reply();
      var m := os.Stat(path);
      if m.Some? {
        Answer(p, StatMsg(m.value));
        state := WAIT_CMD;
        PhaseAt(state, u);
        return 1;
      }
      Answer(p, StatMsg(NO_META));
      ret := 0;
    }

    /** state_process_list. */
    method ProcessList(p: Packet) returns (ret: int)
      requires Valid() && Holds(p) && size == 0 && state == PROCESS_LIST
      requires MayRun(p, ListStep(View(), os.w, Input(p), p.writeLen))
      modifies p`writeLen, p.data, os`w
      ensures Left(p, old(ListStep(View(), os.w, Input(p), p.writeLen)), ret, old(p.Reply()), old(End(p)))
    {
      hide DentMsg;
      hide Overlay;
      hide PhaseOf;
      hide CutName;
      hide SyncWorld.ReadDir;
      hide SyncWorld.Lstat;
      assert u.ListOf? && View().phase == Listing(u.d, u.mem, u.dir) by {
        PhaseAt(state, u);
      }
      assert p.Reply() + [] == p.Reply();
      var name := os.ReadDir(u.d);
      if name.None? {
        Answer(p, DentMsg(ID_DONE, NO_META, []));
        return 0;
      }
      var meta := NO_META;
      if |name.value| < PATH_MAX - (|u.dir| + 1) {
        var m := os.Lstat(u.dir + [SLASH] + name.value);
        meta := if m.Some? then m.value else NO_META;
      }
      CutHere(name.value, p.writeLen);
      Answer(p, DentMsg(ID_DENT, meta, name.value[..Min(|name.value|, PAYLOAD_SIZE - 20 - p.writeLen)]));
      ret := 1;
    }

    /** state_init_list. */
    method InitList(p: Packet, path: Path) returns (ret: int)
      requires Valid() && Holds(p) && size == 0 && state == WAIT_CMD_DATA
      requires MayRun(p, SyncSpec.InitList(View(), os.w, Input(p), path, p.writeLen))
      modifies this`state, this`u, p`writeLen, p.data, os`w
      ensures Left(p, old(SyncSpec.InitList(View(), os.w, Input(p), path, p.writeLen)), ret,
                   old(p.Reply()), old(End(p)))
    {
      hide DentMsg;
      hide ListStep;
      hide SyncWorld.OpenDir;
      hide Overlay;
      hide PhaseOf;
      assert p.Reply() + [] == p.Reply();
      if |path| >= PATH_MAX - 3 {
        Answer(p, DentMsg(ID_DONE, NO_META, []));
        return 0;
      }
      var mem := os.Malloc();
      var d := os.OpenDir(path);
      if d.None? {
        os.Drop(mem);
        Answer(p, DentMsg(ID_DONE, NO_META, []));
        return 0;
      }
      u := ListOf(d.value, mem, path);
      state := PROCESS_LIST;
      PhaseAt(state, u);
      ret := ProcessList(p);
    }

    /** state_process_recv. */
    method ProcessRecv(p: Packet) returns (ret: int)
      requires Valid() && Holds(p) && size == 0 && state == PROCESS_RECV
      requires MayRun(p, RecvStep(View(), os.w, Input(p), p.writeLen))
      modifies p`writeLen, p.data, os`w
      ensures Left(p, old(RecvStep(View(), os.w, Input(p), p.writeLen)), ret, old(p.Reply()), old(End(p)))
    {
      hide SyncWorld.Read;
      hide FailMsg;
      hide DataMsg;
      hide Ascii;
      hide Overlay;
      hide PhaseOf;
      PhaseAt(state, u);
      assert p.Reply() + [] == p.Reply();
      var chunk := os.Read(u.source, PAYLOAD_SIZE - 8 - p.writeLen);
      match chunk {
        case Bytes(bytes) =>
          Answer(p, DataMsg(ID_DATA, bytes));
          ret := 1;
        case Eof =>
          Answer(p, DataMsg(ID_DONE, []));
          ret := 0;
        case Broken =>
          PrepareFail(p, Ascii("read failed"));
          ret := 0;
      }
    }

    /** state_init_recv. */
    method InitRecv(p: Packet, path: Path) returns (ret: int)
      requires Valid() && Holds(p) && size == 0 && state == WAIT_CMD_DATA
      requires MayRun(p, SyncSpec.InitRecv(View(), os.w, Input(p), path, p.writeLen))
      modifies this`state, this`u, p`writeLen, p.data, os`w
      ensures Left(p, old(SyncSpec.InitRecv(View(), os.w, Input(p), path, p.writeLen)), ret,
                   old(p.Reply()), old(End(p)))
    {
      hide FailMsg;
      hide RecvStep;
      hide Ascii;
      hide SyncWorld.OpenRead;
      var fd := os.OpenRead(path);
      if fd.None? {
        PrepareFail(p, Ascii("file does not exist"));
        return 0;
      }
      u := RecvFrom(fd.value);
      state := PROCESS_RECV;
      ret := ProcessRecv(p);
    }

    // ---------- send ----------

    /** strchr for the next slash of the path in the buffer. */
    method NextSlash(from: nat) returns (x: Option<nat>)
      requires Valid() && from <= |CString(buff[..])|
      ensures var path := CString(buff[..]);
              if x.Some? then
                && from <= x.value < |path| && path[x.value] == SLASH
                && forall n :: from <= n < x.value ==> path[n] != SLASH
              else forall n :: from <= n < |path| ==> path[n] != SLASH
    {
      CStringEnd(buff[..]);
      ghost var path := CString(buff[..]);
      var i := from;
      while i < PATH_MAX && buff[i] != 0
        invariant from <= i <= |path| && path == buff[..|path|]
        invariant forall n :: from <= n < i ==> path[n] != SLASH
      {
        assert path[i] == buff[i];
        if buff[i] == SLASH {
          return Some(i);
        }
        i := i + 1;
      }
      x := None;
    }

    /** One round of create_path_directories: the slash is replaced by a terminator for the mkdir call. */
    method MakeAt(x: nat) returns (made: Made)
      requires Valid() && x < |CString(buff[..])| && x < PATH_MAX && buff[x] == SLASH
      modifies buff, os`w
      ensures buff[..] == old(buff[..])
      ensures (os.w, made) == Mkdir(old(os.w), CString(old(buff[..]))[..x])
    {
      ghost var before := buff[..];
      CStringEnd(buff[..]);
      buff[x] := 0;
      CStringShortened(before, buff[..], x);
      made := os.Mkdir(CString(buff[..]));
      buff[x] := SLASH;
    }

    /** create_path_directories on the path in the buffer: every exit leaves it as it was. */
    method CreatePathDirectories() returns (ret: int)
      requires Valid()
      modifies buff, os`w
      ensures buff[..] == old(buff[..])
      ensures (os.w, ret == 0) == Parents(old(os.w), CString(old(buff[..])))
    {
      CStringEnd(buff[..]);
      ghost var path := CString(buff[..]);
      if buff[0] != SLASH {
        return -1;
      }
      var x := 0;
      while true
        invariant buff[..] == old(buff[..]) && x < |path| && path[0] == SLASH
        invariant MakeParents(os.w, path, x + 1) == MakeParents(old(os.w), path, 1)
        decreases |path| - x
      {
        var y := NextSlash(x + 1);
        NoSlash(os.w, path, x + 1, if y.Some? then y.value else |path|);
        if y.None? {
          return 0;
        }
        x := y.value;
        assert buff[..][x] == path[x];
        var made := MakeAt(x);
        if made == Refused {
          return -1;
        }
      }
    }

    /** state_init_send_link. */
    method InitSendLink(p: Packet, path: Path) returns (ret: int)
      requires Valid() && Holds(p) && size == 0 && state == WAIT_CMD_DATA
      requires MayRun(p, SyncSpec.InitSendLink(View(), os.w, Input(p), path, p.writeLen))
      modifies this`state, this`u, p`writeLen, p.data, os`w
      ensures Left(p, old(SyncSpec.InitSendLink(View(), os.w, Input(p), path, p.writeLen)), ret,
                   old(p.Reply()), old(End(p)))
    {
      hide FailMsg;
      assert p.Reply() + [] == p.Reply();
      if |path| >= PATH_MAX {
        PrepareFail(p, Ascii("path too long"));
        return 0;
      }
      var mem := os.Malloc();
      u := SendLinkTo(mem, path);
      state := SEND_SYM_HDR;
      ret := 1;
    }

    /** state_init_send_file. */
    method InitSendFile(p: Packet, path: Path) returns (ret: int)
      requires Valid() && Holds(p) && size == 0 && state == WAIT_CMD_DATA
      requires MayRun(p, SyncSpec.InitSendFile(View(), os.w, Input(p), path, p.writeLen))
      modifies this`state, this`u, p`writeLen, p.data, os`w
      ensures Left(p, old(SyncSpec.InitSendFile(View(), os.w, Input(p), path, p.writeLen)), ret,
                   old(p.Reply()), old(End(p)))
    {
      hide FailMsg;
      assert p.Reply() + [] == p.Reply();
      var fd := os.OpenWrite(path);
      if fd.None? {
        PrepareFail(p, os.w.env.reason(os.w.turn));
        return 0;
      }
      u := SendFileTo(fd.value);
      state := SEND_FILE_HDR;
      ret := 1;
    }

    /** The argument of SEND is cut at its last comma, in the buffer. */
    method CutArgument() returns (isLink: bool)
      requires Valid()
      modifies buff
      ensures var name := CString(old(buff[..]));
              var comma := LastComma(name);
              && CString(buff[..]) == (if comma.Some? then name[..comma.value] else name)
              && (isLink <==> comma.Some? && os.w.env.isLink(name[comma.value + 1..]))
    {
      var name := CString(buff[..]);
      var comma := LastComma(name);
      isLink := false;
      if comma.Some? {
        ghost var before := buff[..];
        CStringEnd(before);
        buff[comma.value] := 0;
        CStringShortened(before, buff[..], comma.value);
        isLink := os.w.env.isLink(name[comma.value + 1..]);
      }
    }

    /** state_init_send. */
    method InitSend(p: Packet) returns (ret: int)
      requires Valid() && Holds(p) && size == 0 && state == WAIT_CMD_DATA
      requires MayRun(p, SyncSpec.InitSend(View(), os.w, Input(p), CString(buff[..]), p.writeLen))
      modifies this`state, this`u, buff, p`writeLen, p.data, os`w
      ensures Left(p, old(SyncSpec.InitSend(View(), os.w, Input(p), CString(buff[..]), p.writeLen)), ret,
                   old(p.Reply()), old(End(p)))
    {
      hide FailMsg;
      hide Parents;
      hide SyncSpec.InitSendFile;
      hide SyncSpec.InitSendLink;
      ghost var a, rest := View(), Input(p);
      var isLink := CutArgument();
      var path := CString(buff[..]);
      os.Unlink(path);
      var made := CreatePathDirectories();
      assert View() == a && Input(p) == rest;
      if made != 0 {
        PrepareFail(p, os.w.env.reason(os.w.turn));
        return 0;
      }
      if isLink {
        ret := InitSendLink(p, path);
      } else {
        ret := InitSendFile(p, path);
      }
    }

    // ---------- states that read ----------

    /** state_wait_cmd. */
    method WaitCmdHandler(p: Packet) returns (ret: int)
      requires Valid() && Holds(p) && state == WAIT_CMD
      requires MayRun(p, WaitCmdStep(View(), os.w, Input(p)))
      modifies this`state, this`cmd, this`namelen, this`size, this`packetPtr, buff, p`dataLength
      ensures Left(p, old(WaitCmdStep(View(), os.w, Input(p))), ret, old(p.Reply()), old(End(p)))
    {
      hide Overlay;
      hide PhaseOf;
      hide Word;
      hide Requested;
      assert p.Reply() + [] == p.Reply();
      var r := ReadFromPacket(p, 8);
      if r != 0 {
        ret := if r == -EAGAIN then 1 else -1;
        return;
      }
      assert buff[0..4] == buff[..8][0..4] && buff[4..8] == buff[..8][4..8];
      ret := RequestArrived(p, Word(buff[0..4]), Word(buff[4..8]));
    }

    /** The command header has arrived in full. */
    method RequestArrived(p: Packet, id: nat, len: nat) returns (ret: int)
      requires Valid() && Holds(p) && size == 0 && state == WAIT_CMD
      requires MayRun(p, Requested(View(), os.w, Input(p), id, len))
      modifies this`state, this`cmd, this`namelen
      ensures Left(p, old(Requested(View(), os.w, Input(p), id, len)), ret, old(p.Reply()), old(End(p)))
    {
      hide Overlay;
      assert p.Reply() + [] == p.Reply();
      if id == ID_QUIT || len >= PATH_MAX {
        return -1;
      }
      cmd, namelen, state := id, len, WAIT_CMD_DATA;
      ret := 1;
    }

    /** The switch of state_wait_cmd_data over the command, once the name is in the buffer. */
    method RunCommand(p: Packet) returns (ret: int)
      requires Valid() && Holds(p) && size == 0 && state == WAIT_CMD_DATA
      requires MayRun(p, Command(View(), os.w, Input(p), CString(buff[..]), p.writeLen))
      modifies this`state, this`u, buff, p`writeLen, p.data, os`w
      ensures Left(p, old(Command(View(), os.w, Input(p), CString(buff[..]), p.writeLen)), ret,
                   old(p.Reply()), old(End(p)))
    {
      hide SyncSpec.InitStat;
      hide SyncSpec.InitList;
      hide SyncSpec.InitSend;
      hide SyncSpec.InitRecv;
      if cmd == ID_STAT {
        ret := InitStat(p, CString(buff[..]));
      } else if cmd == ID_LIST {
        ret := InitList(p, CString(buff[..]));
      } else if cmd == ID_SEND {
        ret := InitSend(p);
      } else if cmd == ID_RECV {
        ret := InitRecv(p, CString(buff[..]));
      } else {
        assert p.Reply() + [] == p.Reply();
        ret := if cmd == ID_QUIT then 0 else -1;
      }
    }

    /** state_wait_cmd_data. */
    method WaitCmdDataHandler(p: Packet) returns (ret: int)
      requires Valid() && Holds(p) && state == WAIT_CMD_DATA
      requires MayRun(p, WaitCmdDataStep(View(), os.w, Input(p), p.writeLen))
      modifies this`state, this`u, this`size, this`packetPtr, buff, p`dataLength, p`writeLen, p.data, os`w
      ensures Left(p, old(WaitCmdDataStep(View(), os.w, Input(p), p.writeLen)), ret, old(p.Reply()), old(End(p)))
    {
      hide Command;
      hide CString;
      assert p.Reply() + [] == p.Reply();
      var r := ReadFromPacket(p, namelen);
      if r != 0 {
        ret := if r == -EAGAIN then 1 else -1;
        return;
      }
      if namelen >= PATH_MAX {
        return -1;
      }
      ret := RunNamed(p);
    }

    /** The name has arrived in full. */
    method RunNamed(p: Packet) returns (ret: int)
      requires Valid() && Holds(p) && size == 0 && state == WAIT_CMD_DATA && namelen < PATH_MAX
      requires MayRun(p, Command(View(), os.w, Input(p), CString(buff[..namelen]), p.writeLen))
      modifies this`state, this`u, buff, p`writeLen, p.data, os`w
      ensures Left(p, old(Command(View(), os.w, Input(p), CString(buff[..namelen]), p.writeLen)), ret,
                   old(p.Reply()), old(End(p)))
    {
      hide Command;
      hide CString;
      ghost var a, input := View(), Input(p);
      Terminate();
      assert View() == a && Input(p) == input;
      ret := RunCommand(p);
    }

    /** buff[namelen] = 0. */
    method Terminate()
      requires Valid() && namelen < PATH_MAX
      modifies buff
      ensures CString(buff[..]) == CString(old(buff[..namelen]))
      ensures forall i :: 0 <= i < namelen ==> buff[i] == old(buff[i])
    {
      ghost var bytes := buff[..namelen];
      buff[namelen] := 0;
      assert buff[..][..namelen] == bytes;
      CStringStored(buff[..], namelen);
    }

    /** state_process_send_header: state += 1 leads to the data state. */
    method HeaderHandler(p: Packet) returns (ret: int)
      requires Valid() && Holds(p) && (state == SEND_FILE_HDR || state == SEND_SYM_HDR)
      requires MayRun(p, HeaderStep(View(), os.w, Input(p), p.writeLen))
      modifies this`state, this`namelen, this`size, this`packetPtr, buff, p`dataLength, p`writeLen, p.data
      ensures Left(p, old(HeaderStep(View(), os.w, Input(p), p.writeLen)), ret, old(p.Reply()), old(End(p)))
    {
      hide FailMsg;
      hide Ascii;
      hide Word;
      hide PhaseOf;
      hide Header;
      assert p.Reply() + [] == p.Reply();
      var r := ReadFromPacket(p, 8);
      if r == -EAGAIN {
        return 1;
      }
      if r != 0 {
        PrepareFail(p, Ascii("read error"));
        return 0;
      }
      assert buff[0..4] == buff[..8][0..4] && buff[4..8] == buff[..8][4..8];
      ret := HeaderArrived(p, Word(buff[0..4]), Word(buff[4..8]));
    }

    /** The header has arrived in full. */
    method HeaderArrived(p: Packet, id: nat, length: nat) returns (ret: int)
      requires Valid() && Holds(p) && size == 0 && (state == SEND_FILE_HDR || state == SEND_SYM_HDR)
      requires MayRun(p, Header(View(), os.w, Input(p), id, length, p.writeLen))
      modifies this`state, this`namelen, p`writeLen, p.data
      ensures Left(p, old(Header(View(), os.w, Input(p), id, length, p.writeLen)), ret, old(p.Reply()), old(End(p)))
    {
      hide FailMsg;
      hide DataMsg;
      hide Ascii;
      hide PhaseOf;
      hide Up;
      PhaseUp(state, u);
      assert p.Reply() + [] == p.Reply();
      if id == ID_DONE {
        PrepareOkay(p);
        return 0;
      }
      if id != ID_DATA {
        PrepareFail(p, Ascii("invalid data message"));
        return 0;
      }
      namelen := length;
      state := state + 1;
      ret := 1;
    }

    /** The write loop: everything reaches the file, or the first failure ends it. */
    method WriteBlock(fd: nat, bytes: seq<byte>) returns (ok: bool)
      modifies os
      ensures (os.w, ok) == WriteAll(old(os.w), fd, bytes)
    {
      var done := 0;
      while done < |bytes|
        invariant done <= |bytes| && WriteAll(old(os.w), fd, bytes[..done]) == (os.w, true)
        decreases |bytes| - done, os.interrupts
      {
        var ret, eintr := os.Write(fd, bytes[done..]);
        assert bytes == bytes[..done] + bytes[done..];
        if ret > 0 {
          assert bytes[..done + ret] == bytes[..done] + bytes[done..][..ret];
          WriteAllAppend(old(os.w), fd, bytes[..done], bytes[done..][..ret]);
          done := done + ret;
        } else if !eintr {
          WriteAllAppend(old(os.w), fd, bytes[..done], bytes[done..]);
          return false;
        }
      }
      assert bytes[..done] == bytes;
      ok := true;
    }

    /** The piece of a block that is in the frame. */
    method TakeBlock(p: Packet) returns (block: seq<byte>)
      requires Valid() && Holds(p)
      modifies this`namelen, this`packetPtr, p`dataLength
      ensures Valid() && Holds(p) && End(p) == old(End(p)) && p.Reply() == old(p.Reply())
      ensures var n := Min(|old(Input(p))|, old(namelen));
              && block == old(Input(p))[..n] && Input(p) == old(Input(p))[n..]
              && namelen == old(namelen) - n && View() == old(View()).(namelen := namelen)
    {
      var blockSize := Min(p.dataLength, namelen);
      block := p.data[packetPtr..packetPtr + blockSize];
      assert block == Input(p)[..blockSize];
      assert Input(p)[blockSize..] == p.data[packetPtr + blockSize..packetPtr + p.dataLength];
      namelen := namelen - blockSize;
      p.dataLength := p.dataLength - blockSize;
      packetPtr := packetPtr + blockSize;
    }

    /** state_process_send_file: state -= 1 leads back to the header state. */
    method FileHandler(p: Packet) returns (ret: int)
      requires Valid() && Holds(p) && state == SEND_FILE_DATA
      requires MayRun(p, SendFileStep(View(), os.w, Input(p), p.writeLen))
      modifies this`state, this`namelen, this`packetPtr, p`dataLength, p`writeLen, p.data, os
      ensures Left(p, old(SendFileStep(View(), os.w, Input(p), p.writeLen)), ret, old(p.Reply()), old(End(p)))
    {
      hide FailMsg;
      hide Ascii;
      hide WriteAll;
      hide PhaseOf;
      hide Down;
      hide Overlay;
      hide Min;
      PhaseDown(state, u);
      assert p.Reply() + [] == p.Reply();
      var block := TakeBlock(p);
      var ok := WriteBlock(u.fd, block);
      if !ok {
        PrepareFail(p, Ascii("write error"));
        return 0;
      }
      BlockDone();
      ret := 1;
    }

    /** The last byte of a block has been written. */
    method BlockDone()
      requires Valid() && state == SEND_FILE_DATA
      modifies this`state
      ensures Valid()
      ensures View() == if namelen == 0 then old(View()).(phase := Down(old(View()).phase)) else old(View())
    {
      hide PhaseOf;
      hide Down;
      PhaseDown(state, u);
      if namelen == 0 {
        state := state - 1;
      }
    }

    /** state_process_send_sym, or its absence. */
    method SymHandler(p: Packet) returns (ret: int)
      requires Valid() && Holds(p) && state == SEND_SYM_DATA
      requires MayRun(p, SendSymStep(View(), os.w, Input(p), p.writeLen))
      modifies this`state, this`size, this`packetPtr, buff, p`dataLength, p`writeLen, p.data, os`w
      ensures Left(p, old(SendSymStep(View(), os.w, Input(p), p.writeLen)), ret, old(p.Reply()), old(End(p)))
    {
      hide FailMsg;
      hide Ascii;
      hide CString;
      hide Linked;
      hide LE32;
      hide Overlay;
      hide PhaseOf;
      assert p.Reply() + [] == p.Reply();
      if !os.w.env.symlinks {
        return -1;
      }
      var r := ReadFromPacket(p, namelen);
      if r == -EAGAIN {
        return 1;
      }
      if r != 0 {
        PrepareFail(p, Ascii("read error"));
        return 0;
      }
      ret := LinkTarget(p);
    }

    /** The target is terminated in the buffer and linked. */
    method LinkTarget(p: Packet) returns (ret: int)
      requires Valid() && Holds(p) && state == SEND_SYM_DATA && size == 0 && namelen <= PATH_MAX
      requires MayRun(p, Linked(View(), os.w, Input(p), CString(buff[..namelen]), p.writeLen))
      modifies this`state, buff, p`writeLen, p.data, os`w
      ensures Left(p, old(Linked(View(), os.w, Input(p), CString(buff[..namelen]), p.writeLen)), ret,
                   old(p.Reply()), old(End(p)))
    {
      hide FailMsg;
      hide Ascii;
      hide CString;
      hide Overlay;
      hide PhaseOf;
      hide Down;
      hide Symlink;
      PhaseDown(state, u);
      assert p.Reply() + [] == p.Reply();
      if namelen >= PATH_MAX {
        PrepareFail(p, Ascii("symlink target too long"));
        return 0;
      }
      Terminate();
      var ok := os.Symlink(CString(buff[..]), u.name);
      if !ok {
        PrepareFail(p, Ascii("symlink call failed"));
        return 0;
      }
      state := state - 1;
      ret := 1;
    }

    // ---------- callbacks ----------

    /** The switch of file_sync_on_write. */
    method Handle(p: Packet) returns (ret: int)
      requires Valid() && Holds(p) && MayRun(p, Dispatch(View(), os.w, Input(p), p.writeLen))
      modifies this, buff, p, p.data, os
      ensures Left(p, old(Dispatch(View(), os.w, Input(p), p.writeLen)), ret, old(p.Reply()), old(End(p)))
    {
      hide WaitCmdStep;
      hide WaitCmdDataStep;
      hide HeaderStep;
      hide SendFileStep;
      hide SendSymStep;
      if state == WAIT_CMD {
        ret := WaitCmdHandler(p);
      } else if state == WAIT_CMD_DATA {
        ret := WaitCmdDataHandler(p);
      } else if state == SEND_FILE_HDR || state == SEND_SYM_HDR {
        ret := HeaderHandler(p);
      } else if state == SEND_FILE_DATA {
        ret := FileHandler(p);
      } else if state == SEND_SYM_DATA {
        ret := SymHandler(p);
      } else {
        assert p.Reply() + [] == p.Reply();
        ret := -1;
      }
    }

    /** One iteration of the loop: the handler, then state_reset when it is done or has failed. */
    method Iterate(p: Packet) returns (ret: int)
      requires Valid() && Holds(p) && Ready(View()) && Input(p) != []
      requires MayRun(p, Step(View(), os.w, Input(p), p.writeLen))
      modifies this, buff, p, p.data, os
      ensures Left(p, old(Step(View(), os.w, Input(p), p.writeLen)), ret, old(p.Reply()), old(End(p)))
      ensures Input(p) == Overlay(old(Step(View(), os.w, Input(p), p.writeLen)).rest, packetPtr, p.Reply())
    {
      hide Dispatch;
      hide Overlay;
      ret := Handle(p);
      if ret <= 0 {
        StateReset();
      }
      SameMemory(p.data[..], packetPtr, p.dataLength, p.writeLen);
    }

    /** Input that no reply has reached since it was stored reads as it is. */
    lemma SameMemory(mem: seq<byte>, at: nat, len: nat, used: nat)
      requires at + len <= |mem| && used <= |mem|
      ensures Overlay(mem[at..at + len], at, mem[..used]) == mem[at..at + len]
    {
    }

    /** The iteration as a turn of the loop. */
    method Advance(p: Packet) returns (ret: int)
      requires Valid() && Holds(p) && Ready(View()) && Input(p) != []
      requires |Loop(View(), os.w, End(p), Input(p), p.Reply()).reply| <= Min(p.data.Length, PAYLOAD_SIZE)
      modifies this, buff, p, p.data, os
      ensures Valid() && Holds(p) && Ready(View()) && End(p) == old(End(p))
      ensures ret >= 0 ==>
                && Loop(View(), os.w, End(p), Input(p), p.Reply())
                   == old(Loop(View(), os.w, End(p), Input(p), p.Reply()))
                && Measure(View(), Input(p)) < old(Measure(View(), Input(p)))
      ensures ret < 0 ==>
                Fed(View(), os.w, p.Reply(), ret) == old(Loop(View(), os.w, End(p), Input(p), p.Reply()))
    {
      hide Step;
      hide Loop;
      hide Overlay;
      hide PhaseOf;
      hide Ready;
      hide InData;
      hide Min;
      LoopFirst(View(), os.w, End(p), Input(p), p.Reply());
      LoopGrows(View(), os.w, End(p), Input(p), p.Reply());
      ret := Iterate(p);
    }

    /** file_sync_on_write, as long as the replies fit the packet. */
    method OnWrite(p: Packet) returns (ret: int)
      requires Valid() && Ready(View()) && p.data != buff && p.dataLength <= p.data.Length && p.writeLen == 0
      requires |Feed(View(), os.w, p.data[..p.dataLength]).reply| <= Min(p.data.Length, PAYLOAD_SIZE)
      modifies this, buff, p, p.data, os
      ensures Valid() && Holds(p)
      ensures Fed(View(), os.w, p.Reply(), ret) == Feed(old(View()), old(os.w), old(p.data[..p.dataLength]))
    {
      hide Step;
      hide Loop;
      hide Overlay;
      hide PhaseOf;
      hide Ready;
      hide InData;
      hide Min;
      packetPtr := 0;
      ret := 0;
      ghost var end := p.dataLength;
      ghost var all := Feed(View(), os.w, Input(p));
      assert p.Reply() == [];
      while p.dataLength > 0 && ret >= 0
        invariant Valid() && Holds(p) && Ready(View()) && End(p) == end
        invariant |all.reply| <= Min(p.data.Length, PAYLOAD_SIZE)
        invariant ret >= 0 ==> Loop(View(), os.w, end, Input(p), p.Reply()) == all
        invariant ret < 0 ==> all == Fed(View(), os.w, p.Reply(), ret)
        decreases if ret < 0 then 0 else 1 + Measure(View(), Input(p))
      {
        ret := Advance(p);
      }
      LoopEnds(View(), os.w, end, p.Reply());
      return if ret >= 0 then 0 else ret;
    }

    lemma LoopGrows(a: Afs, w: World, end: nat, input: seq<byte>, reply: seq<byte>)
      requires Ready(a) && 0 < |input| <= end
      ensures |reply| + |Step(a, w, input, |reply|).reply| <= |Loop(a, w, end, input, reply).reply|
    {
      hide Step;
    }

    /** file_sync_on_ack. */
    method OnAck(p: Packet) returns (ret: int)
      requires Valid() && Ready(View()) && p.data != buff && p.dataLength <= p.data.Length && p.writeLen == 0
      requires |Ack(View(), os.w).reply| <= Min(p.data.Length, PAYLOAD_SIZE)
      modifies this, buff, p, p.data, os
      ensures Valid() && Holds(p)
      ensures Fed(View(), os.w, p.Reply(), ret) == Ack(old(View()), old(os.w))
    {
      hide DataMsg;
      hide DentMsg;
      hide FailMsg;
      hide Ascii;
      hide Overlay;
      hide RecvStep;
      hide ListStep;
      packetPtr := 0;
      AnyRest(View(), os.w, Input(p));
      assert p.Reply() == [];
      if state == PROCESS_RECV {
        ret := ProcessRecv(p);
      } else if state == PROCESS_LIST {
        ret := ProcessList(p);
      } else if state == SEND_FILE_HDR || state == SEND_SYM_HDR || state == WAIT_CMD {
        ret := 0;
      } else {
        ret := -1;
      }
      if ret > 0 {
        return 0;
      }
      StateReset();
    }

    /** file_sync_on_close. */
    method OnClose()
      requires Valid()
      modifies this`state, this`size, os`w
      ensures Valid() && (View(), os.w) == Reset(old(View()), old(os.w))
    {
      StateReset();
    }
  }
}
