/** Incremental reassembly refines the one-shot decoder, over every run of a client. */
module ClientReassembly {
  import opened Bytes
  import opened Frame
  import opened Decoder
  import opened ClientSpec
  import opened ClientLedger

  /** The bytes of the incomplete packet. */
  function Partial(s: State): seq<byte> {
    if s.cur.Some? then s.cur.value.got else []
  }

  /** The receiver against the decoder over everything read so far: the same frames have been
      delivered, what is buffered is what the decoder has left over, and the client is closed for
      a bad frame exactly when the decoder refuses one, with no byte read past it. */
  ghost predicate Refines(s: State) {
    var d := Decode(false, s.rx);
    && d.frames == Delivered(s.log)
    && (if s.rejected then !s.open && d.ending == Rejected([])
        else d.ending == More(Partial(s)) && d.connected == s.isConnected)
  }

  /** Nothing the receiver depends on has changed. */
  ghost predicate Still(s: State, s1: State) {
    && s1.rx == s.rx && s1.rejected == s.rejected && s1.isConnected == s.isConnected
    && Partial(s1) == Partial(s)
    && Delivered(s1.log) == Delivered(s.log)
  }

  /** A received and incomplete packet has a good header, so some bytes are still to come. */
  lemma PartialFacts(s: State)
    requires Refines(s) && !s.rejected
    ensures OfferedLength(Partial(s)) > 0
    ensures |Partial(s)| >= HEADER_SIZE ==> HeaderOk(s.isConnected, ParseHeader(Partial(s))) && !Complete(Partial(s))
  {
    hide HeaderOk;
    hide DataOk;
    hide ParseHeader;
    RestIsIncomplete(false, s.rx);
    DecodeFirst(s.isConnected, Partial(s));
  }

  /** The three possible ends of a read, seen by the decoder. */
  lemma DecodeRead(connected: bool, before: seq<byte>, chunk: seq<byte>)
    requires |before| >= HEADER_SIZE ==> HeaderOk(connected, ParseHeader(before)) && !Complete(before)
    requires 0 < |chunk| <= OfferedLength(before)
    ensures var got := before + chunk;
            var d := Decode(connected, got);
            if |before| < HEADER_SIZE <= |got| && !HeaderOk(connected, ParseHeader(got)) then
              d == Decoded([], connected, Rejected([]))
            else if !Complete(got) then d == Decoded([], connected, More(got))
            else
              var p := PacketOf(0, got);
              if !DataOk(p.msg, p.data) then d == Decoded([], connected, Rejected([]))
              else d == Decoded([Frame(p.msg.command, p.msg.arg0, p.msg.arg1, p.data)],
                                connected || p.msg.command == A_CNXN, More([]))
  {
    var got := before + chunk;
    if |before| >= HEADER_SIZE {
      HeaderPrefix(before, chunk);
    }
    hide HeaderOk;
    hide DataOk;
    hide ParseHeader;
    if |got| >= HEADER_SIZE {
      var m := ParseHeader(got);
      var end := HEADER_SIZE + m.dataLength;
      if |before| < HEADER_SIZE {
        assert |got| == HEADER_SIZE && got[HEADER_SIZE..] == [];
      }
      if HeaderOk(connected, m) && |got| >= end {
        assert |got| == end && got[HEADER_SIZE..end] == got[HEADER_SIZE..] && got[end..] == [];
        AfterAll([], [], Decode(connected || m.command == A_CNXN, []));
      }
    }
  }

  /** The receiver moves on by what the decoder makes of the pending bytes. */
  lemma RefinesOn(s: State, chunk: seq<byte>, s1: State)
    requires Refines(s) && !s.rejected && s1.rx == s.rx + chunk
    requires var e := Decode(s.isConnected, Partial(s) + chunk);
             && Delivered(s1.log) == Delivered(s.log) + e.frames
             && (if s1.rejected then !s1.open && e.ending == Rejected([])
                 else e.ending == More(Partial(s1)) && e.connected == s1.isConnected)
    ensures Refines(s1)
  {
    DecodeAppend(false, s.rx, chunk);
  }

  lemma OnDataRefines(s: State, chunk: seq<byte>, env: Env)
    requires Refines(s) && !s.rejected && s.cur.Some? && 0 < |chunk| <= OfferedLength(s.cur.value.got)
    ensures Refines(OnData(s, chunk, env))
  {
    hide Refines;
    hide Decode;
    hide Delivered;
    hide HeaderOk;
    hide DataOk;
    hide ProcessPacket;
    hide ParseHeader;
    hide After;
    PartialFacts(s);
    DecodeRead(s.isConnected, s.cur.value.got, chunk);
    var got := s.cur.value.got + chunk;
    if Complete(got) {
      DeliverStill(s.(rx := s.rx + chunk, cur := None), PacketOf(s.cur.value.pid, got), env);
    }
    assert Delivered(s.log) + [] == Delivered(s.log);
    RefinesOn(s, chunk, OnData(s, chunk, env));
  }

  lemma DeliverStill(s: State, p: Packet, env: Env)
    requires s.cur == None
    ensures var s1 := ProcessPacket(Log(s, Got(p.pid, p.msg, p.data)), p, env);
            && s1.isConnected == (s.isConnected || p.msg.command == A_CNXN)
            && s1.rx == s.rx && s1.rejected == s.rejected && s1.cur == None
            && Delivered(s1.log) == Delivered(s.log) + [Frame(p.msg.command, p.msg.arg0, p.msg.arg1, p.data)]
  {
    hide ProcessPacket;
    GotDelivered(s.log, p);
    ProcessMoved(Log(s, Got(p.pid, p.msg, p.data)), p, env);
  }

  lemma GotDelivered(log: seq<Entry>, p: Packet)
    ensures Delivered(log + [Got(p.pid, p.msg, p.data)])
         == Delivered(log) + [Frame(p.msg.command, p.msg.arg0, p.msg.arg1, p.data)]
  {
    assert (log + [Got(p.pid, p.msg, p.data)])[..|log|] == log;
  }

  lemma StillRefines(s: State, s1: State)
    requires Refines(s) && !s.rejected && Still(s, s1)
    ensures Refines(s1)
  {
  }

  lemma SendStill(s: State, p: Packet, ok: bool)
    ensures Still(s, SendFrame(s, p, ok))
  {
    SendMoved(s, p, ok);
  }

  lemma CloseStill(s: State, k: nat, p: Option<Packet>, ok: bool)
    requires k < |s.services|
    ensures Still(s, CloseService(s, k, p, ok))
  {
    hide CloseService;
    CloseMoved(s, k, p, ok);
  }

  lemma ReleaseStill(s: State, pid: nat, ok: bool)
    ensures Still(s, Release(s, pid, ok))
  {
    hide Release;
    ReleaseMoved(s, pid, ok);
  }

  lemma TransportRefines(s: State, avail: seq<byte>, env: Env)
    requires Refines(s) && !s.rejected
    ensures Refines(TransportRead(s, avail, env)) && Refines(TransportError(s))
  {
    hide OnData;
    hide Release;
    hide OfferedLength;
    var s1 := AllocateFrame(s);
    StillRefines(s, s1);
    if s1.cur.None? {
      StillRefines(s1, s1.(reading := false));
    } else {
      StillRefines(s1, s1.(open := false));
      var n := Min(|avail|, OfferedLength(s1.cur.value.got));
      if n > 0 {
        OnDataRefines(s1, avail[..n], env);
      } else if |s1.cur.value.got| <= 0 {
        ReleaseStill(s1.(cur := None), s1.cur.value.pid, env.writeOk);
        StillRefines(s1, Release(s1.(cur := None), s1.cur.value.pid, env.writeOk));
      }
    }
  }

  lemma StillAfter(s: State, s1: State, s2: State)
    requires Still(s, s1) && Moved(s1, s2, None)
    ensures Still(s, s2)
  {
  }

  lemma FailsStill(s: State, k: nat)
    requires k < |s.services| && s.services[k].priv.Stream?
    ensures Still(s, ConnectFails(s, k))
  {
    LedgerAppend(s.log, ConnectFailed(s.services[k].handle));
    hide Delivered;
  }

  lemma ConnectStill(s: State, k: nat, failed: bool, ok: bool)
    requires k < |s.services| && s.services[k].priv.Stream?
    ensures Still(s, ConnectDone(s, k, failed, ok))
  {
    hide TryClose;
    hide TryConnect;
    hide Delivered;
    hide Moved;
    hide ConnectFails;
    var v := s.services[k];
    var s1 := if failed || v.priv.state != NotConnected then ConnectFails(s, k)
              else SetPrivate(s, k, Stream(NotifyClient, v.priv.reading));
    FailsStill(s, k);
    TryMoved(s1, k, ok);
    assert Still(s, s1);
    hide Still;
    StillAfter(s, s1, ConnectDone(s, k, failed, ok));
  }

  lemma WriteDoneStill(s: State, i: nat, failed: bool, ok: bool)
    requires i < |s.requests|
    ensures Still(s, WriteDone(s, i, failed, ok))
  {
    hide Release;
    hide CloseService;
    hide SendFrame;
    var p := s.requests[i].packet;
    var s1 := s.(requests := Cut(s.requests, i));
    match s.requests[i].target
    case Transport =>
      if failed || p.writeLen == 0 {
        ReleaseStill(s1, p.pid, ok);
      } else {
        SendStill(s1, p.(msg := p.msg.(command := A_WRTE, dataLength := p.writeLen), writeLen := 0), ok);
      }
    case Socket(h) =>
      var k := OwnerFrom(s.services, 0, h);
      if k.Some? && failed {
        CloseStill(s1, k.value, Some(p), ok);
      } else if k.Some? {
        SendStill(s1, Headed(p.(writeLen := 0), A_OKAY, s.services[k.value].id, s.services[k.value].peer, 0), ok);
      }
  }

  lemma StreamDataStill(s: State, k: nat, p: Packet, ok: bool)
    requires k < |s.services|
    ensures Still(s, OnStreamData(s, k, p, ok))
  {
    hide CloseService;
    hide SendFrame;
    var v := s.services[k];
    if !(v.priv.Stream? && v.priv.state == Connected) || p.msg.dataLength <= 0 {
      CloseStill(s, k, Some(p), ok);
    } else {
      var q := p.(msg := Message(A_WRTE, v.id, v.peer, p.msg.dataLength, p.msg.dataCheck, p.msg.magic), writeLen := 0);
      SendStill(SetPrivate(s, k, Stream(WaitAck, false)), q, ok);
    }
  }

  lemma StillThrough(s: State, s1: State, s2: State)
    requires Still(s, s1) && Still(s1, s2)
    ensures Still(s, s2)
  {
  }

  /** A packet is taken, bytes are read, a service changes its state. */
  lemma FetchStill(s: State, k: nat, bytes: seq<byte>, priv: Private)
    requires k < |s.services|
    ensures var s1 := Allocate(s).0;
            && Still(s, s1) && Still(s, SetPrivate(s1, k, priv))
            && Still(s, SetPrivate(Log(s1, Fetched(s.services[k].handle, bytes)), k, priv))
  {
    hide Delivered;
    LedgerAppend(s.log, Fetched(s.services[k].handle, bytes));
  }

  lemma StreamReadStill(s: State, k: nat, avail: seq<byte>, failed: bool, ok: bool)
    requires k < |s.services| && s.services[k].priv.Stream?
    ensures Still(s, StreamRead(s, k, avail, failed, ok))
  {
    hide OnStreamData;
    hide Release;
    hide Still;
    var state, bytes := s.services[k].priv.state, Readable(avail);
    var (s1, pid) := Allocate(s);
    FetchStill(s, k, bytes, Stream(state, false));
    if pid.Some? {
      var s2 := SetPrivate(Log(s1, Fetched(s.services[k].handle, bytes)), k, Stream(state, false));
      StreamDataStill(s1, k, Filled(pid.value, []), ok);
      StreamDataStill(s2, k, Filled(pid.value, bytes), ok);
      ReleaseStill(s1, pid.value, ok);
      var s0 := if failed || bytes == [] then s1 else s2;
      StillThrough(s, s0, StreamRead(s, k, avail, failed, ok));
    }
  }

  lemma ShellReadStill(s: State, k: nat, avail: seq<byte>, failed: bool, ok: bool)
    requires k < |s.services| && s.services[k].priv.Shell?
    ensures Still(s, ShellRead(s, k, avail, failed, ok))
  {
    hide CloseService;
    hide SendFrame;
    hide Still;
    var v, bytes := s.services[k], Readable(avail);
    var (s1, pid) := Allocate(s);
    FetchStill(s, k, bytes, Shell(v.priv.waitAck, false));
    FetchStill(s, k, bytes, Shell(true, false));
    if pid.Some? {
      var s2, p := SetPrivate(Log(s1, Fetched(v.handle, bytes)), k, Shell(true, false)), Filled(pid.value, bytes);
      CloseStill(s1, k, Some(Fresh(pid.value)), ok);
      SendStill(s2, p.(msg := Message(A_WRTE, v.id, v.peer, |bytes|, 0, 0), writeLen := 0), ok);
      var s0 := if failed || bytes == [] then s1 else s2;
      StillThrough(s, s0, ShellRead(s, k, avail, failed, ok));
    }
  }

  lemma StepRefines(s: State, e: Event, env: Env)
    requires Refines(s) && Enabled(s, e)
    ensures Refines(Step(s, e, env))
  {
    assert !s.rejected;
    hide Refines;
    hide TransportRead;
    hide TransportError;
    hide ConnectDone;
    hide WriteDone;
    hide StreamRead;
    hide ShellRead;
    match e
    case ReadTransport(avail) => TransportRefines(s, avail, env);
    case FailTransport => TransportRefines(s, [], env);
    case CompleteWrite(i, failed) =>
      WriteDoneStill(s, i, failed, env.writeOk);
      StillRefines(s, Step(s, e, env));
    case CompleteConnect(k, failed) =>
      ConnectStill(s, k, failed, env.writeOk);
      StillRefines(s, Step(s, e, env));
    case ReadService(k, avail, failed) =>
      if s.services[k].priv.Stream? {
        StreamReadStill(s, k, avail, failed, env.writeOk);
      } else {
        ShellReadStill(s, k, avail, failed, env.writeOk);
      }
      StillRefines(s, Step(s, e, env));
  }

  lemma AllocateRefines(s: State)
    requires Refines(s) && !s.rejected
    ensures Refines(AllocateFrame(s)) && !AllocateFrame(s).rejected
  {
    StillRefines(s, AllocateFrame(s));
  }
}
