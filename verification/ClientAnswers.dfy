/** What a client answers to each frame and to each completed write, field by field. */
module ClientAnswers {
  import opened Bytes
  import opened Frame
  import opened ClientSpec
  import opened ClientInvariant
  import opened ClientSafety
  import opened ClientRuns

  const CNXN: seq<byte> := [67, 78, 88, 78]
  const OPEN: seq<byte> := [79, 80, 69, 78]
  const OKAY: seq<byte> := [79, 75, 65, 89]
  const CLSE: seq<byte> := [67, 76, 83, 69]
  const WRTE: seq<byte> := [87, 82, 84, 69]

  /** The entry offers the packet to the transport as a frame with these fields. */
  predicate Sends(e: Entry, pid: nat, command: seq<byte>, arg0: nat, arg1: nat, payload: seq<byte>) {
    && e.Offered? && e.pid == pid && e.payload == payload
    && LE32(e.msg.command) == command && e.msg.arg0 == arg0 && e.msg.arg1 == arg1
    && e.msg.dataLength == |payload|
  }

  /** A delivered frame: its payload is as long as its header says. */
  predicate Whole(p: Packet) {
    p.msg.command < WORD && p.msg.dataLength == |p.data|
  }

  lemma LettersOf(m: Message)
    requires m.command < WORD
    ensures LE32(m.command) == CNXN <==> m.command == A_CNXN
    ensures LE32(m.command) == OPEN <==> m.command == A_OPEN
    ensures LE32(m.command) == OKAY <==> m.command == A_OKAY
    ensures LE32(m.command) == CLSE <==> m.command == A_CLSE
    ensures LE32(m.command) == WRTE <==> m.command == A_WRTE
  {
    CommandsAreLetters();
    WordOfLE32(m.command);
    WordOfLE32(A_CNXN);
    WordOfLE32(A_OPEN);
    WordOfLE32(A_OKAY);
    WordOfLE32(A_CLSE);
    WordOfLE32(A_WRTE);
    hide LE32;
  }

  lemma OkaySends(s: State, p: Packet, local: nat, remote: nat, ok: bool)
    ensures var s1 := SendOkayWithData(s, p, local, remote, ok);
            && |s1.log| == |s.log| + 1 && s1.log[..|s.log|] == s.log
            && Sends(s1.log[|s.log|], p.pid, OKAY, local, remote, [])
            && s1.services == s.services && s1.nextId == s.nextId
            && (ok ==> s1.requests == s.requests + [s1.requests[|s.requests|]]
                       && s1.requests[|s.requests|].packet.(msg := p.msg) == p)
  {
    hide LE32;
    CommandsAreLetters();
  }

  lemma CloseSends(s: State, p: Packet, local: nat, remote: nat, ok: bool)
    ensures var s1 := SendClose(s, p, local, remote, ok);
            && |s1.log| == |s.log| + 1 && s1.log[..|s.log|] == s.log
            && Sends(s1.log[|s.log|], p.pid, CLSE, local, remote, [])
            && s1.services == s.services && s1.nextId == s.nextId
  {
    hide LE32;
    CommandsAreLetters();
  }

  /** A service that is closed with a packet at hand says so to its peer. */
  lemma ServiceCloses(s: State, k: nat, p: Packet, ok: bool)
    requires k < |s.services|
    ensures var s1, v := CloseService(s, k, Some(p), ok), s.services[k];
            && |s1.log| == |s.log| + 2 && s1.log[..|s.log|] == s.log && s1.services == Cut(s.services, k)
            && Sends(s1.log[|s.log|], p.pid, CLSE, v.id, v.peer, []) && s1.log[|s.log| + 1] == Closed(v.handle)
  {
    hide SendClose;
    hide NotFor;
    hide QueuedFor;
    hide Sends;
    var v := s.services[k];
    CloseSends(s.(services := Cut(s.services, k)), p, v.id, v.peer, ok);
  }

  // ---------- CNXN ----------

  /** A CNXN is answered by a CNXN in the same packet, with the version, the payload limit and the banner, and
      the client is connected. */
  lemma ConnectAnswered(s: State, p: Packet, env: Env)
    requires Whole(p) && LE32(p.msg.command) == CNXN
    ensures var s1 := ProcessPacket(s, p, env);
            && |s1.log| == |s.log| + 1 && s1.log[..|s.log|] == s.log
            && Sends(s1.log[|s.log|], p.pid, CNXN, 0x0100_0000, PAYLOAD_SIZE, BANNER)
            && s1.isConnected && s1.services == s.services && s1.nextId == s.nextId
  {
    hide LE32;
    LettersOf(p.msg);
    CommandsAreLetters();
  }

  // ---------- OPEN ----------

  const SYNC: seq<byte> := [115, 121, 110, 99, 58]
  const TCP: seq<byte> := [116, 99, 112, 58]
  const SHELL: seq<byte> := [115, 104, 101, 108, 108]

  /** The name of a service: the payload without its last byte. */
  function NameIn(p: Packet): seq<byte> {
    if p.data == [] then [] else p.data[..|p.data| - 1]
  }

  /** An OPEN without a local id of the peer, or with an id for this side, is dropped. */
  lemma OpenIgnored(s: State, p: Packet, env: Env)
    requires Whole(p) && LE32(p.msg.command) == OPEN && (p.msg.arg0 == 0 || p.msg.arg1 != 0)
    ensures ProcessPacket(s, p, env) == Release(s, p.pid, env.writeOk)
  {
    hide LE32;
    LettersOf(p.msg);
  }

  /** An OPEN of the sync service or of a shell registers it, in front of the others and under the next id, and is
      answered by an OKAY with this id and the id of the peer. */
  lemma OpenAnswered(s: State, p: Packet, env: Env)
    requires Whole(p) && LE32(p.msg.command) == OPEN && p.msg.arg0 != 0 && p.msg.arg1 == 0 && env.refused.None?
    requires SYNC <= NameIn(p) || SHELL <= NameIn(p)
    ensures var priv := if SYNC <= NameIn(p) then Sync else Shell(false, true);
            Opened(s, ProcessPacket(s, p, env), p.pid, p.msg.arg0, priv)
  {
    hide LE32;
    hide SendOkayWithData;
    hide RegisterService;
    hide Opened;
    LettersOf(p.msg);
    NameParts(p, env);
    hide OpeningOf;
    hide NameIn;
    NewService(s, p.(writeLen := 0), if SYNC <= NameIn(p) then Sync else Shell(false, true), env.writeOk);
  }

  /** From s to s1 a service was registered and its peer was told the id. */
  predicate Opened(s: State, s1: State, pid: nat, peer: nat, priv: Private) {
    var id := s.nextId;
    && |s1.log| == |s.log| + 2 && s1.log[..|s.log|] == s.log
    && s1.log[|s.log|] == Registered(id, peer)
    && Sends(s1.log[|s.log| + 1], pid, OKAY, id, peer, [])
    && s1.services == [Service(id, id, peer, priv)] + s.services
    && s1.nextId == id + 1
  }

  lemma NewService(s: State, p: Packet, priv: Private, ok: bool)
    ensures var s1 := RegisterService(s, p.msg.arg0, priv);
            Opened(s, SendOkayWithData(s1, p, s.nextId, p.msg.arg0, ok), p.pid, p.msg.arg0, priv)
  {
    hide SendOkayWithData;
    hide Sends;
    OkaySends(RegisterService(s, p.msg.arg0, priv), p, s.nextId, p.msg.arg0, ok);
  }

  /** What the names stand for; no name begins like two of them. */
  lemma NameParts(p: Packet, env: Env)
    requires Whole(p) && env.refused.None?
    ensures OpeningOf(p.(writeLen := 0), env) ==
            if SYNC <= NameIn(p) then Opens(Sync)
            else if TCP <= NameIn(p) then Opens(Stream(NotConnected, false))
            else if SHELL <= NameIn(p) then Opens(Shell(false, true))
            else Refused([])
    ensures SYNC <= NameIn(p) ==> !(TCP <= NameIn(p)) && !(SHELL <= NameIn(p))
    ensures SHELL <= NameIn(p) ==> !(TCP <= NameIn(p))
  {
    assert Payload(p) == p.data && Payload(p.(writeLen := 0)) == p.data;
    assert SYNC[0] == 115 && TCP[0] == 116 && SHELL[0] == 115 && SYNC[1] == 121 && SHELL[1] == 104;
    hide Payload;
  }

  /** An OPEN of a forward stream registers it and answers nothing yet: the OKAY follows when its socket has
      connected. */
  lemma ForwardOpened(s: State, p: Packet, env: Env)
    requires Whole(p) && LE32(p.msg.command) == OPEN && p.msg.arg0 != 0 && p.msg.arg1 == 0 && env.refused.None?
    requires TCP <= NameIn(p)
    ensures ProcessPacket(s, p, env)
         == Release(s.(nextId := s.nextId + 1, log := s.log + [Registered(s.nextId, p.msg.arg0)],
                       services := [Service(s.nextId, s.nextId, p.msg.arg0, Stream(NotConnected, false))] + s.services),
                    p.pid, env.writeOk)
  {
    hide LE32;
    LettersOf(p.msg);
    NameParts(p, env);
    hide Release;
    hide OpeningOf;
  }

  /** An OPEN of an unknown name, or one that is refused without a reply, is answered by a CLSE with local id zero;
      one that is refused with a reply by an OKAY under the next id, which the reply waits behind. Neither lists
      a service. */
  lemma OpenRefused(s: State, p: Packet, env: Env)
    requires Whole(p) && LE32(p.msg.command) == OPEN && p.msg.arg0 != 0 && p.msg.arg1 == 0
    requires env.refused.None? ==> !(SYNC <= NameIn(p)) && !(TCP <= NameIn(p)) && !(SHELL <= NameIn(p))
    ensures var s1, reply := ProcessPacket(s, p, env), if env.refused.Some? then env.refused.value else [];
            && |s1.log| == |s.log| + 1 && s1.log[..|s.log|] == s.log && s1.services == s.services
            && (if reply == [] then
                  Sends(s1.log[|s.log|], p.pid, CLSE, 0, p.msg.arg0, []) && s1.nextId == s.nextId
                else
                  && Sends(s1.log[|s.log|], p.pid, OKAY, s.nextId, p.msg.arg0, []) && s1.nextId == s.nextId + 1
                  && (env.writeOk ==>
                        && |s1.requests| == |s.requests| + 1
                        && (var q := s1.requests[|s.requests|].packet;
                            q.pid == p.pid && q.data == reply && q.writeLen == |reply|)))
  {
    hide LE32;
    hide SendOkayWithData;
    hide SendClose;
    hide Sends;
    LettersOf(p.msg);
    if env.refused.None? {
      NameParts(p, env);
    }
    var q, reply := p.(writeLen := 0), if env.refused.Some? then env.refused.value else [];
    assert OpeningOf(q, env) == Refused(reply);
    hide OpeningOf;
    hide Payload;
    CloseSends(s, q, 0, p.msg.arg0, env.writeOk);
    OkaySends(s.(nextId := s.nextId + 1), q.(data := reply, writeLen := |reply|), s.nextId, p.msg.arg0, env.writeOk);
  }

  // ---------- WRTE, OKAY, CLSE and the rest ----------

  /** A WRTE or OKAY that finds no service is answered by a CLSE with the two ids exchanged. */
  lemma StrayAnswered(s: State, p: Packet, env: Env)
    requires Whole(p) && (LE32(p.msg.command) == WRTE || LE32(p.msg.command) == OKAY)
    requires forall v :: v in s.services ==>
               v.id != p.msg.arg1 || (LE32(p.msg.command) == WRTE && p.msg.arg0 != 0 && v.peer != p.msg.arg0)
    ensures var s1 := ProcessPacket(s, p, env);
            && |s1.log| == |s.log| + 1 && s1.log[..|s.log|] == s.log && s1.services == s.services
            && Sends(s1.log[|s.log|], p.pid, CLSE, p.msg.arg1, p.msg.arg0, [])
  {
    hide LE32;
    hide SendClose;
    hide Sends;
    LettersOf(p.msg);
    FindFirst(s.services, 0, p.msg.arg1, GotPeer(p.msg));
    var q := p.(writeLen := 0);
    assert ProcessPacket(s, p, env) == SendClose(s, q, p.msg.arg1, p.msg.arg0, env.writeOk);
    CloseSends(s, q, p.msg.arg1, p.msg.arg0, env.writeOk);
  }

  /** A WRTE for a connected stream or a shell is queued on its socket whole, and answered only when that write has
      completed; if the service is not connected or its socket refuses, it is closed by a CLSE with its ids. */
  lemma WriteAnswered(s: State, p: Packet, env: Env, k: nat)
    requires Whole(p) && LE32(p.msg.command) == WRTE && Find(s.services, p.msg.arg1, p.msg.arg0) == Some(k)
    requires !s.services[k].priv.Sync?
    ensures var s1, v := ProcessPacket(s, p, env), s.services[k];
            if Accepts(v.priv) && env.socketOk then
              && s1.log == s.log + [Passed(p.pid, v.handle, p.data)] && s1.services == s.services
              && s1.requests == s.requests + [Request(Socket(v.handle), p.(writeLen := 0))]
            else
              && |s1.log| == |s.log| + 2 && s1.log[..|s.log|] == s.log && s1.services == Cut(s.services, k)
              && Sends(s1.log[|s.log|], p.pid, CLSE, v.id, v.peer, [])
              && s1.log[|s.log| + 1] == Closed(v.handle)
  {
    hide LE32;
    hide CloseService;
    hide Sends;
    LettersOf(p.msg);
    var q := p.(writeLen := 0);
    assert Payload(q) == p.data;
    hide Payload;
    ServiceCloses(s, k, q, env.writeOk);
  }

  /** A CLSE closes the service with this id and peer, if there is one, without an answer; its packet is released
      and no other service is closed for it. */
  lemma CloseAnswered(s: State, p: Packet, env: Env)
    requires Whole(p) && LE32(p.msg.command) == CLSE
    ensures (forall v :: v in s.services ==> v.id != p.msg.arg1 || (p.msg.arg0 != 0 && v.peer != p.msg.arg0)) ==>
              ProcessPacket(s, p, env) == Release(s, p.pid, env.writeOk)
    ensures forall k :: 0 <= k < |s.services| && Find(s.services, p.msg.arg1, p.msg.arg0) == Some(k) ==>
              && s.services[k].id == p.msg.arg1 && (p.msg.arg0 == 0 || s.services[k].peer == p.msg.arg0)
              && exists s1 :: ProcessPacket(s, p, env) == Release(s1, p.pid, env.writeOk)
                              && s1.services == s.services[..k] + s.services[k + 1..]
                              && s1.log == s.log + [Closed(s.services[k].handle)]
  {
    hide LE32;
    hide Release;
    hide CloseService;
    LettersOf(p.msg);
    FindFirst(s.services, 0, p.msg.arg1, p.msg.arg0);
    forall k | 0 <= k < |s.services| && Find(s.services, p.msg.arg1, p.msg.arg0) == Some(k)
      ensures exists s1 :: ProcessPacket(s, p, env) == Release(s1, p.pid, env.writeOk)
                           && s1.services == s.services[..k] + s.services[k + 1..]
                           && s1.log == s.log + [Closed(s.services[k].handle)]
    {
      SilentClose(s, k, env.writeOk);
      var s1 := CloseService(s, k, None, env.writeOk);
      assert ProcessPacket(s, p, env) == Release(s1, p.pid, env.writeOk);
    }
  }

  lemma SilentClose(s: State, k: nat, ok: bool)
    requires k < |s.services|
    ensures var s1 := CloseService(s, k, None, ok);
            s1.services == s.services[..k] + s.services[k + 1..] && s1.log == s.log + [Closed(s.services[k].handle)]
  {
  }

  /** An unknown command closes the client; its packet is released. */
  lemma UnknownCommand(s: State, p: Packet, env: Env)
    requires Whole(p) && LE32(p.msg.command) !in {CNXN, OPEN, OKAY, CLSE, WRTE}
    ensures var s1 := ProcessPacket(s, p, env); !s1.open && s1 == Release(s, p.pid, env.writeOk).(open := false)
  {
    hide LE32;
    LettersOf(p.msg);
    hide Release;
  }

  // ---------- completed writes ----------

  /** A completed write on the socket of a listed service is acknowledged by an OKAY with its ids, in the packet
      of the WRTE; a failed one closes the service by a CLSE with them. */
  lemma SocketWritten(s: State, i: nat, failed: bool, ok: bool, k: nat)
    requires i < |s.requests| && s.requests[i].target.Socket? && k < |s.services| && Descending(s.services)
    requires s.services[k].handle == s.requests[i].target.handle
    ensures var s1, v, pid := WriteDone(s, i, failed, ok), s.services[k], s.requests[i].packet.pid;
            && |s1.log| == |s.log| + (if failed then 2 else 1) && s1.log[..|s.log|] == s.log
            && Sends(s1.log[|s.log|], pid, if failed then CLSE else OKAY, v.id, v.peer, [])
            && (failed ==> s1.log[|s.log| + 1] == Closed(v.handle))
            && s1.services == if failed then Cut(s.services, k) else s.services
  {
    hide CloseService;
    hide SendOkayWithData;
    hide Sends;
    var v, p := s.services[k], s.requests[i].packet;
    assert OwnerFrom(s.services, 0, v.handle) == Some(k);
    hide OwnerFrom;
    var s1 := s.(requests := Cut(s.requests, i));
    ServiceCloses(s1, k, p, ok);
    OkaySends(s1, p.(writeLen := 0), v.id, v.peer, ok);
  }

  /** A failed write on the transport closes the client; the packet is released and its reply dropped. */
  lemma TransportWriteFailed(s: State, i: nat, ok: bool)
    requires i < |s.requests| && s.requests[i].target == Transport
    ensures WriteDone(s, i, true, ok)
         == Release(s.(requests := s.requests[..i] + s.requests[i + 1..]), s.requests[i].packet.pid, ok).(open := false)
  {
    hide Release;
  }

  // ---------- reads ----------

  /** A read of a service that ends it: a failed one of a connected stream, and one that fails or finds the end for a
      shell, are answered by a CLSE with its ids. A read of a stream that finds nothing changes nothing but the
      released packet. */
  lemma ReadEnds(s: State, k: nat, failed: bool, ok: bool)
    requires k < |s.services| && !s.services[k].priv.Sync? && s.frameCount < FRAME_MAX
    ensures var s1, v := ServiceRead(s, k, [], failed, ok), s.services[k];
            if v.priv.Shell? || failed then
              && |s1.log| == |s.log| + 2 && s1.log[..|s.log|] == s.log && s1.services == Cut(s.services, k)
              && Sends(s1.log[|s.log|], s.nextPid, CLSE, v.id, v.peer, [])
              && s1.log[|s.log| + 1] == Closed(v.handle)
            else s1 == s.(nextPid := s.nextPid + 1, log := s.log + [Freed(s.nextPid)])
  {
    hide CloseService;
    hide Sends;
    hide KickFrom;
    var v, s1 := s.services[k], Allocate(s).0;
    ServiceCloses(s1, k, Fresh(s.nextPid), ok);
    ServiceCloses(s1, k, Filled(s.nextPid, []), ok);
  }

  /** Without a packet at hand nothing is read: the reader stops and the pool is marked. */
  lemma ReadStops(s: State, k: nat, avail: seq<byte>, failed: bool, env: Env)
    requires s.frameCount >= FRAME_MAX
    ensures k < |s.services| && !s.services[k].priv.Sync? ==>
              var s1, v := ServiceRead(s, k, avail, failed, env.writeOk), s.services[k];
              && s1 == s.(frameCount := FRAME_MAX + 1, services := s1.services)
              && s1.services == s.services[k := v.(priv := v.priv.(reading := false))]
    ensures s.cur.None? ==> TransportRead(s, avail, env) == s.(frameCount := FRAME_MAX + 1, reading := false)
  {
    hide CloseService;
    hide SendFrame;
    hide KickFrom;
  }

  /** A readable transport that delivers nothing: the packet is given back unless part of a frame is in it. */
  lemma NothingRead(s: State, env: Env)
    ensures s.cur.Some? && s.cur.value.got != [] ==> TransportRead(s, [], env) == s
    ensures s.cur.None? && s.frameCount < FRAME_MAX ==>
              TransportRead(s, [], env) == s.(nextPid := s.nextPid + 1, log := s.log + [Freed(s.nextPid)])
  {
    hide OnData;
    hide KickFrom;
    if s.cur.Some? {
      assert AllocateFrame(s) == s;
    }
  }

  /** A failed read of the transport closes the client, if a packet is at hand for it. */
  lemma TransportFails(s: State)
    ensures s.cur.Some? || s.frameCount < FRAME_MAX ==> !TransportError(s).open
    ensures TransportError(s).log == s.log && TransportError(s).services == s.services
  {
  }

  // ---------- connects ----------

  /** The result of a connect, when a packet is at hand: an OKAY with the ids of the stream, or a CLSE with local id
      zero. */
  lemma ConnectReported(s: State, k: nat, failed: bool, ok: bool)
    requires k < |s.services| && s.services[k].priv.Stream? && s.services[k].priv.state == NotConnected
    requires s.frameCount < FRAME_MAX
    ensures var s1, v := ConnectDone(s, k, failed, ok), s.services[k];
            if failed then
              && |s1.log| == |s.log| + 3 && s1.log[..|s.log|] == s.log && s1.services == Cut(s.services, k)
              && s1.log[|s.log|] == ConnectFailed(v.handle)
              && Sends(s1.log[|s.log| + 1], s.nextPid, CLSE, 0, v.peer, [])
              && s1.log[|s.log| + 2] == Closed(v.handle)
            else
              && |s1.log| == |s.log| + 1 && s1.log[..|s.log|] == s.log
              && Sends(s1.log[|s.log|], s.nextPid, OKAY, v.id, v.peer, [])
              && s1.services == s.services[k := v.(priv := Stream(Connected, true))]
  {
    hide CloseService;
    hide SendOkayWithData;
    hide Sends;
    var v := s.services[k];
    if failed {
      var s1 := Allocate(ConnectFails(s, k)).0;
      assert Cut(s1.services, k) == Cut(s.services, k);
      ServiceCloses(s1, k, Fresh(s.nextPid), ok);
    } else {
      var w := v.(priv := Stream(Connected, true));
      var s1 := SetPrivate(Allocate(s).0, k, w.priv);
      TwiceSet(Allocate(s).0, k, Stream(NotifyClient, v.priv.reading), w.priv);
      OkaySends(s1, Fresh(s.nextPid).(writeLen := 0), v.id, v.peer, ok);
    }
  }
}
