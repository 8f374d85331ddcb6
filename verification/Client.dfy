/** The client as the source keeps it: mutable fields, a linked list of services and a packet being
    received into uninitialised memory. Every method is proved against its function in ClientSpec. */
module Client {
  import opened Bytes
  import opened Frame
  import opened ClientSpec
  import ClientInvariant
  import ClientRuns
  import ClientReassembly
  import Decoder

  class Service {
    const handle: nat
    var id: nat
    var peer: nat
    var priv: Private
    var next: Service?

    constructor (handle: nat, peer: nat, priv: Private, next: Service?)
      ensures this.handle == this.id == handle && this.peer == peer && this.priv == priv && this.next == next
    {
      this.handle, this.id, this.peer, this.priv, this.next := handle, handle, peer, priv, next;
    }
  }

  ghost predicate Shows(v: Service, m: ClientSpec.Service)
    reads v
  {
    v.handle == m.handle && v.id == m.id && v.peer == m.peer && v.priv == m.priv
  }

  /** The nodes reached from `head` through `next` are `spine`, in order, and show `ms`. */
  ghost predicate Table(head: Service?, spine: seq<Service>, ms: seq<ClientSpec.Service>)
    reads spine
  {
    && |spine| == |ms|
    && head == At(spine, 0)
    && (forall i :: 0 <= i < |spine| ==> spine[i].next == At(spine, i + 1) && Shows(spine[i], ms[i]))
    && Distinct(spine)
  }

  function At(spine: seq<Service>, i: nat): Service? {
    if i < |spine| then spine[i] else null
  }

  lemma TablePush(head: Service?, spine: seq<Service>, ms: seq<ClientSpec.Service>, v: Service, m: ClientSpec.Service)
    requires Table(head, spine, ms) && v !in spine && v.next == head && Shows(v, m)
    ensures Table(v, [v] + spine, [m] + ms)
  {
    var tt := [v] + spine;
    forall i | 0 <= i < |tt| ensures tt[i].next == At(tt, i + 1) && Shows(tt[i], ([m] + ms)[i]) {
      if i > 0 {
        assert tt[i] == spine[i - 1] && spine[i - 1].next == At(spine, i);
        assert i < |spine| ==> tt[i + 1] == spine[i];
      }
    }
  }

  ghost predicate Distinct(spine: seq<Service>) {
    forall i, j :: 0 <= i < j < |spine| ==> spine[i] != spine[j]
  }

  /** Node k of a table has come to show `m`. */
  lemma TableSet(head: Service?, spine: seq<Service>, ms: seq<ClientSpec.Service>, k: nat, m: ClientSpec.Service)
    requires |spine| == |ms| && k < |spine| && head == At(spine, 0) && Distinct(spine)
    requires forall i :: 0 <= i < |spine| ==> spine[i].next == At(spine, i + 1) && (i != k ==> Shows(spine[i], ms[i]))
    requires Shows(spine[k], m)
    ensures Table(head, spine, ms[k := m])
  {
  }

  lemma TableFacts(head: Service?, spine: seq<Service>, ms: seq<ClientSpec.Service>)
    requires Table(head, spine, ms)
    ensures |spine| == |ms| && head == At(spine, 0)
  {
  }

  lemma TableAt(head: Service?, spine: seq<Service>, ms: seq<ClientSpec.Service>, k: nat)
    requires Table(head, spine, ms) && k < |spine|
    ensures |spine| == |ms| && Shows(spine[k], ms[k]) && spine[k].next == At(spine, k + 1)
  {
  }

  /** The node before position k (or the head) has been made to point past it. */
  lemma TableCut(spine: seq<Service>, ms: seq<ClientSpec.Service>, k: nat, head: Service?)
    requires Distinct(spine) && |spine| == |ms| && k < |spine|
    requires head == if k == 0 then At(spine, 1) else spine[0]
    requires forall i :: 0 <= i < |spine| ==>
               spine[i].next == At(spine, if i + 1 == k then k + 1 else i + 1) && Shows(spine[i], ms[i])
    ensures Table(head, Cut(spine, k), Cut(ms, k))
  {
    hide At;
    var tt := Cut(spine, k);
    AtCut(spine, k, 0);
    forall i | 0 <= i < |tt| ensures tt[i].next == At(tt, i + 1) && Shows(tt[i], Cut(ms, k)[i]) {
      var j := if i < k then i else i + 1;
      assert tt[i] == spine[j];
      AtCut(spine, k, i + 1);
    }
  }

  lemma AtCut(spine: seq<Service>, k: nat, i: nat)
    requires k < |spine|
    ensures At(Cut(spine, k), i) == At(spine, if i < k then i else i + 1)
    ensures At(spine, 0) == spine[0]
  {
  }

  /** The packet being received: the start of its memory holds the bytes received so far, and it is as
      large as the limit in force. */
  ghost predicate Receives(buf: array?<byte>, pid: nat, len: nat, limit: nat, cur: Option<Incoming>)
    reads buf
  {
    if buf == null then cur == None
    else
      && cur.Some? && cur.value.pid == pid && len == |cur.value.got| <= buf.Length
      && buf.Length == HEADER_SIZE + limit
      && buf[..len] == cur.value.got
  }

  /** A header reads the same from the received bytes and from the memory that holds them. */
  lemma SameHeader(got: seq<byte>, mem: seq<byte>)
    requires HEADER_SIZE <= |got| <= |mem| && mem[..|got|] == got
    ensures ParseHeader(mem) == ParseHeader(got)
  {
    assert mem == got + mem[|got|..];
    Decoder.HeaderPrefix(got, mem[|got|..]);
  }

  /** The header of the memory is that of the received bytes as soon as they hold one; a read within the
      offered length does not go past the end of the header or of the packet. */
  lemma HeaderOnce(before: seq<byte>, got: seq<byte>, mem: seq<byte>)
    requires before <= got && |got| - |before| <= OfferedLength(before)
    requires HEADER_SIZE <= |mem| && |got| <= |mem| && mem[..|got|] == got
    ensures |got| >= HEADER_SIZE ==> ParseHeader(mem) == ParseHeader(got)
    ensures Complete(got) ==> |got| == HEADER_SIZE + ParseHeader(got).dataLength
  {
    if |got| >= HEADER_SIZE {
      SameHeader(got, mem);
      if |before| >= HEADER_SIZE {
        SameHeader(before, got);
      }
    }
    hide ParseHeader;
  }

  class Client {
    var frameCount: int
    var curPacket: array?<byte>
    var curLen: nat
    var curPid: nat
    var isConnected: bool
    var reading: bool
    var open: bool
    var nextPid: nat
    var nextServiceId: nat
    var services: Service?
    var requests: seq<Request>
    ghost var spine: seq<Service>
    ghost var model: State

    /** The fields and the list show the state `model`. */
    ghost predicate Valid()
      reads this, spine, curPacket
    {
      && frameCount == model.frameCount && nextPid == model.nextPid
      && isConnected == model.isConnected && reading == model.reading && open == model.open
      && nextServiceId == model.nextId && requests == model.requests
      && Table(services, spine, model.services)
      && Receives(curPacket, curPid, curLen, Limit(isConnected), model.cur)
    }

    ghost function Nodes(): set<object>
      reads this
    {
      set v | v in spine
    }

    constructor ()
      ensures Valid() && model == Init() && fresh(Nodes())
    {
      frameCount, curPacket, curLen, curPid := 0, null, 0, 0;
      isConnected, reading, open := false, true, true;
      nextPid, nextServiceId, services, requests := 0, 1, null, [];
      spine, model := [], Init();
    }

    // ---------- packet pool ----------

    /** adb_uv_packet_allocate. */
    method Allocate() returns (pid: Option<nat>)
      requires Valid()
      modifies this
      ensures Valid() && spine == old(spine)
      ensures (model, pid) == ClientSpec.Allocate(old(model))
    {
      if frameCount >= FRAME_MAX {
        frameCount, pid := FRAME_MAX + 1, None;
      } else {
        frameCount, pid, nextPid := frameCount + 1, Some(nextPid), nextPid + 1;
      }
      model := ClientSpec.Allocate(model).0;
    }

    /** adb_hal_apacket_release. */
    method Release(pid: nat, ok: bool)
      requires Valid()
      modifies this, Nodes()
      ensures Valid() && fresh(Nodes() - old(Nodes()))
      ensures model == ClientSpec.Release(old(model), pid, ok)
    {
      hide Table;
      hide Receives;
      hide KickFrom;
      model := Log(model, Freed(pid));
      if frameCount > FRAME_MAX {
        frameCount := FRAME_MAX - 1;
        model := model.(frameCount := FRAME_MAX - 1);
        Kick(ok);
      } else {
        frameCount := frameCount - 1;
        model := model.(frameCount := frameCount);
      }
    }

    // ---------- sending ----------

    /** send_frame, with the write callback of the transport. */
    method SendFrame(p: Packet, ok: bool)
      requires Valid() && p.msg.dataLength <= |p.data|
      modifies this`requests, this`open, this`model
      ensures Valid()
      ensures model == ClientSpec.SendFrame(old(model), p, ok)
    {
      var sum := Checksum(p.data, p.msg.dataLength);
      var q := p.(msg := p.msg.(magic := Magic(p.msg.command), dataCheck := sum));
      if ok {
        requests := requests + [Request(Transport, q)];
      } else {
        open := false;
      }
      model := ClientSpec.SendFrame(model, p, ok);
    }

    method SendClose(p: Packet, local: nat, remote: nat, ok: bool)
      requires Valid()
      modifies this`requests, this`open, this`model
      ensures Valid()
      ensures model == ClientSpec.SendClose(old(model), p, local, remote, ok)
    {
      SendFrame(Headed(p, A_CLSE, local, remote, 0).(writeLen := 0), ok);
    }

    method SendOkayWithData(p: Packet, local: nat, remote: nat, ok: bool)
      requires Valid()
      modifies this`requests, this`open, this`model
      ensures Valid()
      ensures model == ClientSpec.SendOkayWithData(old(model), p, local, remote, ok)
    {
      SendFrame(Headed(p, A_OKAY, local, remote, 0), ok);
    }

    method SendData(p: Packet, ok: bool)
      requires Valid() && p.writeLen <= |p.data|
      modifies this`requests, this`open, this`model
      ensures Valid()
      ensures model == ClientSpec.SendData(old(model), p, ok)
    {
      SendFrame(p.(msg := p.msg.(command := A_WRTE, dataLength := p.writeLen), writeLen := 0), ok);
    }

    // ---------- service table ----------

    /** adb_register_service. */
    method RegisterService(peer: nat, priv: Private)
      requires Valid()
      modifies this
      ensures Valid() && fresh(Nodes() - old(Nodes()))
      ensures model == ClientSpec.RegisterService(old(model), peer, priv)
      ensures spine == [spine[0]] + old(spine)
    {
      hide Table;
      hide Receives;
      var svc := new Service(nextServiceId, peer, priv, services);
      TablePush(services, spine, model.services, svc,
                ClientSpec.Service(nextServiceId, nextServiceId, peer, priv));
      nextServiceId := nextServiceId + 1;
      services := svc;
      spine := [svc] + spine;
      model := ClientSpec.RegisterService(model, peer, priv);
    }

    /** adb_client_find_service; `k` is the position of the result. */
    method FindService(id: nat, peer: nat) returns (svc: Service?, ghost k: nat)
      requires Valid()
      ensures svc == null <==> Find(model.services, id, peer).None?
      ensures svc != null ==> Find(model.services, id, peer) == Some(k) && k < |spine| && spine[k] == svc
    {
      svc, k := services, 0;
      while svc != null
        invariant k <= |spine| && svc == (if k < |spine| then spine[k] else null)
        invariant Find(model.services, id, peer) == FindFrom(model.services, k, id, peer)
        decreases |spine| - k
      {
        if svc.id == id && (peer == 0 || svc.peer == peer) {
          return;
        }
        svc, k := svc.next, k + 1;
      }
    }

    /** The list walk of adb_service_close: the node before svc, or null for the head of the list and for
        a service that is not listed (k is the length of the list then). The source reads the head of
        the list without a test. */
    method Predecessor(svc: Service, ghost k: nat) returns (prev: Service?)
      requires Valid() && services != null
      requires k <= |spine| && (if k < |spine| then spine[k] == svc else svc !in spine)
      ensures prev == if 0 < k < |spine| then spine[k - 1] else null
    {
      var cur := services;
      ghost var i := 0;
      if cur == svc {
        return null;
      }
      while cur.next != null
        invariant i < |spine| && i < k && cur == spine[i]
        decreases |spine| - i
      {
        if cur.next == svc {
          return cur;
        }
        cur, i := cur.next, i + 1;
      }
      prev := null;
    }

    /** The unlinking assignment: the head, or the node before, now points past svc. */
    method Bypass(svc: Service, prev: Service?, ghost k: nat)
      requires Valid() && k < |spine| && spine[k] == svc && prev == if k > 0 then spine[k - 1] else null
      modifies this`services, Nodes()
      ensures Table(services, Cut(spine, k), Cut(model.services, k))
      ensures unchanged(svc)
    {
      if prev == null {
        services := svc.next;
      } else {
        prev.next := svc.next;
      }
      TableCut(spine, model.services, k, services);
    }

    /** Whether svc is listed (at position k) or not, when k is the length of the list. */
    ghost predicate Sought(svc: Service, k: nat)
      reads this
    {
      if k < |spine| then spine[k] == svc else k == |spine| && svc !in spine && services != null
    }

    /** Unlinks a service, if it is listed. */
    method Unlink(svc: Service, ghost k: nat) returns (found: bool)
      requires Valid() && Sought(svc, k)
      modifies this, Nodes()
      ensures Valid() && unchanged(svc) && Nodes() <= old(Nodes())
      ensures found <==> k < |old(spine)|
      ensures if found then spine == Cut(old(spine), k) && model == old(model).(services := Cut(old(model).services, k))
              else spine == old(spine) && model == old(model)
    {
      hide Table;
      hide Receives;
      TableFacts(services, spine, model.services);
      hide Shows;
      var prev := Predecessor(svc, k);
      found := prev != null || services == svc;
      if !found {
        return;
      }
      CutMembers(spine, k);
      Bypass(svc, prev, k);
      hide Cut;
      spine := Cut(spine, k);
      model := model.(services := Cut(model.services, k));
    }

    lemma CutMembers(ss: seq<Service>, k: nat)
      requires k < |ss|
      ensures forall v :: v in Cut(ss, k) ==> v in ss
    {
    }

    /** adb_service_close; libuv drops the writes queued on the socket of the service. A service that is not
        listed is left alone, and the packet with it. */
    method CloseService(svc: Service, p: Option<Packet>, ok: bool, ghost k: nat)
      requires Valid() && Sought(svc, k)
      modifies this, Nodes()
      ensures Valid() && svc.next == old(svc.next) && Nodes() <= old(Nodes())
      ensures if k < |old(spine)| then
                spine == Cut(old(spine), k) && |old(spine)| == |old(model).services|
                && model == ClientSpec.CloseService(old(model), k, p, ok)
              else spine == old(spine) && model == old(model)
    {
      hide Table;
      hide Receives;
      TableFacts(services, spine, model.services);
      if k < |spine| {
        TableAt(services, spine, model.services, k);
      }
      var found := Unlink(svc, k);
      if !found {
        return;
      }
      if p.Some? {
        SendClose(p.value, svc.id, svc.peer, ok);
      }
      OnClose(svc.handle);
    }

    /** The on_close callback. */
    method OnClose(handle: nat)
      requires Valid()
      modifies this`requests, this`model
      ensures Valid() && model == Orphan(old(model), handle)
    {
      requests := NotFor(requests, handle);
      model := Orphan(model, handle);
    }

    /** One assignment to a service. */
    method SetPrivate(svc: Service, priv: Private, ghost k: nat)
      requires Valid() && k < |spine| && spine[k] == svc
      modifies this`model, svc`priv
      ensures Valid() && model == ClientSpec.SetPrivate(old(model), k, priv)
    {
      hide Receives;
      hide At;
      svc.priv := priv;
      TableSet(services, spine, model.services, k, model.services[k].(priv := priv));
      model := ClientSpec.SetPrivate(model, k, priv);
    }

    // ---------- kicks ----------

    method TryClose(svc: Service, ok: bool, ghost k: nat)
      requires Valid() && k < |spine| && spine[k] == svc
      modifies this, Nodes()
      ensures Valid() && svc.next == old(svc.next) && Nodes() <= old(Nodes())
      ensures spine == old(spine) || spine == Cut(old(spine), k)
      ensures model == ClientSpec.TryClose(old(model), k, ok)
    {
      var pid := Allocate();
      if pid.Some? {
        CloseService(svc, Some(Fresh(pid.value)), ok, k);
      }
    }

    method TryConnect(svc: Service, ok: bool, ghost k: nat)
      requires Valid() && k < |spine| && spine[k] == svc
      modifies this, Nodes()
      ensures Valid() && spine == old(spine) && svc.next == old(svc.next)
      ensures model == ClientSpec.TryConnect(old(model), k, ok)
    {
      var pid := Allocate();
      if pid.Some? {
        SetPrivate(svc, Stream(Connected, true), k);
        SendOkayWithData(Fresh(pid.value).(writeLen := 0), svc.id, svc.peer, ok);
      }
    }

    /** The on_kick callbacks: none for sync, shell_kick, atcp_stream_on_kick. */
    method OnKick(svc: Service, ok: bool, ghost k: nat)
      requires Valid() && k < |spine| && spine[k] == svc
      modifies this, Nodes()
      ensures Valid() && svc.next == old(svc.next) && Nodes() <= old(Nodes())
      ensures spine == old(spine) || spine == Cut(old(spine), k)
      ensures model == ClientSpec.OnKick(old(model), k, ok)
    {
      match svc.priv {
        case Sync =>
        case Shell(waitAck, active) =>
          if !waitAck {
            SetPrivate(svc, Shell(waitAck, true), k);
          }
        case Stream(state, active) =>
          match state {
            case NotConnected =>
            case WaitAck =>
            case Connected => SetPrivate(svc, Stream(Connected, true), k);
            case NotifyClient => TryConnect(svc, ok, k);
            case ErrorClose => TryClose(svc, ok, k);
          }
      }
    }

    /** adb_client_kick_services: a service may unlink itself while the list is walked. */
    method KickServices(ok: bool)
      requires Valid()
      modifies this, Nodes()
      ensures Valid() && fresh(Nodes() - old(Nodes()))
      ensures model == KickFrom(old(model), 0, ok)
    {
      var service := services;
      ghost var k := 0;
      while service != null
        invariant Valid() && Nodes() <= old(Nodes())
        invariant k <= |spine| && service == (if k < |spine| then spine[k] else null)
        invariant KickFrom(model, k, ok) == KickFrom(old(model), 0, ok)
        decreases |spine| - k
      {
        ghost var n := |spine|;
        OnKick(service, ok, k);
        k := if |spine| < n then k else k + 1;
        service := service.next;
      }
    }

    /** tcp_uv_kick. */
    method Kick(ok: bool)
      requires Valid()
      modifies this, Nodes()
      ensures Valid() && fresh(Nodes() - old(Nodes()))
      ensures model == ClientSpec.Kick(old(model), ok)
    {
      if !reading {
        reading := true;
      }
      model := model.(reading := true);
      KickServices(ok);
    }

    // ---------- dispatch ----------

    /** handle_open_frame and adb_service_open; `env.refused` is what a service constructor may do. */
    method HandleOpen(p: Packet, env: Env)
      requires Valid()
      modifies this, Nodes()
      ensures Valid() && fresh(Nodes() - old(Nodes()))
      ensures model == ClientSpec.HandleOpen(old(model), p, env)
    {
      hide Table;
      hide Receives;
      hide ClientSpec.Release;
      hide ClientSpec.SendFrame;
      if p.msg.arg0 == 0 || p.msg.arg1 != 0 {
        Release(p.pid, env.writeOk);
        return;
      }
      match OpeningOf(p, env) {
        case Refused(reply) =>
          if |reply| > 0 {
            var local := nextServiceId;
            nextServiceId := nextServiceId + 1;
            model := model.(nextId := model.nextId + 1);
            SendOkayWithData(p.(data := reply, writeLen := |reply|), local, p.msg.arg0, env.writeOk);
          } else {
            SendClose(p, 0, p.msg.arg0, env.writeOk);
          }
        case Opens(priv) =>
          var local := nextServiceId;
          RegisterService(p.msg.arg0, priv);
          if priv.Stream? {
            Release(p.pid, env.writeOk);
          } else {
            SendOkayWithData(p, local, p.msg.arg0, env.writeOk);
          }
      }
    }

    method HandleClose(p: Packet, env: Env)
      requires Valid()
      modifies this, Nodes()
      ensures Valid() && fresh(Nodes() - old(Nodes()))
      ensures model == ClientSpec.HandleClose(old(model), p, env)
    {
      hide Table;
      hide Receives;
      hide ClientSpec.Release;
      hide ClientSpec.CloseService;
      var svc, k := FindService(p.msg.arg1, p.msg.arg0);
      if svc != null {
        CloseService(svc, None, env.writeOk, k);
      }
      Release(p.pid, env.writeOk);
    }

    /** handle_write_frame, with the on_write_frame callbacks. */
    method HandleWrite(p: Packet, env: Env)
      requires Valid()
      modifies this, Nodes()
      ensures Valid() && fresh(Nodes() - old(Nodes()))
      ensures model == ClientSpec.HandleWrite(old(model), p, env)
    {
      hide Table;
      hide Receives;
      hide ClientSpec.CloseService;
      hide ClientSpec.SendFrame;
      var svc, k := FindService(p.msg.arg1, p.msg.arg0);
      if svc == null {
        SendClose(p, p.msg.arg1, p.msg.arg0, env.writeOk);
        return;
      }
      hide ClientSpec.SyncWrite;
      TableAt(services, spine, model.services, k);
      if svc.priv.Sync? {
        SyncWrite(svc, p, env, k);
      } else if !Accepts(svc.priv) || !env.socketOk {
        CloseService(svc, Some(p), env.writeOk, k);
      } else {
        requests := requests + [Request(Socket(svc.handle), p)];
        model := QueueOnSocket(model, svc.handle, p);
      }
    }

    method SyncWrite(svc: Service, p: Packet, env: Env, ghost k: nat)
      requires Valid() && k < |spine| && spine[k] == svc && k < |model.services|
      modifies this, Nodes()
      ensures Valid() && fresh(Nodes() - old(Nodes()))
      ensures model == ClientSpec.SyncWrite(old(model), k, p, env)
    {
      hide Table;
      hide Receives;
      hide ClientSpec.CloseService;
      hide ClientSpec.SendFrame;
      TableAt(services, spine, model.services, k);
      model := Log(model, Answered(svc.handle, Data(Payload(p)), env.syncOk, env.reply));
      if !env.syncOk {
        CloseService(svc, Some(p), env.writeOk, k);
      } else {
        SendOkayWithData(p.(data := env.reply, writeLen := |env.reply|), svc.id, svc.peer, env.writeOk);
      }
    }

    method SyncOkay(svc: Service, p: Packet, env: Env, ghost k: nat)
      requires Valid() && k < |spine| && spine[k] == svc && k < |model.services|
      modifies this, Nodes()
      ensures Valid() && fresh(Nodes() - old(Nodes()))
      ensures model == ClientSpec.SyncOkay(old(model), k, p, env)
    {
      hide Table;
      hide Receives;
      hide ClientSpec.CloseService;
      hide ClientSpec.SendFrame;
      hide ClientSpec.Release;
      TableAt(services, spine, model.services, k);
      model := Log(model, Answered(svc.handle, Asked.Ready, env.syncOk, env.reply));
      if !env.syncOk {
        CloseService(svc, Some(p), env.writeOk, k);
      } else if |env.reply| > 0 {
        var q := p.(msg := p.msg.(arg0 := svc.id, arg1 := svc.peer), data := env.reply, writeLen := |env.reply|);
        SendData(q, env.writeOk);
      } else {
        Release(p.pid, env.writeOk);
      }
    }

    /** handle_okay_frame, with the on_ack_frame callbacks. */
    method HandleOkay(p: Packet, env: Env)
      requires Valid()
      modifies this, Nodes()
      ensures Valid() && fresh(Nodes() - old(Nodes()))
      ensures model == ClientSpec.HandleOkay(old(model), p, env)
    {
      hide Table;
      hide Receives;
      hide ClientSpec.CloseService;
      hide ClientSpec.SendFrame;
      hide ClientSpec.Release;
      var svc, k := FindService(p.msg.arg1, 0);
      if svc == null {
        SendClose(p, p.msg.arg1, p.msg.arg0, env.writeOk);
        return;
      }
      hide ClientSpec.SyncOkay;
      LearnPeer(svc, p.msg.arg0, k);
      TableAt(services, spine, model.services, k);
      if !svc.priv.Sync? {
        SetPrivate(svc, Acked(svc.priv), k);
        Release(p.pid, env.writeOk);
      } else {
        SyncOkay(svc, p, env, k);
      }
    }

    method LearnPeer(svc: Service, peer: nat, ghost k: nat)
      requires Valid() && k < |spine| && spine[k] == svc
      modifies this`model, svc`peer
      ensures Valid() && model == WithPeer(old(model), k, peer)
    {
      hide Receives;
      hide At;
      if svc.peer == 0 {
        svc.peer := peer;
      }
      TableSet(services, spine, model.services, k, model.services[k].(peer := svc.peer));
      model := WithPeer(model, k, peer);
    }

    /** adb_process_packet; the packet is no longer the one being received. */
    method ProcessPacket(packet: Packet, env: Env)
      requires Valid() && curPacket == null
      modifies this, Nodes()
      ensures Valid() && fresh(Nodes() - old(Nodes()))
      ensures model == ClientSpec.ProcessPacket(old(model), packet, env)
    {
      hide Table;
      hide Receives;
      hide ClientSpec.HandleOpen;
      hide ClientSpec.HandleClose;
      hide ClientSpec.HandleWrite;
      hide ClientSpec.HandleOkay;
      hide ClientSpec.SendFrame;
      hide ClientSpec.Release;
      var p := packet.(writeLen := 0);
      if p.msg.command == A_CNXN {
        SendFrame(Headed(p, A_CNXN, A_VERSION, PAYLOAD_SIZE, |BANNER|).(data := BANNER), env.writeOk);
        BecomeConnected();
        return;
      }
      if p.msg.command == A_OPEN {
        HandleOpen(p, env);
      } else if p.msg.command == A_CLSE {
        HandleClose(p, env);
      } else if p.msg.command == A_WRTE {
        HandleWrite(p, env);
      } else if p.msg.command == A_OKAY {
        HandleOkay(p, env);
      } else {
        Release(p.pid, env.writeOk);
        open := false;
        model := model.(open := false);
      }
    }

    /** Between packets, so that the packet being received always fits the limit in force. */
    method BecomeConnected()
      requires Valid() && curPacket == null
      modifies this`isConnected, this`model
      ensures Valid() && model == old(model).(isConnected := true)
    {
      hide Table;
      isConnected := true;
      model := model.(isConnected := true);
    }

    // ---------- transport reader ----------

    /** adb_uv_allocate_frame: makes sure there is a packet to read into and offers the rest of its header
        or payload; refused when the pool is exhausted. Fresh memory is not initialised. */
    method AllocateFrame() returns (offered: nat)
      requires Valid() && ClientReassembly.Refines(model) && !model.rejected
      modifies this
      ensures Valid() && spine == old(spine) && model == ClientSpec.AllocateFrame(old(model))
      ensures curPacket == null <==> model.cur.None?
      ensures curPacket != null ==>
                && curLen == |model.cur.value.got|
                && 0 < offered == OfferedLength(model.cur.value.got)
                && curLen + offered <= curPacket.Length
                && (curPacket == old(curPacket) || fresh(curPacket))
    {
      hide Table;
      hide ParseHeader;
      hide Magic;
      hide ClientReassembly.Refines;
      ClientReassembly.PartialFacts(model);
      if curPacket == null {
        var pid := Allocate();
        if pid.None? {
          return 0;
        }
        curPacket := new byte[HEADER_SIZE + Limit(isConnected)];
        curLen, curPid := 0, pid.value;
        model := model.(cur := Some(Incoming(pid.value, [])));
      } else if curLen >= HEADER_SIZE {
        SameHeader(curPacket[..curLen], curPacket[..]);
        return HEADER_SIZE + ParseHeader(curPacket[..]).dataLength - curLen;
      }
      offered := HEADER_SIZE - curLen;
    }

    /** What libuv does between the two callbacks. */
    method Fill(chunk: seq<byte>)
      requires Valid() && curPacket != null && curLen + |chunk| <= curPacket.Length
      modifies curPacket
      ensures Valid() && curPacket[..curLen + |chunk|] == model.cur.value.got + chunk
    {
      hide Table;
      forall i | 0 <= i < |chunk| {
        curPacket[curLen + i] := chunk[i];
      }
      assert curPacket[..curLen] == model.cur.value.got;
      assert curPacket[..curLen + |chunk|] == model.cur.value.got + chunk;
    }

    /** adb_uv_on_data_available after a successful read of `chunk`. The test whether the packet is complete
        also runs while the length field still holds whatever the memory held before. */
    method OnDataAvailable(ghost chunk: seq<byte>, nread: nat, env: Env)
      requires Valid() && curPacket != null && nread == |chunk| > 0
      requires ClientReassembly.Refines(model) && !model.rejected
      requires curLen + nread <= curPacket.Length && nread <= OfferedLength(model.cur.value.got)
      requires curPacket[..curLen + nread] == model.cur.value.got + chunk
      modifies this, Nodes()
      ensures Valid() && fresh(Nodes() - old(Nodes()))
      ensures model == ClientSpec.OnData(old(model), chunk, env)
    {
      hide Table;
      hide ClientSpec.ProcessPacket;
      hide ParseHeader;
      hide HeaderOk;
      hide DataOk;
      hide ClientReassembly.Refines;
      ClientReassembly.PartialFacts(model);
      ghost var before, got := model.cur.value.got, model.cur.value.got + chunk;
      var mem := curPacket[..];
      var header := ParseHeader(mem);
      HeaderOnce(before, got, mem);
      if curLen < HEADER_SIZE && curLen + nread >= HEADER_SIZE && !HeaderOk(isConnected, header) {
        open := false;
        model := model.(rx := model.rx + chunk, open := false, rejected := true);
        return;
      }
      curLen := curLen + nread;
      model := model.(rx := model.rx + chunk, cur := Some(model.cur.value.(got := got)));
      if curLen < HEADER_SIZE + header.dataLength {
        return;
      }
      Finish(mem[..curLen], env);
    }

    /** The packet is complete: check its data and process it. */
    method Finish(got: seq<byte>, env: Env)
      requires Valid() && curPacket != null && got == model.cur.value.got && Complete(got)
      requires |got| == HEADER_SIZE + ParseHeader(got).dataLength
      modifies this, Nodes()
      ensures Valid() && fresh(Nodes() - old(Nodes()))
      ensures model == if !DataOk(ParseHeader(got), got[HEADER_SIZE..])
                         then old(model).(open := false, rejected := true)
                       else
                         var p := PacketOf(old(model).cur.value.pid, got);
                         ClientSpec.ProcessPacket(Log(old(model).(cur := None), Got(p.pid, p.msg, p.data)), p, env)
    {
      hide Table;
      hide ParseHeader;
      hide DataOk;
      hide ClientSpec.ProcessPacket;
      var p := PacketOf(curPid, got);
      var ok := CheckFrameData(p.msg, p.data);
      assert p.data[..p.msg.dataLength] == p.data;
      if !ok {
        open := false;
        model := model.(open := false, rejected := true);
        return;
      }
      curPacket := null;
      model := Log(model.(cur := None), Got(p.pid, p.msg, p.data));
      ProcessPacket(p, env);
    }

    /** One turn of libuv on the transport: the allocation callback, the read, the read callback. */
    method TransportRead(avail: seq<byte>, env: Env)
      requires Valid() && ClientReassembly.Refines(model) && !model.rejected
      modifies this, curPacket, Nodes()
      ensures Valid() && fresh(Nodes() - old(Nodes()))
      ensures model == ClientSpec.TransportRead(old(model), avail, env)
    {
      hide Table;
      hide Receives;
      hide ClientSpec.OnData;
      hide ClientSpec.Release;
      hide OfferedLength;
      hide ClientReassembly.Refines;
      ClientReassembly.AllocateRefines(model);
      var offered := AllocateFrame();
      if curPacket == null {
        reading := false;
        model := model.(reading := false);
        return;
      }
      var n := Min(|avail|, offered);
      if n > 0 {
        Fill(avail[..n]);
        OnDataAvailable(avail[..n], n, env);
      } else if curLen <= 0 {
        var pid := Forget();
        Release(pid, env.writeOk);
      }
    }

    method Forget() returns (pid: nat)
      requires Valid() && curPacket != null
      modifies this`curPacket, this`model
      ensures Valid() && old(model).cur.Some? && pid == old(model).cur.value.pid
      ensures model == old(model).(cur := None)
    {
      hide Table;
      curPacket, pid := null, curPid;
      model := model.(cur := None);
    }

    /** The transport fails or ends. */
    method TransportError()
      requires Valid() && ClientReassembly.Refines(model) && !model.rejected
      modifies this
      ensures Valid() && spine == old(spine) && model == ClientSpec.TransportError(old(model))
    {
      hide Table;
      hide Receives;
      hide OfferedLength;
      hide ClientReassembly.Refines;
      var offered := AllocateFrame();
      if curPacket == null {
        reading := false;
        model := model.(reading := false);
      } else {
        open := false;
        model := model.(open := false);
      }
    }

    // ---------- service sockets ----------

    /** tcp_stream_on_data_cb. */
    method OnStreamData(svc: Service, p: Packet, ok: bool, ghost k: nat)
      requires Valid() && k < |spine| && spine[k] == svc && p.msg.dataLength <= |p.data|
      modifies this, Nodes()
      ensures Valid() && Nodes() <= old(Nodes())
      ensures model == ClientSpec.OnStreamData(old(model), k, p, ok)
    {
      hide Table;
      hide Receives;
      hide ClientSpec.CloseService;
      hide ClientSpec.SendFrame;
      TableAt(services, spine, model.services, k);
      if !(svc.priv.Stream? && svc.priv.state == Connected) || p.msg.dataLength <= 0 {
        CloseService(svc, Some(p), ok, k);
      } else {
        SetPrivate(svc, Stream(WaitAck, false), k);
        SendData(p.(msg := p.msg.(arg0 := svc.id, arg1 := svc.peer), writeLen := p.msg.dataLength), ok);
      }
    }

    /** tcp_stream_allocate_frame, then tcp_stream_on_data_available. */
    method StreamRead(svc: Service, avail: seq<byte>, failed: bool, ok: bool, ghost k: nat)
      requires Valid() && k < |spine| && spine[k] == svc && svc.priv.Stream? && model.services[k].priv.Stream?
      modifies this, Nodes()
      ensures Valid() && fresh(Nodes() - old(Nodes()))
      ensures model == ClientSpec.StreamRead(old(model), k, avail, failed, ok)
    {
      hide Table;
      hide Receives;
      hide ClientSpec.OnStreamData;
      hide ClientSpec.Release;
      TableAt(services, spine, model.services, k);
      var pid := Allocate();
      if pid.None? {
        SetPrivate(svc, Stream(svc.priv.state, false), k);
      } else if failed {
        OnStreamData(svc, Filled(pid.value, []), ok, k);
      } else if Readable(avail) == [] {
        Release(pid.value, ok);
      } else {
        model := Log(model, Fetched(svc.handle, Readable(avail)));
        SetPrivate(svc, Stream(svc.priv.state, false), k);
        OnStreamData(svc, Filled(pid.value, Readable(avail)), ok, k);
      }
    }

    /** alloc_buffer, whose assertion is the test of `waitAck`, then pipe_on_data_available. */
    method ShellRead(svc: Service, avail: seq<byte>, failed: bool, ok: bool, ghost k: nat)
      requires Valid() && k < |spine| && spine[k] == svc && svc.priv.Shell? && model.services[k].priv.Shell?
      requires svc.priv.reading && ClientInvariant.ReadingOk(svc.priv)
      modifies this, Nodes()
      ensures Valid() && fresh(Nodes() - old(Nodes()))
      ensures model == ClientSpec.ShellRead(old(model), k, avail, failed, ok)
    {
      hide Table;
      hide Receives;
      hide ClientSpec.CloseService;
      hide ClientSpec.SendFrame;
      TableAt(services, spine, model.services, k);
      assert !svc.priv.waitAck;
      var pid := Allocate();
      if pid.None? {
        SetPrivate(svc, Shell(svc.priv.waitAck, false), k);
      } else if failed || Readable(avail) == [] {
        CloseService(svc, Some(Fresh(pid.value)), ok, k);
      } else {
        var p := Filled(pid.value, Readable(avail));
        model := Log(model, Fetched(svc.handle, p.data));
        SetPrivate(svc, Shell(true, false), k);
        SendData(p.(msg := p.msg.(arg0 := svc.id, arg1 := svc.peer), writeLen := |p.data|), ok);
      }
    }

    /** tcp_stream_on_connect_cb. */
    method ConnectDone(svc: Service, failed: bool, ok: bool, ghost k: nat)
      requires Valid() && k < |spine| && spine[k] == svc && svc.priv.Stream? && model.services[k].priv.Stream?
      modifies this, Nodes()
      ensures Valid() && fresh(Nodes() - old(Nodes()))
      ensures model == ClientSpec.ConnectDone(old(model), k, failed, ok)
    {
      hide Table;
      hide Receives;
      hide ClientSpec.TryClose;
      hide ClientSpec.TryConnect;
      TableAt(services, spine, model.services, k);
      if failed || svc.priv.state != NotConnected {
        GiveUpId(svc, k);
        TryClose(svc, ok, k);
      } else {
        SetPrivate(svc, Stream(NotifyClient, svc.priv.reading), k);
        TryConnect(svc, ok, k);
      }
    }

    method GiveUpId(svc: Service, ghost k: nat)
      requires Valid() && k < |spine| && spine[k] == svc && svc.priv.Stream? && model.services[k].priv.Stream?
      modifies this`model, svc`id, svc`priv
      ensures Valid()
      ensures var v := old(model).services[k];
              v.priv.Stream? && model == ConnectFails(old(model), k)
    {
      hide Receives;
      hide At;
      ghost var v := model.services[k];
      svc.priv := Stream(ErrorClose, svc.priv.reading);
      svc.id := 0;
      TableSet(services, spine, model.services, k, v.(id := 0, priv := svc.priv));
      model := ConnectFails(model, k);
    }

    /** The service that owns a socket. */
    method Owner(h: nat) returns (svc: Service?, ghost k: nat)
      requires Valid()
      ensures svc == null <==> OwnerFrom(model.services, 0, h).None?
      ensures svc != null ==> OwnerFrom(model.services, 0, h) == Some(k) && k < |spine| && spine[k] == svc
    {
      svc, k := services, 0;
      while svc != null && svc.handle != h
        invariant k <= |spine| && svc == At(spine, k)
        invariant OwnerFrom(model.services, 0, h) == OwnerFrom(model.services, k, h)
        decreases |spine| - k
      {
        svc, k := svc.next, k + 1;
      }
    }

    /** adb_uv_after_write. */
    method AfterWrite(p: Packet, failed: bool, ok: bool)
      requires Valid() && p.writeLen <= |p.data|
      modifies this, Nodes()
      ensures Valid() && fresh(Nodes() - old(Nodes()))
      ensures model == if failed then ClientSpec.Release(old(model), p.pid, ok).(open := false)
                       else if p.writeLen > 0 then ClientSpec.SendData(old(model), p, ok)
                       else ClientSpec.Release(old(model), p.pid, ok)
    {
      hide Table;
      hide Receives;
      hide ClientSpec.Release;
      hide ClientSpec.SendFrame;
      if failed {
        Release(p.pid, ok);
        open := false;
        model := model.(open := false);
      } else if p.writeLen > 0 {
        SendData(p, ok);
      } else {
        Release(p.pid, ok);
      }
    }

    /** stream_send_data_frame_cb and shell_after_write. */
    method AfterSocketWrite(h: nat, p: Packet, failed: bool, ok: bool)
      requires Valid()
      modifies this, Nodes()
      ensures Valid() && fresh(Nodes() - old(Nodes()))
      ensures var k := OwnerFrom(old(model).services, 0, h);
              model == if k.None? then old(model).(leaked := old(model).leaked + multiset{p.pid})
                       else if failed then ClientSpec.CloseService(old(model), k.value, Some(p), ok)
                       else
                         var v := old(model).services[k.value];
                         ClientSpec.SendOkay(old(model), p, v.id, v.peer, ok)
    {
      hide Table;
      hide Receives;
      hide ClientSpec.CloseService;
      hide ClientSpec.SendFrame;
      var svc, k := Owner(h);
      if svc == null {
        model := model.(leaked := model.leaked + multiset{p.pid});
        return;
      }
      TableAt(services, spine, model.services, k);
      if failed {
        CloseService(svc, Some(p), ok, k);
      } else {
        SendOkayWithData(p.(writeLen := 0), svc.id, svc.peer, ok);
      }
    }

    method WriteDone(i: nat, failed: bool, ok: bool)
      requires Valid() && i < |requests|
      requires requests[i].target == Transport ==> requests[i].packet.writeLen <= |requests[i].packet.data|
      modifies this, Nodes()
      ensures Valid() && fresh(Nodes() - old(Nodes()))
      ensures model == ClientSpec.WriteDone(old(model), i, failed, ok)
    {
      hide Table;
      hide Receives;
      hide ClientSpec.Release;
      hide ClientSpec.CloseService;
      hide ClientSpec.SendFrame;
      var r := requests[i];
      requests := Cut(requests, i);
      model := model.(requests := requests);
      match r.target {
        case Transport => AfterWrite(r.packet, failed, ok);
        case Socket(h) => AfterSocketWrite(h, r.packet, failed, ok);
      }
    }

    /** adb_destroy_client: the successor is read before its predecessor is closed. */
    method DestroyServices()
      requires Valid()
      modifies this, Nodes()
      ensures Valid() && services == null && spine == []
      ensures model == ClientSpec.DestroyServices(old(model))
    {
      hide Receives;
      hide ClientSpec.CloseService;
      var service := services;
      while service != null
        invariant Valid() && service == services && Nodes() <= old(Nodes())
        invariant ClientSpec.DestroyServices(model) == ClientSpec.DestroyServices(old(model))
        decreases |spine|
      {
        var next := service.next;
        CloseService(service, None, true, 0);
        service := next;
      }
    }

    // ---------- runs ----------

    method ServiceRead(k: nat, avail: seq<byte>, failed: bool, ok: bool)
      requires Valid() && k < |model.services|
      requires var priv := model.services[k].priv; !priv.Sync? && priv.reading && ClientInvariant.ReadingOk(priv)
      modifies this, Nodes()
      ensures Valid() && fresh(Nodes() - old(Nodes()))
      ensures model == ClientSpec.ServiceRead(old(model), k, avail, failed, ok)
    {
      hide Table;
      hide Receives;
      hide ClientSpec.StreamRead;
      hide ClientSpec.ShellRead;
      var svc := ServiceAt(k);
      if svc.priv.Stream? {
        StreamRead(svc, avail, failed, ok, k);
      } else {
        ShellRead(svc, avail, failed, ok, k);
      }
    }

    /** What libuv calls for an event. */
    method Callback(e: Event, env: Env)
      requires Valid() && Enabled(model, e)
      requires ClientReassembly.Refines(model) && !model.rejected
      requires e.CompleteWrite? && requests[e.i].target == Transport ==>
                 requests[e.i].packet.writeLen <= |requests[e.i].packet.data|
      requires e.ReadService? ==> ClientInvariant.ReadingOk(model.services[e.k].priv)
      modifies this, curPacket, Nodes()
      ensures Valid() && fresh(Nodes() - old(Nodes()))
      ensures model == Step(old(model), e, env)
    {
      hide Table;
      hide Receives;
      hide ClientReassembly.Refines;
      hide ClientSpec.TransportRead;
      hide ClientSpec.TransportError;
      hide ClientSpec.WriteDone;
      hide ClientSpec.ConnectDone;
      hide ClientSpec.ServiceRead;
      match e {
        case ReadTransport(avail) => TransportRead(avail, env);
        case FailTransport => TransportError();
        case CompleteWrite(i, failed) => WriteDone(i, failed, env.writeOk);
        case CompleteConnect(k, failed) =>
          var svc := ServiceAt(k);
          ConnectDone(svc, failed, env.writeOk, k);
        case ReadService(k, avail, failed) => ServiceRead(k, avail, failed, env.writeOk);
      }
    }

    /** Every event of a run is executed by the callbacks above, which keep the invariant and the
        refinement of the decoder, so the theorems about runs hold of this class. */
    method React(e: Event, env: Env)
      requires Valid() && ClientInvariant.Inv(model) && ClientReassembly.Refines(model)
      requires Enabled(model, e) && IsEnv(env)
      modifies this, curPacket, Nodes()
      ensures Valid() && ClientInvariant.Inv(model) && ClientReassembly.Refines(model)
      ensures fresh(Nodes() - old(Nodes()))
      ensures model == Step(old(model), e, env)
    {
      ClientRuns.StepInv(model, e, env);
      ClientReassembly.StepRefines(model, e, env);
      EnabledFacts(e);
      hide ClientInvariant.Inv;
      hide ClientReassembly.Refines;
      hide Step;
      hide Table;
      hide Receives;
      Callback(e, env);
    }

    /** The handle libuv calls back for. */
    method ServiceAt(k: nat) returns (svc: Service)
      requires Valid() && k < |model.services|
      ensures k < |spine| && svc == spine[k] && svc.priv == model.services[k].priv
    {
      TableFacts(services, spine, model.services);
      svc := services;
      var i := 0;
      while i < k
        invariant i <= k && svc == spine[i]
      {
        TableAt(services, spine, model.services, i);
        svc, i := svc.next, i + 1;
      }
      TableAt(services, spine, model.services, k);
    }

    lemma EnabledFacts(e: Event)
      requires Valid() && ClientInvariant.Inv(model) && ClientReassembly.Refines(model) && Enabled(model, e)
      ensures !model.rejected
      ensures e.CompleteWrite? && requests[e.i].target == Transport ==>
                requests[e.i].packet.writeLen <= |requests[e.i].packet.data|
      ensures e.ReadService? ==> ClientInvariant.ReadingOk(model.services[e.k].priv)
    {
      if e.CompleteWrite? {
        assert ClientInvariant.RequestOk(requests[e.i], model.nextId, model.services);
      }
      if e.ReadService? {
        assert ClientInvariant.ServiceAt(model.services[e.k], model.nextId, model.requests, model.log,
                                         ClientInvariant.Nothing);
      }
    }
  }
}
