/** Linear ownership: processing a frame disposes of its packet exactly once and of no other. */
module ClientLedger {
  import opened Bytes
  import opened Frame
  import opened ClientSpec
  import opened ClientTally

  /** The frames handed to adb_process_packet, in order. */
  function Delivered(log: seq<Entry>): seq<Frame> {
    if log == [] then []
    else
      var e := log[|log| - 1];
      Delivered(log[..|log| - 1]) +
      (if e.Got? then [Frame(e.msg.command, e.msg.arg0, e.msg.arg1, e.payload)] else [])
  }

  lemma LedgerAppend(log: seq<Entry>, e: Entry)
    ensures !e.Got? ==> Delivered(log + [e]) == Delivered(log)
    ensures forall pid :: Disposals(log + [e], pid) == Disposals(log, pid) + (if Disposes(e, pid) then 1 else 0)
  {
    assert (log + [e])[..|log|] == log;
  }

  /** Between s and s1 the receiver did not move, the packet `done` was disposed of once, and no
      other packet that existed in s was disposed of. */
  ghost predicate Moved(s: State, s1: State, done: Option<nat>) {
    && s1.rx == s.rx && s1.cur == s.cur && s1.rejected == s.rejected && s1.isConnected == s.isConnected
    && s.nextPid <= s1.nextPid
    && Delivered(s1.log) == Delivered(s.log)
    && forall q: nat :: q < s.nextPid ==>
         Disposals(s1.log, q) == Disposals(s.log, q) + (if done == Some(q) then 1 else 0)
  }

  lemma SendMoved(s: State, p: Packet, ok: bool)
    ensures Moved(s, SendFrame(s, p, ok), Some(p.pid))
  {
    LedgerAppend(s.log, SendFrame(s, p, ok).log[|s.log|]);
  }

  lemma CloseMoved(s: State, k: nat, p: Option<Packet>, ok: bool)
    requires k < |s.services|
    ensures Moved(s, CloseService(s, k, p, ok), if p.Some? then Some(p.value.pid) else None)
  {
    hide SendFrame;
    hide Delivered;
    hide Disposals;
    var v := s.services[k];
    var s1 := s.(services := Cut(s.services, k));
    if p.Some? {
      SendMoved(s1, Headed(p.value, A_CLSE, v.id, v.peer, 0).(writeLen := 0), ok);
      LedgerAppend(SendClose(s1, p.value, v.id, v.peer, ok).log, Closed(v.handle));
    } else {
      LedgerAppend(s.log, Closed(v.handle));
    }
  }

  lemma TryMoved(s: State, k: nat, ok: bool)
    requires k < |s.services|
    ensures Moved(s, TryClose(s, k, ok), None)
    ensures Moved(s, TryConnect(s, k, ok), None)
  {
    hide CloseService;
    hide SendFrame;
    var (s1, pid) := Allocate(s);
    var v := s.services[k];
    if pid.Some? {
      CloseMoved(s1, k, Some(Fresh(pid.value)), ok);
      SendMoved(SetPrivate(s1, k, Stream(Connected, true)), Headed(Fresh(pid.value), A_OKAY, v.id, v.peer, 0), ok);
    }
  }

  lemma KickMoved(s: State, k: nat, ok: bool)
    requires k < |s.services|
    ensures Moved(s, OnKick(s, k, ok), None)
  {
    hide TryClose;
    hide TryConnect;
    match s.services[k].priv
    case Stream(NotifyClient, _) => TryMoved(s, k, ok);
    case Stream(ErrorClose, _) => TryMoved(s, k, ok);
    case _ =>
  }

  lemma {:induction false} KickFromMoved(s: State, k: nat, ok: bool)
    ensures Moved(s, KickFrom(s, k, ok), None)
    decreases |s.services| - k
  {
    hide OnKick;
    if k < |s.services| {
      KickMoved(s, k, ok);
      var s1 := OnKick(s, k, ok);
      KickFromMoved(s1, if |s1.services| < |s.services| then k else k + 1, ok);
    }
  }

  lemma ReleaseMoved(s: State, pid: nat, ok: bool)
    ensures Moved(s, Release(s, pid, ok), Some(pid))
  {
    hide KickFrom;
    LedgerAppend(s.log, Freed(pid));
    if s.frameCount > FRAME_MAX {
      KickFromMoved(Log(s, Freed(pid)).(frameCount := FRAME_MAX - 1).(reading := true), 0, ok);
    }
  }

  lemma OpenMoved(s: State, p: Packet, env: Env)
    ensures Moved(s, HandleOpen(s, p, env), Some(p.pid))
  {
    hide Release;
    hide SendFrame;
    if p.msg.arg0 == 0 || p.msg.arg1 != 0 {
      ReleaseMoved(s, p.pid, env.writeOk);
    } else {
      match OpeningOf(p, env)
      case Refused(reply) =>
        if |reply| > 0 {
          SendMoved(s.(nextId := s.nextId + 1),
                    Headed(p.(data := reply, writeLen := |reply|), A_OKAY, s.nextId, p.msg.arg0, 0), env.writeOk);
        } else {
          SendMoved(s, Headed(p, A_CLSE, 0, p.msg.arg0, 0).(writeLen := 0), env.writeOk);
        }
      case Opens(priv) =>
        var s1 := RegisterService(s, p.msg.arg0, priv);
        LedgerAppend(s.log, Registered(s.nextId, p.msg.arg0));
        if priv.Stream? {
          ReleaseMoved(s1, p.pid, env.writeOk);
        } else {
          SendMoved(s1, Headed(p, A_OKAY, s.nextId, p.msg.arg0, 0), env.writeOk);
        }
    }
  }

  lemma CloseFrameMoved(s: State, p: Packet, env: Env)
    ensures Moved(s, HandleClose(s, p, env), Some(p.pid))
  {
    hide Release;
    hide CloseService;
    var k := Find(s.services, p.msg.arg1, p.msg.arg0);
    ReleaseMoved(s, p.pid, env.writeOk);
    if k.Some? {
      CloseMoved(s, k.value, None, env.writeOk);
      ReleaseMoved(CloseService(s, k.value, None, env.writeOk), p.pid, env.writeOk);
    }
  }

  /** An answer of the sync service moves nothing. */
  lemma MovedBehind(s: State, a: Entry, s1: State, done: Option<nat>)
    requires a.Answered?
    ensures Moved(Log(s, a), s1, done) ==> Moved(s, s1, done)
  {
    LedgerAppend(s.log, a);
  }

  lemma QueueMoved(s: State, h: nat, p: Packet)
    ensures Moved(s, QueueOnSocket(s, h, p), Some(p.pid))
  {
    LedgerAppend(s.log, Passed(p.pid, h, Payload(p)));
  }

  lemma WriteFrameMoved(s: State, p: Packet, env: Env)
    ensures Moved(s, HandleWrite(s, p, env), Some(p.pid))
  {
    hide CloseService;
    hide SendFrame;
    hide QueueOnSocket;
    hide Moved;
    var k := Find(s.services, p.msg.arg1, p.msg.arg0);
    if k.None? {
      SendMoved(s, Headed(p, A_CLSE, p.msg.arg1, p.msg.arg0, 0).(writeLen := 0), env.writeOk);
    } else {
      var v := s.services[k.value];
      var a := Answered(v.handle, Data(Payload(p)), env.syncOk, env.reply);
      MovedBehind(s, a, HandleWrite(s, p, env), Some(p.pid));
      var s1 := if v.priv.Sync? then Log(s, a) else s;
      CloseMoved(s1, k.value, Some(p), env.writeOk);
      SendMoved(s1, Headed(p.(data := env.reply, writeLen := |env.reply|), A_OKAY, v.id, v.peer, 0), env.writeOk);
      QueueMoved(s, v.handle, p);
    }
  }

  /** What happened from a state with other services happened from here. */
  lemma MovedFrom(s: State, ss: seq<Service>, s1: State, done: Option<nat>)
    ensures Moved(s.(services := ss), s1, done) ==> Moved(s, s1, done)
  {
  }

  lemma OkayFrameMoved(s: State, p: Packet, env: Env)
    ensures Moved(s, HandleOkay(s, p, env), Some(p.pid))
  {
    hide Release;
    hide CloseService;
    hide SendFrame;
    hide Moved;
    var k := Find(s.services, p.msg.arg1, 0);
    if k.None? {
      SendMoved(s, Headed(p, A_CLSE, p.msg.arg1, p.msg.arg0, 0).(writeLen := 0), env.writeOk);
    } else {
      var s1 := WithPeer(s, k.value, p.msg.arg0);
      var v := s1.services[k.value];
      var s2 := SetPrivate(s1, k.value, Acked(v.priv));
      MovedFrom(s, s1.services, HandleOkay(s, p, env), Some(p.pid));
      MovedFrom(s1, s2.services, HandleOkay(s, p, env), Some(p.pid));
      var a := Answered(v.handle, Asked.Ready, env.syncOk, env.reply);
      var s3, q := Log(s1, a), ReplyTo(p, v, env.reply);
      MovedBehind(s1, a, HandleOkay(s, p, env), Some(p.pid));
      if !v.priv.Sync? {
        ReleaseMoved(s2, p.pid, env.writeOk);
      } else if !env.syncOk {
        CloseMoved(s3, k.value, Some(p), env.writeOk);
      } else if |env.reply| > 0 {
        SendMoved(s3, q.(msg := q.msg.(command := A_WRTE, dataLength := q.writeLen), writeLen := 0), env.writeOk);
      } else {
        ReleaseMoved(s3, p.pid, env.writeOk);
      }
    }
  }

  /** For every packet and client state: adb_process_packet frees the packet, offers it once to the
      transport, or leaves it with a service, exactly one of these and exactly once; it disposes of
      no other packet, and the receiver only learns that a CNXN frame connects the client. */
  lemma ProcessMoved(s: State, p: Packet, env: Env)
    ensures var s1 := ProcessPacket(s, p, env);
            && s1.isConnected == (s.isConnected || p.msg.command == A_CNXN)
            && Moved(s, s1.(isConnected := s.isConnected), Some(p.pid))
  {
    hide HandleOpen;
    hide HandleClose;
    hide HandleWrite;
    hide HandleOkay;
    hide Release;
    hide SendFrame;
    var q := p.(writeLen := 0);
    if q.msg.command == A_CNXN {
      SendMoved(s, Headed(q, A_CNXN, A_VERSION, PAYLOAD_SIZE, |BANNER|).(data := BANNER), env.writeOk);
    } else if q.msg.command == A_OPEN {
      OpenMoved(s, q, env);
    } else if q.msg.command == A_CLSE {
      CloseFrameMoved(s, q, env);
    } else if q.msg.command == A_WRTE {
      WriteFrameMoved(s, q, env);
    } else if q.msg.command == A_OKAY {
      OkayFrameMoved(s, q, env);
    } else {
      ReleaseMoved(s, p.pid, env.writeOk);
    }
  }
}
