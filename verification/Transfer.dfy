/** The file sync service behind the transport: what a host pushes through any run of a client. */
module Transfer {
  import opened Bytes
  import opened SyncWorld
  import opened SyncSpec
  import opened SyncSplit
  import opened SyncTransfer
  import opened SyncUpload
  import opened SyncHonesty
  import Decoder
  import ClientSpec
  import ClientTalk
  import ClientTheorems

  // ---------- the client's questions, the service's answers ----------

  function Event(asked: ClientSpec.Asked): HostEvent {
    match asked
    case Data(bytes) => Piece(bytes)
    case Ready => Acked
  }

  function Events(asked: seq<ClientSpec.Asked>): seq<HostEvent> {
    seq(|asked|, i requires 0 <= i < |asked| => Event(asked[i]))
  }

  /** The answers are those of the file sync service from this state on. */
  ghost predicate Agrees(a: Afs, w: World, answers: seq<ClientTalk.Answer>)
    requires Ready(a)
    decreases |answers|
  {
    answers == [] ||
    var f, x := React(a, w, Event(answers[0].asked)), answers[0];
    (x.ok <==> f.ret >= 0) && (x.ok ==> x.reply == f.reply && Agrees(f.afs, f.w, answers[1..]))
  }

  function Join(answers: seq<ClientTalk.Answer>): seq<byte> {
    if answers == [] then [] else answers[0].reply + Join(answers[1..])
  }

  lemma {:induction false} AsksAt(answers: seq<ClientTalk.Answer>)
    ensures |ClientTalk.Asks(answers)| == |answers|
    ensures forall i :: 0 <= i < |answers| ==> ClientTalk.Asks(answers)[i] == answers[i].asked
  {
    if answers != [] {
      AsksAt(answers[..|answers| - 1]);
    }
  }

  lemma EventsFirst(answers: seq<ClientTalk.Answer>)
    requires answers != []
    ensures Events(ClientTalk.Asks(answers))
         == [Event(answers[0].asked)] + Events(ClientTalk.Asks(answers[1..]))
  {
    AsksAt(answers);
    AsksAt(answers[1..]);
    hide ClientTalk.Asks;
    hide Event;
    assert ClientTalk.Asks(answers) == [answers[0].asked] + ClientTalk.Asks(answers[1..]);
  }

  function OneReply(x: ClientTalk.Answer): multiset<seq<byte>> {
    if x.reply == [] then multiset{} else multiset{x.reply}
  }

  lemma {:induction false} RepliesFront(x: ClientTalk.Answer, more: seq<ClientTalk.Answer>)
    ensures ClientTalk.Replies([x] + more) == OneReply(x) + ClientTalk.Replies(more)
    decreases |more|
  {
    if more == [] {
      assert [x] + more == [] + [x];
      ClientTalk.AnswersAppend([], x);
    } else {
      var n := |more| - 1;
      hide ClientTalk.Replies;
      hide ClientTalk.Asks;
      hide ClientTalk.AllOk;
      RepliesFront(x, more[..n]);
      ClientTalk.AnswersAppend([x] + more[..n], more[n]);
      ClientTalk.AnswersAppend(more[..n], more[n]);
      Regroup(x, more);
    }
  }

  lemma Regroup(x: ClientTalk.Answer, more: seq<ClientTalk.Answer>)
    requires more != []
    ensures var n := |more| - 1;
            [x] + more == [x] + more[..n] + [more[n]] && more == more[..n] + [more[n]]
  {
  }

  lemma RepliesFirst(answers: seq<ClientTalk.Answer>)
    requires answers != []
    ensures ClientTalk.Replies(answers) == OneReply(answers[0]) + ClientTalk.Replies(answers[1..])
  {
    RepliesFront(answers[0], answers[1..]);
    hide ClientTalk.Replies;
    assert answers == [answers[0]] + answers[1..];
  }

  /** Answers that agree, none of them a refusal, are one conversation. */
  lemma {:induction false} AgreedConversation(a: Afs, w: World, answers: seq<ClientTalk.Answer>)
    requires Ready(a) && Agrees(a, w, answers) && ClientTalk.AllOk(answers)
    ensures var f := Converse(a, w, Events(ClientTalk.Asks(answers))); f.ret == 0 && f.reply == Join(answers)
    decreases |answers|
  {
    hide React;
    if answers == [] {
      assert Events(ClientTalk.Asks(answers)) == [];
    } else {
      var f := React(a, w, Event(answers[0].asked));
      EventsFirst(answers);
      hide Events;
      assert answers[0].ok;
      AgreedConversation(f.afs, f.w, answers[1..]);
      ConverseFirst(a, w, Event(answers[0].asked), Events(ClientTalk.Asks(answers[1..])));
    }
  }

  // ---------- a single reply ----------

  /** A message is at least an id and a length. */
  lemma StepMessage(a: Afs, w: World, input: seq<byte>, used: nat)
    requires Ready(a) && input != []
    ensures var r := Step(a, w, input, used).reply; r == [] || |r| >= 8
  {
    OtherMessage(a, w, input, used);
    NameMessage(a, w, input, used);
    hide WaitCmdDataStep;
    hide HeaderStep;
    hide SendFileStep;
    hide SendSymStep;
    hide Ready;
    hide Gather;
  }

  lemma NameMessage(a: Afs, w: World, input: seq<byte>, used: nat)
    ensures var r := WaitCmdDataStep(a, w, input, used).reply; r == [] || |r| >= 8
  {
    hide Command;
    hide CString;
    var g := Gather(a.buf, a.namelen, input);
    if g.Whole? {
      CommandMessage(a.(buf := []), w, g.rest, CString(g.bytes), used);
    }
    hide Gather;
  }

  lemma OtherMessage(a: Afs, w: World, input: seq<byte>, used: nat)
    ensures var r := HeaderStep(a, w, input, used).reply; r == [] || |r| >= 8
    ensures a.phase.SendFileData? ==> var r := SendFileStep(a, w, input, used).reply; r == [] || |r| >= 8
    ensures a.phase.SendSymData? ==> var r := SendSymStep(a, w, input, used).reply; r == [] || |r| >= 8
  {
    hide FailMsg;
    hide LE32;
    hide Word;
    hide WriteAll;
    hide Symlink;
    hide CString;
    hide Gather;
  }

  lemma CommandMessage(a: Afs, w: World, rest: seq<byte>, name: Path, used: nat)
    ensures var r := Command(a, w, rest, name, used).reply; r == [] || |r| >= 8
  {
    hide FailMsg;
    hide LE32;
    hide Parents;
    hide Read;
    hide ReadDir;
    hide LastComma;
  }

  lemma {:induction false} LoopMessage(a: Afs, w: World, end: nat, input: seq<byte>, reply: seq<byte>)
    requires Ready(a) && |input| <= end
    ensures var r := Loop(a, w, end, input, reply).reply; r == reply || |r| >= |reply| + 8
    decreases Measure(a, input)
  {
    hide Loop;
    LoopEnds(a, w, end, reply);
    if input != [] {
      LoopFirst(a, w, end, input, reply);
      StepMessage(a, w, input, |reply|);
      hide Step;
      hide Overlay;
      var o := Step(a, w, input, |reply|);
      var all := reply + o.reply;
      var rest := Overlay(o.rest, end - |o.rest|, all);
      assert reply + [] == reply;
      if o.ret >= 0 {
        assert Measure(o.afs, rest) < Measure(a, input);
        LoopMessage(o.afs, o.w, end, rest, all);
      }
    }
  }

  lemma AckMessage(a: Afs, w: World)
    ensures var r := Ack(a, w).reply; r == [] || |r| >= 8
  {
    hide LE32;
  }

  lemma EventMessage(a: Afs, w: World, e: HostEvent)
    requires Ready(a)
    ensures var r := React(a, w, e).reply; r == [] || |r| >= 8
  {
    AckMessage(a, w);
    hide Ack;
    hide Loop;
    if e.Piece? {
      LoopMessage(a, w, |e.bytes|, e.bytes, []);
    }
  }

  /** Replies that make up one message of eight bytes are that message and nothing else. */
  lemma {:induction false} OneMessage(a: Afs, w: World, answers: seq<ClientTalk.Answer>)
    requires Ready(a) && Agrees(a, w, answers) && ClientTalk.AllOk(answers) && |Join(answers)| <= 8
    ensures ClientTalk.Replies(answers) == if Join(answers) == [] then multiset{} else multiset{Join(answers)}
    decreases |answers|
  {
    hide React;
    if answers != [] {
      var f, x := React(a, w, Event(answers[0].asked)), answers[0];
      EventMessage(a, w, Event(x.asked));
      hide ClientTalk.Replies;
      hide Event;
      assert x.ok;
      RepliesFirst(answers);
      OneMessage(f.afs, f.w, answers[1..]);
      assert x.reply == [] ==> x.reply + Join(answers[1..]) == Join(answers[1..]);
      assert Join(answers[1..]) == [] ==> x.reply + Join(answers[1..]) == x.reply;
    }
  }

  /** Conversely, if there is only one reply, the conversation is that reply. */
  lemma {:induction false} OnlyReply(answers: seq<ClientTalk.Answer>)
    ensures ClientTalk.Replies(answers) == multiset{} ==> Join(answers) == []
    ensures forall m :: ClientTalk.Replies(answers) == multiset{m} ==> Join(answers) == m
    decreases |answers|
  {
    if answers != [] {
      var x, less, more := answers[0].reply, OneReply(answers[0]), ClientTalk.Replies(answers[1..]);
      RepliesFirst(answers);
      OnlyReply(answers[1..]);
      assert x + [] == x && [] + Join(answers[1..]) == Join(answers[1..]);
      assert ClientTalk.Replies(answers) == multiset{} ==> |less + more| == 0;
      forall m | ClientTalk.Replies(answers) == multiset{m} ensures Join(answers) == m {
        assert |less + more| == 1 && |less + more| == |less| + |more|;
        if x == [] {
          assert less + more == more;
        } else {
          assert x in less + more && |more| == 0 && more == multiset{};
        }
      }
    }
  }

  // ---------- uploads ----------

  /** A stream that is answered only at its end, and then leaves an idle service, may also be cut anywhere by
      a host that acknowledges. */
  lemma {:induction false} TameConverse(a: Afs, w: World, events: seq<HostEvent>)
    requires Ready(a) && Tame(a, w, Sent(events)) && Waits(a, w, events, 0)
    requires var q := Quiet(a, w, Sent(events)); q.ret >= 0 && q.afs.phase == WaitCmd && q.afs.buf == []
    ensures Converse(a, w, events) == Finish(Quiet(a, w, Sent(events)))
    decreases |events|
  {
    hide Quiet;
    hide Ack;
    hide Tame;
    hide Loop;
    if events == [] {
      QuietNothing(a, w);
    } else {
      var x, y := events[0].bytes, Sent(events[1..]);
      if y != [] {
        TameSplit(a, w, x, y);
        FeedFinishes(a, w, x);
        QuietSplit(a, w, |x|, x, y);
        var f := Feed(a, w, x);
        TameConverse(f.afs, f.w, events[1..]);
        assert [] + Converse(f.afs, f.w, events[1..]).reply == Converse(f.afs, f.w, events[1..]).reply;
      } else {
        assert x + y == x;
        TameAnswersLast(a, w, x);
        FeedFinishes(a, w, x);
        var f := Feed(a, w, x);
        IdleTail(f.afs, f.w, events[1..]);
        assert f.reply + [] == f.reply;
      }
    }
  }

  // ---------- through the client ----------

  /** The service v of a reachable state, the frames since its OPEN, and its answers to them. */
  lemma ServedOverTheTransport(turns: seq<ClientSpec.Turn>, v: ClientSpec.Service, w: World)
    requires ClientSpec.CanRun(ClientSpec.Init(), turns)
    requires v in ClientSpec.Run(ClientSpec.Init(), turns).services && v.priv.Sync?
    requires Agrees(Idle(0, 0), w, ClientTalk.TalkOf(ClientSpec.Run(ClientSpec.Init(), turns).log, v.handle).answers)
    ensures var s := ClientSpec.Run(ClientSpec.Init(), turns);
            var t := ClientTalk.TalkOf(s.log, v.handle);
            var f := Converse(Idle(0, 0), w, Events(ClientTalk.AskedOf(t.frames, v.handle, v.peer)));
            && f.ret == 0 && f.reply == Join(t.answers)
            && ClientTalk.IsOpen(t.first, v.peer, ClientSpec.Sync)
            && ClientTalk.Ends(Decoder.Decode(false, s.rx).frames, t.first + t.frames)
            && (s.open ==> multiset(t.sent) + ClientTalk.Pending(s.requests, v.handle) == ClientTalk.Replies(t.answers))
  {
    var s := ClientSpec.Run(ClientSpec.Init(), turns);
    ClientTalk.SyncIsAsked(turns, v);
    ClientTalk.TalkIsSuffix(s.log, v.handle);
    ClientTheorems.ReassemblyRefinesDecoding(turns);
    AgreedConversation(Idle(0, 0), w, ClientTalk.TalkOf(s.log, v.handle).answers);
  }

  /** What the host has written to the service v since its OPEN. */
  function Conversation(s: ClientSpec.State, v: ClientSpec.Service): seq<HostEvent> {
    Events(ClientTalk.AskedOf(ClientTalk.TalkOf(s.log, v.handle).frames, v.handle, v.peer))
  }

  /** A push: in any run of a client in which a sync service is listed and answers as the file sync service
      does, if the WRTE frames delivered for it since its OPEN, among any others and read in any pieces, carry
      the bytes of an upload, then the file is exactly the pushed blocks, the service is idle with nothing
      open, and in an open client the one reply, OKAY, is the payload of the one WRTE sent for the service, or
      still waits behind an acknowledgement. */
  lemma PushOverTheTransport(turns: seq<ClientSpec.Turn>, v: ClientSpec.Service,
                             w: World, name: Path, blocks: seq<seq<byte>>, time: nat)
    requires ClientSpec.CanRun(ClientSpec.Init(), turns)
    requires v in ClientSpec.Run(ClientSpec.Init(), turns).services && v.priv.Sync?
    requires Agrees(Idle(0, 0), w, ClientTalk.TalkOf(ClientSpec.Run(ClientSpec.Init(), turns).log, v.handle).answers)
    requires Fits(blocks) && time < WORD && FileArgument(w.env, name) && Willing(w.env)
    requires var events := Conversation(ClientSpec.Run(ClientSpec.Init(), turns), v);
             Sent(events) == UploadBytes(name, blocks, time) && Waits(Idle(0, 0), w, events, 0)
    ensures var s := ClientSpec.Run(ClientSpec.Init(), turns);
            var f, t := Converse(Idle(0, 0), w, Conversation(s, v)), ClientTalk.TalkOf(s.log, v.handle);
            && f.w.files == w.files[SendPath(name) := Flatten(blocks)]
            && f.w.handles == w.handles - {w.next} && f.afs.phase == WaitCmd && f.afs.buf == []
            && (s.open ==>
                  && multiset(t.sent) + ClientTalk.Pending(s.requests, v.handle) == multiset{DataMsg(ID_OKAY, [])}
                  && (ClientTalk.Pending(s.requests, v.handle) == multiset{} ==> t.sent == [DataMsg(ID_OKAY, [])]))
  {
    ServedOverTheTransport(turns, v, w);
    var s := ClientSpec.Run(ClientSpec.Init(), turns);
    hide ClientSpec.Run;
    hide ClientSpec.CanRun;
    hide ClientTalk.Replies;
    hide ClientTalk.Pending;
    hide Yields;
    hide Agrees;
    var t, events := ClientTalk.TalkOf(s.log, v.handle), Conversation(s, v);
    var f := UploadInOneFrame(Idle(0, 0), w, name, blocks, time);
    PushConverse(w, events, f);
    assert |DataMsg(ID_OKAY, [])| == 8;
    OneMessageSent(turns, v, w);
    if s.open {
      SingleSent(t.sent, ClientTalk.Pending(s.requests, v.handle), DataMsg(ID_OKAY, []));
    }
  }

  lemma TameFeeds(a: Afs, w: World, input: seq<byte>)
    requires Ready(a) && Tame(a, w, input)
    ensures Feed(a, w, input) == Finish(Quiet(a, w, input))
  {
    TameAnswersLast(a, w, input);
    FeedFinishes(a, w, input);
  }

  lemma PushConverse(w: World, events: seq<HostEvent>, f: Fed)
    requires Yields(Idle(0, 0), w, Sent(events), f) && Waits(Idle(0, 0), w, events, 0)
    requires f.ret == 0 && f.afs.phase == WaitCmd && f.afs.buf == []
    ensures Converse(Idle(0, 0), w, events) == f
  {
    TameConverse(Idle(0, 0), w, events);
  }

  lemma OneMessageSent(turns: seq<ClientSpec.Turn>, v: ClientSpec.Service, w: World)
    requires ClientSpec.CanRun(ClientSpec.Init(), turns)
    requires v in ClientSpec.Run(ClientSpec.Init(), turns).services && v.priv.Sync?
    requires var answers := ClientTalk.TalkOf(ClientSpec.Run(ClientSpec.Init(), turns).log, v.handle).answers;
             Agrees(Idle(0, 0), w, answers) && |Join(answers)| == 8
    ensures var answers := ClientTalk.TalkOf(ClientSpec.Run(ClientSpec.Init(), turns).log, v.handle).answers;
            ClientTalk.Replies(answers) == multiset{Join(answers)}
  {
    ClientTalk.SyncIsAsked(turns, v);
    hide ClientSpec.Run;
    OneMessage(Idle(0, 0), w, ClientTalk.TalkOf(ClientSpec.Run(ClientSpec.Init(), turns).log, v.handle).answers);
  }

  lemma SingleSent(sent: seq<seq<byte>>, pending: multiset<seq<byte>>, m: seq<byte>)
    requires multiset(sent) + pending == multiset{m}
    ensures pending == multiset{} ==> sent == [m]
  {
    if pending == multiset{} {
      assert multiset(sent) == multiset{m} && |sent| == |multiset(sent)| == 1;
      assert sent[0] in multiset(sent);
    }
  }

  /** Whatever calls fail: if the host of an open client has been sent, or is about to be sent, a lone OKAY in
      answer to an upload, then the file is exactly the pushed blocks. */
  lemma OkayOverTheTransport(turns: seq<ClientSpec.Turn>, v: ClientSpec.Service,
                             w: World, name: Path, blocks: seq<seq<byte>>, time: nat)
    requires ClientSpec.CanRun(ClientSpec.Init(), turns)
    requires v in ClientSpec.Run(ClientSpec.Init(), turns).services && v.priv.Sync?
    requires Agrees(Idle(0, 0), w, ClientTalk.TalkOf(ClientSpec.Run(ClientSpec.Init(), turns).log, v.handle).answers)
    requires Fits(blocks) && time < WORD && Argument(w.env, name)
    requires var events := Conversation(ClientSpec.Run(ClientSpec.Init(), turns), v);
             Sent(events) == UploadBytes(name, blocks, time) && Waits(Idle(0, 0), w, events, 0)
    requires var s := ClientSpec.Run(ClientSpec.Init(), turns);
             && s.open
             && multiset(ClientTalk.TalkOf(s.log, v.handle).sent) + ClientTalk.Pending(s.requests, v.handle)
                == multiset{DataMsg(ID_OKAY, [])}
    ensures Exact(w, name, blocks,
                  Converse(Idle(0, 0), w, Conversation(ClientSpec.Run(ClientSpec.Init(), turns), v)))
  {
    ServedOverTheTransport(turns, v, w);
    var s := ClientSpec.Run(ClientSpec.Init(), turns);
    hide ClientSpec.Run;
    hide ClientSpec.CanRun;
    hide ClientTalk.Replies;
    hide ClientTalk.Pending;
    hide Agrees;
    hide Exact;
    OnlyReply(ClientTalk.TalkOf(s.log, v.handle).answers);
    OkayIsHonest(Idle(0, 0), w, name, blocks, time, Conversation(s, v));
  }
}
