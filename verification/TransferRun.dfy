/** A run in which a push goes through, from the first byte of the client to the OKAY. */
module TransferRun {
  import opened Bytes
  import opened Frame
  import opened SyncWorld
  import opened SyncSpec
  import opened SyncUpload
  import opened ClientTalk
  import opened ClientLimits
  import C = ClientSpec
  import opened Transfer

  const FILE: Path := [SLASH, 102]
  const PUSH: seq<byte> := UploadBytes(FILE, [], 0)
  const OKAY: seq<byte> := DataMsg(ID_OKAY, [])
  const WRITE: Frame := Frame(A_WRTE, 1, 1, PUSH)

  /** The service answers with OKAY. */
  const ANSWERS: C.Env := C.Env(true, true, true, OKAY, None)

  lemma PushFits()
    ensures |PUSH| == 18 && |OKAY| == 8 && PUSH != [] && Sendable(false, WRITE) && C.IsEnv(ANSWERS)
  {
    hide LE32;
  }

  /** The history of the service after its OPEN. */
  lemma StartTalk()
    ensures TalkOf(ClientLimits.Start().log, 1) == Talk(1, [SYNC_OPEN], [], [], [], [], [])
  {
    HeaderArrival();
    SyncOpens();
    OpenLog();
    var s := Processed(C.Init(), SYNC_OPEN, ENV);
    hide Processed;
    TalkAppend(s.log, C.Freed(s.requests[0].packet.pid), 1);
    hide TalkOf;
  }

  lemma HeaderArrival()
    ensures Carries(Packed(C.Init(), SYNC_OPEN), C.Init(), SYNC_OPEN)
  {
    FrameArrives(C.Init(), SYNC_OPEN, ENV, []);
    hide Packed;
    hide Carries;
  }

  lemma OpenLog()
    requires Carries(Packed(C.Init(), SYNC_OPEN), C.Init(), SYNC_OPEN)
    ensures TalkOf(Processed(C.Init(), SYNC_OPEN, ENV).log, 1) == Talk(1, [SYNC_OPEN], [], [], [], [], [])
  {
    var p := Packed(C.Init(), SYNC_OPEN);
    ClientLimits.Names(p, ENV);
    hide Packed;
    hide Encode;
    hide C.OpeningOf;
    var s := Processed(C.Init(), SYNC_OPEN, ENV);
    var got := C.Got(p.pid, p.msg, p.data);
    TalkAppend([], got, 1);
    TalkAppend([got], C.Registered(1, 1), 1);
    assert [] + [got] == [got] && [got] + [C.Registered(1, 1)] == [got, C.Registered(1, 1)];
    TalkAppend([got, C.Registered(1, 1)], s.log[2], 1);
    assert s.log == [got, C.Registered(1, 1)] + [s.log[2]];
    hide TalkOf;
  }

  /** The WRTE is processed: the service answers, and its reply waits behind the OKAY. */
  lemma Written(s: C.State) returns (r: C.Request)
    requires Bare(s, 0) && Carries(Packed(s, WRITE), s, WRITE)
    requires TalkOf(s.log, 1) == Talk(1, [SYNC_OPEN], [], [], [], [], [])
    ensures r.target == C.Transport && r.packet.msg.command == A_OKAY && r.packet.msg.arg0 == 1
    ensures r.packet.writeLen == |OKAY| && r.packet.data == OKAY
    ensures var s1 := Processed(s, WRITE, ANSWERS);
            && s1.requests == [r] && s1.services == [SYNC] && s1.open && s1.frameCount == 1 && s1.reading
            && TalkOf(s1.log, 1) == Talk(1, [SYNC_OPEN], [WRITE], [Answer(C.Data(PUSH), true, OKAY)], [], [], [])
  {
    PushFits();
    var p := Packed(s, WRITE);
    hide Packed;
    hide Encode;
    hide C.HandleOpen;
    hide C.HandleClose;
    hide C.HandleOkay;
    assert C.Find(s.services, 1, 1) == Some(0);
    var s1 := Processed(s, WRITE, ANSWERS);
    assert C.Payload(p) == PUSH;
    r := s1.requests[0];
    var e1, e2 := C.Got(p.pid, p.msg, p.data), C.Answered(1, C.Data(PUSH), true, OKAY);
    TalkAppend(s.log, e1, 1);
    TalkAppend(s.log + [e1], e2, 1);
    TalkAppend(s.log + [e1] + [e2], s1.log[|s.log| + 2], 1);
    assert s1.log == s.log + [e1] + [e2] + [s1.log[|s.log| + 2]];
    hide TalkOf;
  }

  /** The OKAY goes out, then the reply, and the packet is free. */
  lemma ReplyGoes(s: C.State, r: C.Request)
    requires s.requests == [r] && s.services == [SYNC] && s.open && s.frameCount == 1 && s.reading
    requires r.target == C.Transport && r.packet.msg.command == A_OKAY && r.packet.msg.arg0 == 1
    requires r.packet.writeLen == |OKAY| && r.packet.data == OKAY && |OKAY| == 8
    ensures var s1 := C.WriteDone(s, 0, false, true);
            && s1.open && |s1.requests| == 1
            && (var s2 := C.WriteDone(s1, 0, false, true);
                && s2.open && s2.requests == [] && s2.services == [SYNC]
                && TalkOf(s2.log, 1) == TalkOf(s.log, 1).(sent := TalkOf(s.log, 1).sent + [OKAY]))
  {
    hide TalkOf;
    var s1 := C.WriteDone(s, 0, false, true);
    assert Cut(s.requests, 0) == [] && OKAY[..8] == OKAY;
    var e := s1.log[|s.log|];
    assert s1.log == s.log + [e] && e.Offered? && e.payload == OKAY && e.msg.command == A_WRTE && e.msg.arg0 == 1;
    TalkAppend(s.log, e, 1);
    var s2 := C.WriteDone(s1, 0, false, true);
    assert Cut(s1.requests, 0) == [];
    TalkAppend(s1.log, C.Freed(r.packet.pid), 1);
  }

  lemma AnswerAgrees(w: World, answers: seq<Answer>)
    requires Willing(w.env) && answers == [Answer(C.Data(PUSH), true, OKAY)]
    ensures Agrees(Idle(0, 0), w, answers)
  {
    hide Yields;
    var f := UploadInOneFrame(Idle(0, 0), w, FILE, [], 0);
    YieldsFeeds(w, f);
    assert answers[1..] == [];
    hide Feed;
  }

  lemma YieldsFeeds(w: World, f: Fed)
    requires Yields(Idle(0, 0), w, PUSH, f)
    ensures Feed(Idle(0, 0), w, PUSH) == f
  {
    Transfer.TameFeeds(Idle(0, 0), w, PUSH);
  }

  /** On a system where no call fails there is a run that meets everything PushOverTheTransport asks, and
      after which the WRTE with the OKAY has been sent. */
  lemma PushHappens(w: World) returns (turns: seq<C.Turn>)
    requires Willing(w.env)
    ensures C.CanRun(C.Init(), turns)
    ensures var s := C.Run(C.Init(), turns);
            && s.open && s.services == [SYNC] && s.requests == []
            && Agrees(Idle(0, 0), w, TalkOf(s.log, 1).answers)
            && Conversation(s, SYNC) == [Piece(UploadBytes(FILE, [], 0))]
            && TalkOf(s.log, 1).sent == [DataMsg(ID_OKAY, [])]
  {
    hide C.CanRun;
    hide C.Run;
    hide Processed;
    hide Packed;
    hide Encode;
    hide Arrives;
    hide Agrees;
    hide TalkOf;
    hide C.WriteDone;
    hide ClientLimits.Start;
    PushFits();
    Prepared([]);
    StartTalk();
    var s0 := ClientLimits.Start();
    BareFacts(s0, 0);
    FrameArrives(s0, WRITE, ANSWERS, []);
    var r := Written(s0);
    var s1 := Processed(s0, WRITE, ANSWERS);
    ReplyGoes(s1, r);
    var s2 := C.WriteDone(s1, 0, false, true);
    var s3 := C.WriteDone(s2, 0, false, true);
    var done := C.Turn(C.CompleteWrite(0, false), ENV);
    NoMoreTurns(s3);
    Prepend(s2, done, []);
    Prepend(s1, done, [done] + []);
    FrameArrives(s0, WRITE, ANSWERS, [done] + ([done] + []));
    Prepared(Arrives(WRITE, ANSWERS) + ([done] + ([done] + [])));
    turns := PREPARE + (Arrives(WRITE, ANSWERS) + ([done] + ([done] + [])));
    AnswerAgrees(w, TalkOf(s3.log, 1).answers);
    AsksPush();
  }

  lemma NoMoreTurns(s: C.State)
    ensures C.CanRun(s, []) && C.Run(s, []) == s
  {
  }

  lemma AsksPush()
    ensures Events(AskedOf([WRITE], 1, 1)) == [Piece(PUSH)]
  {
    assert [WRITE][..0] == [];
    assert AskedOf([WRITE], 1, 1) == [] + [C.Data(PUSH)];
  }
}
