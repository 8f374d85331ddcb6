/** Inputs at which the limits of the file sync service show. */
module SyncLimits {
  import opened Bytes
  import opened Frame
  import opened SyncWorld
  import opened SyncSpec
  import opened SyncSplit
  import opened SyncUpload

  // ---------- an answer against the size of its packet ----------

  lemma CommandFits(a: Afs, w: World, rest: seq<byte>, name: Path, used: nat)
    requires a.phase.WaitCmdData? && used + 20 <= PAYLOAD_SIZE
    ensures used + |Command(a, w, rest, name, used).reply| <= PAYLOAD_SIZE
  {
    hide Parents;
    hide LE32;
    hide LastComma;
    if a.cmd == ID_LIST {
      hide InitSend;
      hide InitRecv;
    } else if a.cmd == ID_SEND {
      hide InitList;
      hide InitRecv;
    }
  }

  /** Behind other answers, too, an answer stays within the payload as long as there is room for the fixed part of
      the longest message: file data, names and reasons are cut to what is left. */
  lemma StepFits(a: Afs, w: World, input: seq<byte>, used: nat)
    requires Ready(a) && input != [] && used + 20 <= PAYLOAD_SIZE
    ensures used + |Step(a, w, input, used).reply| <= PAYLOAD_SIZE
  {
    hide Command;
    hide LE32;
    hide Word;
    hide WriteAll;
    hide Symlink;
    hide CString;
    if a.phase.WaitCmdData? {
      var g := Gather(a.buf, a.namelen, input);
      if g.Whole? {
        CommandFits(a.(buf := []), w, g.rest, CString(g.bytes), used);
      }
    }
  }

  lemma {:induction false} QuietFits(a: Afs, w: World, input: seq<byte>)
    requires Ready(a)
    ensures |Quiet(a, w, input).reply| <= PAYLOAD_SIZE
    decreases Measure(a, input)
  {
    hide Step;
    if input != [] {
      var o := Step(a, w, input, 0);
      StepFits(a, w, input, 0);
      if Silent(o) {
        QuietFits(o.afs, o.w, o.rest);
      }
    }
  }

  lemma AckFits(a: Afs, w: World)
    ensures |Ack(a, w).reply| <= PAYLOAD_SIZE
  {
    hide LE32;
  }

  /** A system in which a file of a whole payload waits to be read. */
  function LargeFile(name: Path): World {
    World(Env(t => false, t => PAYLOAD_SIZE, (t, p) => None, (t, p) => None, (t, p) => None, t => Created,
              t => [], s => false, true), 0,
          map[name := seq(PAYLOAD_SIZE, i => 0)], map[], map[], 0, multiset{}, [])
  }

  /** The last byte of a RECV request is answered by a DATA message of a whole payload. */
  lemma LargeAnswer(name: byte)
    requires name != 0
    ensures var a, w := Afs(WaitCmdData, ID_RECV, 1, []), LargeFile([name]);
            AnswersLast(a, w, [name]) && |Feed(a, w, [name]).reply| == PAYLOAD_SIZE
  {
    var a, w := Afs(WaitCmdData, ID_RECV, 1, []), LargeFile([name]);
    assert [] + [name] == [name] && [name] + [] == [name];
    NameStep(w, ID_RECV, [name], [], 0);
    hide Dispatch;
    hide LE32;
    var w1 := OpenRead(w, [name]).0;
    assert Left(w1, 0) == w.files[[name]];
    assert Step(a, w, [name], 0).rest == [];
    FeedFinishes(a, w, [name]);
  }

  /** The packets allocated before a client is connected hold CNXN_PAYLOAD_SIZE bytes. A message, alone in its
      packet, in answer to a frame or to an acknowledgement, fits a packet of `cap` bytes in every state and
      system if and only if `cap` is at least PAYLOAD_SIZE. */
  lemma AnswersFitExactly(cap: nat)
    ensures cap >= PAYLOAD_SIZE <==>
            && (forall a, w, input :: Ready(a) && AnswersLast(a, w, input) ==> |Feed(a, w, input).reply| <= cap)
            && (forall a, w :: |Ack(a, w).reply| <= cap)
  {
    hide Feed;
    hide AnswersLast;
    hide Ready;
    hide Ack;
    if cap >= PAYLOAD_SIZE {
      forall a, w, input | Ready(a) && AnswersLast(a, w, input) ensures |Feed(a, w, input).reply| <= cap {
        FeedFinishes(a, w, input);
        QuietFits(a, w, input);
      }
      forall a, w ensures |Ack(a, w).reply| <= cap {
        AckFits(a, w);
      }
    } else {
      var a, w := Afs(WaitCmdData, ID_RECV, 1, []), LargeFile([102]);
      LargeAnswer(102);
      assert Ready(a) by {
        ReadyForName();
      }
    }
  }

  lemma ReadyForName()
    ensures Ready(Afs(WaitCmdData, ID_RECV, 1, []))
  {
  }

  // ---------- several answers in one packet ----------

  /** A frame that starts with a request whose answer is no longer than itself, or that is the last, behind
      replies that have not reached it: it is answered, and nothing that follows is touched. */
  lemma AskOne(a: Afs, w: World, end: nat, id: nat, name: Path, rest: seq<byte>, reply: seq<byte>, o: Outcome)
    requires a.phase == WaitCmd && a.buf == [] && id < WORD && id != ID_QUIT && 0 < |name| < PATH_MAX && 0 !in name
    requires |reply| + 8 + |name| + |rest| <= end
    requires o == Settle(Command(Afs(WaitCmdData, id, |name|, []), w, rest, name, |reply|))
    requires o.ret >= 0 && o.rest == rest && (|o.reply| <= 8 + |name| || rest == []) && Ready(o.afs)
    ensures Loop(a, w, end, Request(id, name) + rest, reply) == Loop(o.afs, o.w, end, rest, reply + o.reply)
  {
    RequestStep(a, w, id, name, rest, |reply|);
    NameStep(w, id, name, rest, |reply|);
    hide Step;
    hide Loop;
    hide LE32;
    hide Command;
    var b, input := Afs(WaitCmdData, id, |name|, []), Request(id, name) + rest;
    assert |input| == 8 + |name| + |rest| && Ready(b);
    LoopFirst(a, w, end, input, reply);
    assert reply + [] == reply && Overlay(name + rest, end - |name + rest|, reply) == name + rest;
    LoopFirst(b, w, end, name + rest, reply);
    assert Overlay(rest, end - |rest|, reply + o.reply) == rest;
    hide Overlay;
  }

  /** STAT requests one behind the other. */
  function Stats(names: seq<Path>): seq<byte> {
    if names == [] then [] else Request(ID_STAT, names[0]) + Stats(names[1..])
  }

  function MetaAt(env: Env, turn: nat, path: Path): Meta {
    if env.stat(turn, path).Some? then env.stat(turn, path).value else NO_META
  }

  /** What the system says of them, from some turn on. */
  function StatReplies(env: Env, turn: nat, names: seq<Path>): (r: seq<byte>)
    ensures |r| == 16 * |names|
    decreases |names|
  {
    if names == [] then []
    else
      StatMsg(MetaAt(env, turn, names[0])) + StatReplies(env, turn + 1, names[1..])
  }

  lemma AskStat(a: Afs, w: World, end: nat, name: Path, rest: seq<byte>, reply: seq<byte>)
    requires a.phase == WaitCmd && a.buf == [] && 8 <= |name| < PATH_MAX && 0 !in name
    requires |reply| + 8 + |name| + |rest| <= end
    ensures Loop(a, w, end, Request(ID_STAT, name) + rest, reply)
         == Loop(Afs(WaitCmd, ID_STAT, |name|, []), Tick(w), end, rest, reply + StatMsg(MetaAt(w.env, w.turn, name)))
  {
    hide StatMsg;
    var o := Settle(Command(Afs(WaitCmdData, ID_STAT, |name|, []), w, rest, name, |reply|));
    AskOne(a, w, end, ID_STAT, name, rest, reply, o);
    hide Loop;
  }

  lemma {:induction false} StatsRun(a: Afs, w: World, end: nat, names: seq<Path>, reply: seq<byte>)
    requires a.phase == WaitCmd && a.buf == [] && |reply| + |Stats(names)| <= end
    requires forall i :: 0 <= i < |names| ==> 8 <= |names[i]| < PATH_MAX && 0 !in names[i]
    ensures var f := Loop(a, w, end, Stats(names), reply);
            && f.reply == reply + StatReplies(w.env, w.turn, names) && f.ret == 0
            && f.afs.phase == WaitCmd && f.afs.buf == [] && f.w == w.(turn := w.turn + |names|)
    decreases |names|
  {
    hide Loop;
    hide StatMsg;
    hide Request;
    if names == [] {
      LoopEnds(a, w, end, reply);
      assert reply + [] == reply;
    } else {
      var m := StatMsg(MetaAt(w.env, w.turn, names[0]));
      StatSize(names[0]);
      AskStat(a, w, end, names[0], Stats(names[1..]), reply);
      StatsRun(Afs(WaitCmd, ID_STAT, |names[0]|, []), Tick(w), end, names[1..], reply + m);
      assert reply + m + StatReplies(w.env, w.turn + 1, names[1..])
          == reply + (m + StatReplies(w.env, w.turn + 1, names[1..]));
    }
  }

  lemma StatSize(name: Path)
    ensures |Request(ID_STAT, name)| == 8 + |name|
  {
  }

  /** Although STAT requests of shorter paths may not share a frame, those of at least eight bytes may: each is
      answered, in order and in full, with what the system says at its turn, and the replies fit the frame. */
  lemma PipelinedStats(a: Afs, w: World, names: seq<Path>)
    requires a.phase == WaitCmd && a.buf == []
    requires forall i :: 0 <= i < |names| ==> 8 <= |names[i]| < PATH_MAX && 0 !in names[i]
    ensures var f := Feed(a, w, Stats(names));
            && f.ret == 0 && f.reply == StatReplies(w.env, w.turn, names) && |f.reply| <= |Stats(names)|
            && f.afs.phase == WaitCmd && f.afs.buf == [] && f.w == w.(turn := w.turn + |names|)
  {
    StatsRun(a, w, |Stats(names)|, names, []);
    StatsLong(names);
    hide Loop;
    hide Stats;
    assert [] + StatReplies(w.env, w.turn, names) == StatReplies(w.env, w.turn, names);
  }

  lemma {:induction false} StatsLong(names: seq<Path>)
    requires forall i :: 0 <= i < |names| ==> 8 <= |names[i]|
    ensures |Stats(names)| >= 16 * |names|
  {
    if names != [] {
      StatSize(names[0]);
      StatsLong(names[1..]);
    }
  }

  // ---------- answers that outgrow the payload ----------

  /** A system without files. */
  const EMPTY: World :=
    World(Env(t => true, t => 0, (t, p) => None, (t, p) => None, (t, p) => None, t => Refused,
              t => [], s => false, true), 0,
          map[], map[], map[], 0, multiset{}, [])

  function Letters(n: nat): (r: seq<byte>)
    ensures |r| == n && 0 !in r
  {
    seq(n, i => 97)
  }

  /** A LIST request of a directory that does not open is answered by twenty bytes. */
  lemma AskList(a: Afs, w: World, end: nat, n: nat, rest: seq<byte>, reply: seq<byte>)
      returns (b: Afs, w1: World, m: seq<byte>)
    requires a.phase == WaitCmd && a.buf == [] && 0 < n < PATH_MAX - 3 && w.env == EMPTY.env
    requires |reply| + 8 + n + |rest| <= end && (n >= 12 || rest == [])
    ensures b.phase == WaitCmd && b.buf == [] && w1.env == EMPTY.env && |m| == 20
    ensures Loop(a, w, end, Request(ID_LIST, Letters(n)) + rest, reply) == Loop(b, w1, end, rest, reply + m)
  {
    ListFails(w, n, rest, |reply|);
    var o := Settle(Command(Afs(WaitCmdData, ID_LIST, n, []), w, rest, Letters(n), |reply|));
    AskOne(a, w, end, ID_LIST, Letters(n), rest, reply, o);
    b, w1, m := o.afs, o.w, o.reply;
  }

  /** Requests whose answers are as long as themselves, and a last one whose answer is longer. */
  function Filler(stats: nat, lists: nat): (r: seq<byte>)
    ensures |r| == 16 * stats + 20 * lists + 9
  {
    if stats > 0 then Request(ID_STAT, Letters(8)) + Filler(stats - 1, lists)
    else if lists > 0 then Request(ID_LIST, Letters(12)) + Filler(stats, lists - 1)
    else Request(ID_LIST, Letters(1)) + []
  }

  lemma {:induction false} FillerAnswers(a: Afs, w: World, end: nat, stats: nat, lists: nat, reply: seq<byte>)
    requires a.phase == WaitCmd && a.buf == [] && w.env == EMPTY.env && |reply| + |Filler(stats, lists)| <= end
    ensures |Loop(a, w, end, Filler(stats, lists), reply).reply| == |reply| + 16 * stats + 20 * lists + 20
    decreases stats + lists
  {
    hide Loop;
    hide StatMsg;
    hide Request;
    hide Letters;
    hide LE32;
    if stats > 0 {
      AskStat(a, w, end, Letters(8), Filler(stats - 1, lists), reply);
      var m := StatMsg(MetaAt(w.env, w.turn, Letters(8)));
      FillerAnswers(Afs(WaitCmd, ID_STAT, 8, []), Tick(w), end, stats - 1, lists, reply + m);
    } else if lists > 0 {
      var b, w1, m := AskList(a, w, end, 12, Filler(stats, lists - 1), reply);
      FillerAnswers(b, w1, end, stats, lists - 1, reply + m);
    } else {
      var b, w1, m := AskList(a, w, end, 1, [], reply);
      LoopEnds(b, w1, end, reply + m);
    }
  }

  /** For every payload size of at least 64 there is a frame that fits it and whose answers do not. */
  lemma AnswersCanOutgrow() returns (input: seq<byte>)
    requires PAYLOAD_SIZE >= 64
    ensures |input| <= PAYLOAD_SIZE && |Feed(Idle(0, 0), EMPTY, input).reply| > PAYLOAD_SIZE
  {
    hide Loop;
    hide Filler;
    var stats, lists := FillerSize(PAYLOAD_SIZE);
    input := Filler(stats, lists);
    FillerAnswers(Idle(0, 0), EMPTY, |input|, stats, lists, []);
  }

  lemma FillerSize(size: nat) returns (stats: nat, lists: nat)
    requires size >= 64
    ensures 16 * stats + 20 * lists + 9 <= size < 16 * stats + 20 * lists + 20
  {
    var d, r := (size - 9) / 16, (size - 9) % 16;
    assert size - 9 == 16 * d + r && 0 <= r < 16;
    stats, lists := if r <= 10 then d else d - 2, if r <= 10 then 0 else 2;
  }

  lemma ListFails(w: World, n: nat, rest: seq<byte>, used: nat)
    requires 0 < n < PATH_MAX - 3 && w.env == EMPTY.env
    ensures var o := Settle(Command(Afs(WaitCmdData, ID_LIST, n, []), w, rest, Letters(n), used));
            && o.ret == 0 && o.rest == rest && |o.reply| == 20
            && o.afs == Afs(WaitCmd, ID_LIST, n, []) && o.w.env == EMPTY.env
  {
    hide LE32;
  }

  // ---------- an answer over what follows ----------

  /** A STAT request of nine bytes is answered by sixteen, although no write fails and nothing is lost. In one
      frame the first seven bytes that follow are replaced before they are read. */
  lemma StatReachesOn(w: World, y: seq<byte>)
    ensures var a, x := Idle(0, 0), Request(ID_STAT, [SLASH]);
            var f := Feed(a, w, x);
            && |x| == 9 && |f.reply| == 16 && f.ret == 0 && Lost(a, w, |x|, x, []) == 0
            && Feed(a, w, x + y) == Loop(f.afs, f.w, |x| + |y|, Overlay(y, 9, f.reply), f.reply)
            && (|y| >= 7 ==> Overlay(y, 9, f.reply) == f.reply[9..] + y[7..])
  {
    hide Step;
    hide Loop;
    hide Lost;
    hide Overlay;
    hide LE32;
    var a, x, b := Idle(0, 0), Request(ID_STAT, [SLASH]), Afs(WaitCmdData, ID_STAT, 1, []);
    assert x + [] == x && [SLASH] + [] == [SLASH] && |x| == 9;
    RequestStep(a, w, ID_STAT, [SLASH], [], 0);
    StatAnswers(b, w);
    StatStops(a, w, x, b, Step(b, w, [SLASH], 0));
    var f := Feed(a, w, x);
    FeedSplit(a, w, x, y);
    assert Overlay(y, 9, f.reply)[0..] == Overlay(y, 9, f.reply);
    OverlayLong(y, 9, f.reply);
  }

  lemma OverlayLong(y: seq<byte>, at: nat, reply: seq<byte>)
    requires |reply| >= at
    ensures |y| >= |reply| - at ==> Overlay(y, at, reply) == reply[at..] + y[|reply| - at..]
  {
  }

  lemma StatAnswers(b: Afs, w: World)
    requires b == Afs(WaitCmdData, ID_STAT, 1, [])
    ensures var o := Step(b, w, [SLASH], 0); o.ret >= 0 && o.rest == [] && |o.reply| == 16
  {
    assert [SLASH] + [] == [SLASH];
    NameStep(w, ID_STAT, [SLASH], [], 0);
    hide Dispatch;
    hide StatMsg;
  }

  lemma StatStops(a: Afs, w: World, x: seq<byte>, b: Afs, o: Outcome)
    requires Ready(a) && Ready(b) && a.phase == WaitCmd && b.phase == WaitCmdData && |x| == 9
    requires Step(a, w, x, 0) == Outcome(b, w, [SLASH], [], 1) && Step(b, w, [SLASH], 0) == o
    requires o.ret >= 0 && o.rest == []
    ensures Feed(a, w, x) == Fed(o.afs, o.w, o.reply, 0) && Lost(a, w, 9, x, []) == 0
  {
    hide Step;
    hide Overlay;
    hide Loop;
    hide Lost;
    OverlayNothing([SLASH], 8, []);
    OverlayNothing([], 9, o.reply);
    LoopFirst(a, w, 9, x, []);
    LostFirst(a, w, 9, x, []);
    assert [] + o.reply == o.reply;
    LoopFirst(b, w, 9, [SLASH], []);
    LostFirst(b, w, 9, [SLASH], []);
    LoopEnds(o.afs, o.w, 9, o.reply);
  }

  // ---------- a block that is lost ----------

  /** From an idle service: the file opens, the first byte of a block of two cannot be written, and the frame
      ends there. One byte of the block is lost if it comes in the same frame, and is taken for the start of
      a command if it comes in the next. */
  lemma BlockIsLost(w: World, byte1: byte, byte2: byte)
    requires !w.env.fails(w.turn + 1) && w.env.fails(w.turn + 2)
    ensures var name := [SLASH, 102];
            var x := Request(ID_SEND, name) + (LE32(ID_DATA) + LE32(2) + [byte1]);
            var f := Feed(Idle(0, 0), w, x);
            && f.ret == 0 && |f.reply| > 8 && Lost(Idle(0, 0), w, |x|, x, []) == 1
            && Feed(Idle(0, 0), w, x + [byte2]).afs.buf == []
            && Feed(f.afs, f.w, [byte2]).afs.buf == [byte2]
  {
    hide Step;
    hide Loop;
    hide Lost;
    hide LE32;
    hide Request;
    hide Overlay;
    var x := Request(ID_SEND, [SLASH, 102]) + (LE32(ID_DATA) + LE32(2) + [byte1]);
    BlockReached(w, byte1, |x|);
    LostFacts(Idle(0, 0), w, |x|, x, []);
    FeedSplit(Idle(0, 0), w, x, [byte2]);
    var f := Feed(Idle(0, 0), w, x);
    PartialHeader(f.afs, f.w, [byte2]);
    LoopEnds(Idle(f.afs.cmd, 0), f.w, |x| + 1, f.reply);
    assert Overlay([byte2], |x|, f.reply)[1..] == [];
  }

  /** The steps up to the failing write. */
  lemma BlockReached(w: World, byte1: byte, end: nat)
    requires !w.env.fails(w.turn + 1) && w.env.fails(w.turn + 2)
    requires end == |Request(ID_SEND, [SLASH, 102]) + (LE32(ID_DATA) + LE32(2) + [byte1])|
    ensures Lost(Idle(0, 0), w, end, Request(ID_SEND, [SLASH, 102]) + (LE32(ID_DATA) + LE32(2) + [byte1]), []) == 1
  {
    hide Step;
    hide Lost;
    hide LE32;
    hide OpenForSend;
    hide Overlay;
    hide Swallows;
    var name, head := [SLASH, 102], LE32(ID_DATA) + LE32(2) + [byte1];
    var b := Afs(WaitCmdData, ID_SEND, 2, []);
    var (c, w1) := OpenForSend(w, name);
    RequestStep(Idle(0, 0), w, ID_SEND, name, head, 0);
    NameStep(w, ID_SEND, name, head, 0);
    FileOpens(w, name, head);
    hide Request;
    hide Command;
    var d := c.(phase := SendFileData(w.next), namelen := 2);
    BlockHeader(c, d, w1, w.next, byte1);
    LostBehind(Idle(0, 0), w, end, Request(ID_SEND, name) + head, b, w, name + head);
    LostBehind(b, w, end, name + head, c, w1, head);
    LostBehind(c, w1, end, head, d, w1, [byte1]);
    LostNow(d, w1, end, [byte1], []);
  }

  lemma BlockHeader(c: Afs, d: Afs, w: World, fd: nat, byte1: byte)
    requires c.phase == SendFileHdr(fd) && c.buf == [] && d == c.(phase := SendFileData(fd), namelen := 2)
    requires w.env.fails(w.turn)
    ensures Step(c, w, LE32(ID_DATA) + LE32(2) + [byte1], 0) == Outcome(d, w, [byte1], [], 1)
    ensures Swallows(d, w, [byte1])
  {
    HeaderWhole(ID_DATA, 2, [byte1]);
  }

  lemma LostBehind(a: Afs, w: World, end: nat, input: seq<byte>, b: Afs, w1: World, rest: seq<byte>)
    requires Ready(a) && 0 < |input| <= end && !a.phase.SendFileData?
    requires Step(a, w, input, 0) == Outcome(b, w1, rest, [], 1)
    ensures Lost(a, w, end, input, []) == Lost(b, w1, end, rest, [])
  {
    hide Step;
    LostFirst(a, w, end, input, []);
    OverlayNothing(rest, end - |rest|, []);
    var none: seq<byte> := [];
    assert none + [] == none;
  }

  /** The service and the system once a SEND has opened its file. */
  function OpenForSend(w: World, name: Path): (Afs, World) {
    var o := InitSend(Afs(WaitCmdData, ID_SEND, |name|, []), w, [], name, 0);
    (o.afs, o.w)
  }

  lemma FileOpens(w: World, name: Path, rest: seq<byte>)
    requires !w.env.fails(w.turn + 1) && w.env.fails(w.turn + 2) && name == [SLASH, 102] && rest != []
    ensures var b, (c, w1) := Afs(WaitCmdData, ID_SEND, 2, []), OpenForSend(w, name);
            && Settle(Command(b, w, rest, name, 0)) == Outcome(c, w1, rest, [], 1)
            && c == Afs(SendFileHdr(w.next), ID_SEND, 2, []) && w1.env == w.env && w1.env.fails(w1.turn)
  {
    assert LastComma(name).None?;
    assert MakeParents(Unlink(w, name), name, 1) == (Unlink(w, name), true);
  }
}
