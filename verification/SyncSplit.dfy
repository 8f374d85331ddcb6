/** When it matters where the bytes of the host are cut into frames, and when it does not. */
module SyncSplit {
  import opened Bytes
  import opened Frame
  import opened SyncWorld
  import opened SyncSpec

  lemma GatherSplit(buf: seq<byte>, size: nat, x: seq<byte>, y: seq<byte>)
    ensures var g := Gather(buf, size, x);
            Gather(buf, size, x + y) ==
            match g
            case Invalid => Invalid
            case Again(b) => Gather(b, size, y)
            case Whole(bytes, rest) => Whole(bytes, rest + y)
    ensures var g := Gather(buf, size, x); g.Again? ==> !Gather(g.buf, size, y).Invalid?
  {
    var g := Gather(buf, size, x);
    if g.Again? {
      assert buf + (x + y) == g.buf + y;
      if |y| >= size - |g.buf| {
        assert buf + (x + y)[..size - |buf|] == g.buf + y[..size - |g.buf|];
        assert (x + y)[size - |buf|..] == y[size - |g.buf|..];
      }
    } else if g.Whole? {
      assert (x + y)[..size - |buf|] == x[..size - |buf|];
      assert (x + y)[size - |buf|..] == g.rest + y;
    }
  }

  function AddRest(o: Outcome, y: seq<byte>): Outcome {
    o.(rest := o.rest + y)
  }

  /** The frame ends in the middle of a header, a name, a target or a block. */
  predicate Partial(a: Afs, w: World, x: seq<byte>) {
    match a.phase
    case WaitCmd => Gather(a.buf, 8, x).Again?
    case WaitCmdData => Gather(a.buf, a.namelen, x).Again?
    case SendFileHdr(_) => Gather(a.buf, 8, x).Again?
    case SendSymHdr(_, _) => Gather(a.buf, 8, x).Again?
    case SendFileData(_) => |x| < a.namelen
    case SendSymData(_, _) => w.env.symlinks && Gather(a.buf, a.namelen, x).Again?
    case _ => false
  }

  /** The shorter frame is taken in whole, and the longer one does what its second piece does next. */
  ghost predicate Absorbed(a: Afs, w: World, x: seq<byte>, y: seq<byte>, used: nat) {
    var o := Dispatch(a, w, x, used);
    && o.rest == [] && o.reply == [] && o.ret == 1 && o.afs.phase == a.phase
    && Dispatch(a, w, x + y, used) == Dispatch(o.afs, o.w, y, used)
  }

  lemma CommandSplit(a: Afs, w: World, rest: seq<byte>, name: Path, y: seq<byte>, used: nat)
    ensures Command(a, w, rest + y, name, used) == AddRest(Command(a, w, rest, name, used), y)
  {
  }

  lemma FileSplit(a: Afs, w: World, x: seq<byte>, y: seq<byte>, used: nat)
    requires a.phase.SendFileData? && SendFileStep(a, w, x, used).reply == []
    ensures var o := SendFileStep(a, w, x, used);
            if |x| < a.namelen then
              && o.rest == [] && o.ret == 1 && o.afs.phase == a.phase
              && SendFileStep(a, w, x + y, used) == SendFileStep(o.afs, o.w, y, used)
            else SendFileStep(a, w, x + y, used) == AddRest(o, y)
  {
    hide FailMsg;
    hide Ascii;
    var n := Min(|x|, a.namelen);
    var m := Min(|x + y|, a.namelen);
    Pieces(x, y, n, m);
    WriteAllAppend(w, a.phase.fd, x[..n], (x + y)[n..m]);
    hide WriteAll;
    if |x| >= a.namelen {
      WriteNothing(WriteAll(w, a.phase.fd, x[..n]).0, a.phase.fd);
    }
  }

  lemma Pieces(x: seq<byte>, y: seq<byte>, n: nat, m: nat)
    requires n <= m <= |x + y| && n <= |x| && (m == n || n == |x|)
    ensures x[..n] + (x + y)[n..m] == (x + y)[..m]
    ensures n == |x| ==> x[..n] == x && x[n..] == [] && (x + y)[n..m] == y[..m - n] && (x + y)[m..] == y[m - n..]
    ensures m == n ==> (x + y)[n..m] == [] && (x + y)[m..] == x[n..] + y
  {
  }

  lemma WriteNothing(w: World, fd: nat)
    ensures WriteAll(w, fd, []) == (w, true)
  {
  }

  lemma WaitSplit(a: Afs, w: World, x: seq<byte>, y: seq<byte>)
    requires a.phase.WaitCmd?
    ensures var o := WaitCmdStep(a, w, x);
            if Gather(a.buf, 8, x).Again? then
              && o.rest == [] && o.reply == [] && o.ret == 1 && o.afs.phase == a.phase
              && WaitCmdStep(a, w, x + y) == WaitCmdStep(o.afs, o.w, y)
            else WaitCmdStep(a, w, x + y) == AddRest(o, y)
  {
    GatherSplit(a.buf, 8, x, y);
    hide Gather;
    hide Word;
  }

  lemma NameSplit(a: Afs, w: World, x: seq<byte>, y: seq<byte>, used: nat)
    requires a.phase.WaitCmdData?
    ensures var o := WaitCmdDataStep(a, w, x, used);
            if Gather(a.buf, a.namelen, x).Again? then
              && o.rest == [] && o.reply == [] && o.ret == 1 && o.afs.phase == a.phase
              && WaitCmdDataStep(a, w, x + y, used) == WaitCmdDataStep(o.afs, o.w, y, used)
            else WaitCmdDataStep(a, w, x + y, used) == AddRest(o, y)
  {
    GatherSplit(a.buf, a.namelen, x, y);
    hide Gather;
    hide Command;
    hide CString;
    var g := Gather(a.buf, a.namelen, x);
    if g.Whole? {
      CommandSplit(a.(buf := []), w, g.rest, CString(g.bytes), y, used);
    }
  }

  lemma HeaderSplit(a: Afs, w: World, x: seq<byte>, y: seq<byte>, used: nat)
    requires a.phase.SendFileHdr? || a.phase.SendSymHdr?
    ensures var o := HeaderStep(a, w, x, used);
            if Gather(a.buf, 8, x).Again? then
              && o.rest == [] && o.reply == [] && o.ret == 1 && o.afs.phase == a.phase
              && HeaderStep(a, w, x + y, used) == HeaderStep(o.afs, o.w, y, used)
            else HeaderStep(a, w, x + y, used) == AddRest(o, y)
  {
    GatherSplit(a.buf, 8, x, y);
    hide Gather;
    hide Word;
    hide FailMsg;
    hide DataMsg;
    hide Up;
    hide Ascii;
  }

  lemma TargetSplit(a: Afs, w: World, x: seq<byte>, y: seq<byte>, used: nat)
    requires a.phase.SendSymData?
    ensures var o := SendSymStep(a, w, x, used);
            if w.env.symlinks && Gather(a.buf, a.namelen, x).Again? then
              && o.rest == [] && o.reply == [] && o.ret == 1 && o.afs.phase == a.phase
              && SendSymStep(a, w, x + y, used) == SendSymStep(o.afs, o.w, y, used)
            else SendSymStep(a, w, x + y, used) == AddRest(o, y)
  {
    GatherSplit(a.buf, a.namelen, x, y);
    hide Gather;
    hide CString;
    hide Symlink;
    hide FailMsg;
    hide Ascii;
  }

  /** One step on a longer frame either does the same and leaves more, or goes on where the step on
      the shorter frame stopped. */
  lemma HandleSplit(a: Afs, w: World, x: seq<byte>, y: seq<byte>, used: nat)
    requires Ready(a) && x != [] && y != []
    requires a.phase.SendFileData? ==> Dispatch(a, w, x, used).reply == []
    ensures if Partial(a, w, x) then Absorbed(a, w, x, y, used)
            else Dispatch(a, w, x + y, used) == AddRest(Dispatch(a, w, x, used), y)
  {
    hide SendFileStep;
    hide WaitCmdStep;
    hide WaitCmdDataStep;
    hide HeaderStep;
    hide SendSymStep;
    hide Gather;
    match a.phase
    case WaitCmd => WaitSplit(a, w, x, y);
    case WaitCmdData => NameSplit(a, w, x, y, used);
    case SendFileHdr(_) => HeaderSplit(a, w, x, y, used);
    case SendSymHdr(_, _) => HeaderSplit(a, w, x, y, used);
    case SendFileData(_) => FileSplit(a, w, x, y, used);
    case SendSymData(_, _) => TargetSplit(a, w, x, y, used);
    case _ =>
  }

  /** In a block, this piece and no more of it is in the frame, and it cannot all be written. */
  predicate Swallows(a: Afs, w: World, x: seq<byte>) {
    a.phase.SendFileData? && |x| < a.namelen && !WriteAll(w, a.phase.fd, x).1
  }

  /** A write that fails: the whole of the block that is in the frame is consumed, but not the part of it
      that is still to come. */
  lemma FailSplit(a: Afs, w: World, x: seq<byte>, y: seq<byte>, used: nat)
    requires a.phase.SendFileData? && SendFileStep(a, w, x, used).reply != []
    ensures Swallows(a, w, x) <==> |x| < a.namelen
    ensures var o := SendFileStep(a, w, x, used);
            o.ret == 0 && o.reply == FailMsg(Ascii("write error"), used) && o.afs.phase == a.phase
    ensures var o, k := SendFileStep(a, w, x, used), Min(|y|, a.namelen - |x|);
            if |x| < a.namelen then
              && o.rest == [] && o.afs.namelen == a.namelen - |x|
              && SendFileStep(a, w, x + y, used) == o.(afs := o.afs.(namelen := o.afs.namelen - k), rest := y[k..])
            else SendFileStep(a, w, x + y, used) == AddRest(o, y)
  {
    var n := Min(|x|, a.namelen);
    var m := Min(|x + y|, a.namelen);
    Pieces(x, y, n, m);
    WriteAllAppend(w, a.phase.fd, x[..n], (x + y)[n..m]);
    hide FailMsg;
    hide Ascii;
    hide WriteAll;
  }

  /** A FAIL for a failed write is more than the length of an OKAY, on its own or behind another reply. */
  lemma WriteErrorIsLong(used: nat)
    ensures used + |FailMsg(Ascii("write error"), used)| > 8
  {
  }

  lemma Swallowed(a: Afs, w: World, x: seq<byte>, y: seq<byte>, used: nat)
    requires Ready(a) && x != [] && Swallows(a, w, x)
    ensures var lost := a.namelen - |x|;
            var k := Min(|y|, lost);
            var o := Step(a, w, x, used);
            && o == Outcome(Idle(a.cmd, lost), o.w, [], o.reply, 0) && used + |o.reply| > 8 && o.reply != []
            && Step(a, w, x + y, used) == Outcome(Idle(a.cmd, lost - k), o.w, y[k..], o.reply, 0)
  {
    assert x[..|x|] == x && x[|x|..] == [];
    WriteErrorIsLong(used);
    FailSplit(a, w, x, y, used);
    hide FailMsg;
    hide Ascii;
    hide SendFileStep;
  }

  /** One iteration of the loop, when it loses nothing. */
  lemma StepSplit(a: Afs, w: World, x: seq<byte>, y: seq<byte>, used: nat)
    requires Ready(a) && x != [] && y != [] && !Swallows(a, w, x)
    ensures var o := Step(a, w, x, used);
            if Partial(a, w, x) then
              && o.rest == [] && o.reply == [] && o.ret == 1
              && Step(a, w, x + y, used) == Step(o.afs, o.w, y, used)
            else Step(a, w, x + y, used) == AddRest(o, y)
  {
    if a.phase.SendFileData? && Dispatch(a, w, x, used).reply != [] {
      FailSplit(a, w, x, y, used);
    } else {
      HandleSplit(a, w, x, y, used);
    }
    hide Dispatch;
    hide Swallows;
    hide SendFileStep;
  }

  // ---------- replies over unread input ----------

  lemma OverlayAt(rest: seq<byte>, at: nat, reply: seq<byte>, i: nat)
    requires i < |rest|
    ensures Overlay(rest, at, reply)[i] == if at + i < |reply| then reply[at + i] else rest[i]
  {
  }

  lemma OverlayAppend(x: seq<byte>, y: seq<byte>, at: nat, reply: seq<byte>)
    ensures Overlay(x + y, at, reply) == Overlay(x, at, reply) + Overlay(y, at + |x|, reply)
  {
    hide Overlay;
    forall i | 0 <= i < |x + y|
      ensures Overlay(x + y, at, reply)[i] == (Overlay(x, at, reply) + Overlay(y, at + |x|, reply))[i]
    {
      OverlayAt(x + y, at, reply, i);
      if i < |x| {
        OverlayAt(x, at, reply, i);
      } else {
        OverlayAt(y, at + |x|, reply, i - |x|);
      }
    }
  }

  /** What a shorter reply has replaced, a longer one that begins with it replaces as well. */
  lemma OverlayMore(y: seq<byte>, at: nat, k: nat, reply: seq<byte>, all: seq<byte>)
    requires k <= |y| && reply <= all
    ensures Overlay(Overlay(y, at, reply)[k..], at + k, all) == Overlay(y, at, all)[k..]
  {
    hide Overlay;
    var z := Overlay(y, at, reply);
    forall i | 0 <= i < |y| - k ensures Overlay(z[k..], at + k, all)[i] == Overlay(y, at, all)[k..][i] {
      OverlayAt(z[k..], at + k, all, i);
      OverlayAt(y, at, reply, k + i);
      OverlayAt(y, at, all, k + i);
    }
  }

  /** The loop with its replies kept apart from the input. */
  function Separate(a: Afs, w: World, input: seq<byte>, reply: seq<byte>): Fed
    requires Ready(a)
    decreases Measure(a, input)
  {
    if input == [] then Fed(a, w, reply, 0)
    else
      var o := Step(a, w, input, |reply|);
      if o.ret < 0 then Fed(o.afs, o.w, reply + o.reply, o.ret) else Separate(o.afs, o.w, o.rest, reply + o.reply)
  }

  /** Every answer ends where the next input is read, or before, or nothing is unread. */
  predicate Clear(a: Afs, w: World, end: nat, input: seq<byte>, reply: seq<byte>)
    requires Ready(a) && |input| <= end
    decreases Measure(a, input)
  {
    input == [] ||
    var o := Step(a, w, input, |reply|);
    var all := reply + o.reply;
    o.ret < 0 || ((|all| <= end - |o.rest| || o.rest == []) && Clear(o.afs, o.w, end, o.rest, all))
  }

  /** Then storing the replies over the input that has been read is storing them elsewhere. */
  lemma {:induction false} ClearIsSeparate(a: Afs, w: World, end: nat, input: seq<byte>, reply: seq<byte>)
    requires Ready(a) && |input| <= end && Clear(a, w, end, input, reply)
    ensures Loop(a, w, end, input, reply) == Separate(a, w, input, reply)
    decreases Measure(a, input)
  {
    hide Step;
    if input != [] {
      var o := Step(a, w, input, |reply|);
      if o.ret >= 0 {
        ClearIsSeparate(o.afs, o.w, end, o.rest, reply + o.reply);
      }
    }
  }

  // ---------- one frame or two ----------

  /** How much of a block is still to come when its write has failed at the end of the frame. */
  function Lost(a: Afs, w: World, end: nat, input: seq<byte>, reply: seq<byte>): nat
    requires Ready(a) && |input| <= end
    decreases Measure(a, input)
  {
    if input == [] then 0
    else if Swallows(a, w, input) then a.namelen - |input|
    else
      var o := Step(a, w, input, |reply|);
      var all := reply + o.reply;
      if o.ret < 0 then 0 else Lost(o.afs, o.w, end, Overlay(o.rest, end - |o.rest|, all), all)
  }

  /** What more bytes y of the same frame do after the loop has come to its end in f: they are behind the
      replies of f, replaced where these reach into them, and the part that is lost goes first. */
  function Resume(f: Fed, lost: nat, end: nat, y: seq<byte>): Fed
    requires Ready(f.afs)
  {
    if f.ret < 0 then f
    else
      var k := Min(|y|, lost);
      var a := if lost == 0 then f.afs else Idle(f.afs.cmd, lost - k);
      Loop(a, f.w, end + |y|, Overlay(y, end, f.reply)[k..], f.reply)
  }

  /** A lost part leaves a FAIL and an idle service that waits for a command. */
  lemma {:induction false} LostFacts(a: Afs, w: World, end: nat, x: seq<byte>, reply: seq<byte>)
    requires Ready(a) && |x| <= end
    ensures var f, lost := Loop(a, w, end, x, reply), Lost(a, w, end, x, reply);
            lost > 0 ==> f.ret == 0 && |f.reply| > 8 && f.afs == Idle(f.afs.cmd, lost)
    decreases Measure(a, x)
  {
    hide Step;
    hide Swallows;
    if x != [] {
      var o := Step(a, w, x, |reply|);
      if Swallows(a, w, x) {
        Swallowed(a, w, x, [], |reply|);
      } else if o.ret >= 0 {
        var all := reply + o.reply;
        LostFacts(o.afs, o.w, end, Overlay(o.rest, end - |o.rest|, all), all);
      }
    }
  }

  /** One turn of the loop. */
  lemma LoopFirst(a: Afs, w: World, end: nat, input: seq<byte>, reply: seq<byte>)
    requires Ready(a) && 0 < |input| <= end
    ensures var o := Step(a, w, input, |reply|);
            var all := reply + o.reply;
            Loop(a, w, end, input, reply) ==
            if o.ret < 0 then Fed(o.afs, o.w, all, o.ret)
            else Loop(o.afs, o.w, end, Overlay(o.rest, end - |o.rest|, all), all)
  {
    hide Step;
    hide Overlay;
  }

  lemma LoopEnds(a: Afs, w: World, end: nat, reply: seq<byte>)
    requires Ready(a)
    ensures Loop(a, w, end, [], reply) == Fed(a, w, reply, 0) && Lost(a, w, end, [], reply) == 0
  {
  }

  lemma LostFirst(a: Afs, w: World, end: nat, input: seq<byte>, reply: seq<byte>)
    requires Ready(a) && 0 < |input| <= end && !Swallows(a, w, input)
    ensures var o := Step(a, w, input, |reply|);
            var all := reply + o.reply;
            Lost(a, w, end, input, reply) ==
            if o.ret < 0 then 0 else Lost(o.afs, o.w, end, Overlay(o.rest, end - |o.rest|, all), all)
  {
    hide Step;
    hide Overlay;
  }

  lemma LostNow(a: Afs, w: World, end: nat, input: seq<byte>, reply: seq<byte>)
    requires Ready(a) && 0 < |input| <= end && Swallows(a, w, input)
    ensures a.phase.SendFileData? && Lost(a, w, end, input, reply) == a.namelen - |input| > 0
  {
    hide Step;
    hide Overlay;
  }

  lemma OverlayNothing(y: seq<byte>, at: nat, reply: seq<byte>)
    ensures Overlay([], at, reply) == [] && Overlay(y, at, []) == y
  {
  }

  /** For every state, system and pair of pieces of a frame: what the loop does with the second piece is
      determined by where the first has left it, by the replies that reach into the second, and by the part
      of a failed block that goes unread. */
  lemma {:induction false} LoopSplit(a: Afs, w: World, end: nat, x: seq<byte>, reply: seq<byte>, y: seq<byte>)
    requires Ready(a) && |x| <= end
    ensures Loop(a, w, end + |y|, x + Overlay(y, end, reply), reply)
         == Resume(Loop(a, w, end, x, reply), Lost(a, w, end, x, reply), end, y)
    decreases Measure(a, x)
  {
    hide Step;
    hide Loop;
    hide Lost;
    hide Overlay;
    var f, z := Loop(a, w, end, x, reply), Overlay(y, end, reply);
    OverlayNothing(y, end, f.reply);
    if x == [] {
      LoopEnds(a, w, end, reply);
      assert x + z == z && z[0..] == z;
    } else if y == [] {
      OverlayNothing(y, end, reply);
      assert x + z == x;
      LostFacts(a, w, end, x, reply);
      LoopEnds(f.afs, f.w, end, f.reply);
    } else if Swallows(a, w, x) {
      SwallowSplits(a, w, end, x, reply, y);
    } else {
      StepSplit(a, w, x, z, |reply|);
      LoopFirst(a, w, end, x, reply);
      LostFirst(a, w, end, x, reply);
      LoopFirst(a, w, end + |y|, x + z, reply);
      var o := Step(a, w, x, |reply|);
      var all := reply + o.reply;
      if Partial(a, w, x) {
        OverlayNothing(y, end, all);
        LoopEnds(o.afs, o.w, end, reply);
        LoopFirst(o.afs, o.w, end + |y|, z, reply);
        assert all == reply && z[0..] == z;
      } else if o.ret >= 0 {
        OverlayAppend(o.rest, z, end - |o.rest|, all);
        OverlayMore(y, end, 0, reply, all);
        assert z[0..] == z && Overlay(y, end, all)[0..] == Overlay(y, end, all);
        LoopSplit(o.afs, o.w, end, Overlay(o.rest, end - |o.rest|, all), all, y);
      }
    }
  }

  lemma SwallowSplits(a: Afs, w: World, end: nat, x: seq<byte>, reply: seq<byte>, y: seq<byte>)
    requires Ready(a) && 0 < |x| <= end && Swallows(a, w, x)
    ensures Loop(a, w, end + |y|, x + Overlay(y, end, reply), reply)
         == Resume(Loop(a, w, end, x, reply), Lost(a, w, end, x, reply), end, y)
  {
    hide Step;
    hide Loop;
    hide Lost;
    hide Swallows;
    hide Overlay;
    LostNow(a, w, end, x, reply);
    var z, lost := Overlay(y, end, reply), a.namelen - |x|;
    Swallowed(a, w, x, z, |reply|);
    LoopFirst(a, w, end, x, reply);
    LoopFirst(a, w, end + |y|, x + z, reply);
    var o, k := Step(a, w, x, |reply|), Min(|y|, lost);
    OverlayNothing([], end, reply + o.reply);
    LoopEnds(o.afs, o.w, end, reply + o.reply);
    OverlayMore(y, end, k, reply, reply + o.reply);
  }

  /** Two pieces in one frame: the second runs on behind the first, with what the replies and a failed block
      have left of it. */
  lemma FeedSplit(a: Afs, w: World, x: seq<byte>, y: seq<byte>)
    requires Ready(a)
    ensures Feed(a, w, x + y) == Resume(Feed(a, w, x), Lost(a, w, |x|, x, []), |x|, y)
  {
    hide Loop;
    hide Lost;
    hide Overlay;
    OverlayNothing(y, |x|, []);
    LoopSplit(a, w, |x|, x, [], y);
  }

  // ---------- frames answered at their end ----------

  predicate Silent(o: Outcome) {
    o.reply == [] && o.ret >= 0
  }

  /** What follows the first answer. */
  function After(q: Outcome, end: nat): Fed
    requires Ready(q.afs) && |q.rest| <= end
  {
    if q.ret < 0 then Fed(q.afs, q.w, q.reply, q.ret)
    else Loop(q.afs, q.w, end, Overlay(q.rest, end - |q.rest|, q.reply), q.reply)
  }

  lemma {:induction false} LoopQuiet(a: Afs, w: World, end: nat, input: seq<byte>)
    requires Ready(a) && |input| <= end
    ensures Loop(a, w, end, input, []) == After(Quiet(a, w, input), end)
    decreases Measure(a, input)
  {
    hide Step;
    if input != [] {
      var o := Step(a, w, input, 0);
      assert [] + o.reply == o.reply;
      if Silent(o) {
        LoopQuiet(o.afs, o.w, end, o.rest);
      }
    }
  }

  /** Nothing unread is left behind an answer. */
  predicate AnswersLast(a: Afs, w: World, input: seq<byte>)
    requires Ready(a)
  {
    var q := Quiet(a, w, input);
    q.reply == [] || q.ret < 0 || q.rest == []
  }

  function Finish(q: Outcome): (f: Fed) {
    Fed(q.afs, q.w, q.reply, Min(q.ret, 0))
  }

  /** Then the frame does what it does up to its first answer, wherever it stands in the packet. */
  lemma FeedFinishes(a: Afs, w: World, input: seq<byte>)
    requires Ready(a) && AnswersLast(a, w, input)
    ensures Feed(a, w, input) == Finish(Quiet(a, w, input))
  {
    LoopQuiet(a, w, |input|, input);
    hide Quiet;
  }

  /** The first answer to two pieces together. */
  lemma {:induction false} QuietSplit(a: Afs, w: World, end: nat, x: seq<byte>, y: seq<byte>)
    requires Ready(a) && |x| <= end
    ensures var q, lost := Quiet(a, w, x), Lost(a, w, end, x, []);
            var k := Min(|y|, lost);
            if Silent(q) then lost == 0 && Quiet(a, w, x + y) == Quiet(q.afs, q.w, y)
            else if q.rest == [] && lost > 0 then
              && |q.reply| > 8 && q.ret == 0 && q.afs == Idle(q.afs.cmd, lost)
              && Quiet(a, w, x + y) == q.(afs := Idle(q.afs.cmd, lost - k), rest := y[k..])
            else Quiet(a, w, x + y) == AddRest(q, y)
    decreases Measure(a, x)
  {
    hide Step;
    hide Dispatch;
    hide Partial;
    hide Swallows;
    if x == [] {
      assert x + y == y;
    } else {
      var o := Step(a, w, x, 0);
      assert [] + o.reply == o.reply;
      if Swallows(a, w, x) {
        Swallowed(a, w, x, y, 0);
      } else if y == [] {
        assert x + y == x && o.rest + y == o.rest;
        if Silent(o) {
          QuietSplit(o.afs, o.w, end, o.rest, y);
        }
      } else {
        StepSplit(a, w, x, y, 0);
        if !Partial(a, w, x) && Silent(o) {
          QuietSplit(o.afs, o.w, end, o.rest, y);
        }
      }
    }
  }

  // ---------- runs of frames ----------

  function Concat(frames: seq<seq<byte>>): seq<byte> {
    if frames == [] then [] else frames[0] + Concat(frames[1..])
  }

  /** What the host hears: a failed frame is answered by CLOSE, without the replies in its packet. */
  function Heard(f: Fed): Fed {
    if f.ret < 0 then f.(reply := []) else f
  }

  /** Frames one after the other; a failed frame closes the service. */
  function FeedAll(a: Afs, w: World, frames: seq<seq<byte>>): (f: Fed)
    requires Ready(a)
    ensures Ready(f.afs) && f.ret <= 0
    decreases |frames|
  {
    if frames == [] then Fed(a, w, [], 0)
    else
      var f := Heard(Feed(a, w, frames[0]));
      if f.ret < 0 then f
      else
        var g := FeedAll(f.afs, f.w, frames[1..]);
        g.(reply := f.reply + g.reply)
  }

  /** A whole conversation; a callback that fails closes the service. */
  function Converse(a: Afs, w: World, events: seq<HostEvent>): (f: Fed)
    requires Ready(a)
    ensures Ready(f.afs)
    decreases |events|
  {
    if events == [] then Fed(a, w, [], 0)
    else
      var f := Heard(React(a, w, events[0]));
      if f.ret < 0 then f
      else
        var g := Converse(f.afs, f.w, events[1..]);
        g.(reply := f.reply + g.reply)
  }

  lemma ConverseFirst(a: Afs, w: World, e: HostEvent, events: seq<HostEvent>)
    requires Ready(a)
    ensures var f := Heard(React(a, w, e));
            Converse(a, w, [e] + events) ==
            if f.ret < 0 then f
            else
              var g := Converse(f.afs, f.w, events);
              g.(reply := f.reply + g.reply)
  {
    assert ([e] + events)[1..] == events;
    hide Feed;
    hide Ack;
  }

  /** The last event of a conversation. */
  lemma ConverseLast(a: Afs, w: World, e: HostEvent)
    requires Ready(a)
    ensures var f := Heard(React(a, w, e)); f.ret <= 0 ==> Converse(a, w, [e]) == f
  {
    hide Feed;
    hide Ack;
    var f := Heard(React(a, w, e));
    assert f.reply + [] == f.reply;
  }

  /** A command that ends the service in every state that an answer leaves. */
  const QUIT: seq<byte> := LE32(ID_QUIT) + LE32(0)

  lemma AnswerLeaves(a: Afs, w: World, input: seq<byte>, used: nat)
    requires Ready(a) && input != [] && Step(a, w, input, used).reply != [] && Step(a, w, input, used).ret >= 0
    ensures var b := Step(a, w, input, used).afs;
            b.buf == [] && (b.phase.WaitCmd? || b.phase.Recv? || b.phase.Listing?)
  {
    hide FailMsg;
    hide DataMsg;
    hide Ascii;
    hide Word;
    hide WriteAll;
    hide Command;
    hide CString;
    if a.phase.WaitCmdData? {
      var g := Gather(a.buf, a.namelen, input);
      if g.Whole? {
        CommandLeaves(a.(buf := []), w, g.rest, CString(g.bytes), used);
      }
    }
  }

  lemma CommandLeaves(a: Afs, w: World, rest: seq<byte>, name: Path, used: nat)
    requires a.phase.WaitCmdData? && a.buf == []
    ensures var o := Command(a, w, rest, name, used);
            o.ret > 0 && o.reply != [] ==>
              o.afs.buf == [] && (o.afs.phase.WaitCmd? || o.afs.phase.Recv? || o.afs.phase.Listing?)
  {
    hide FailMsg;
    hide DataMsg;
    hide DentMsg;
    hide StatMsg;
    hide Ascii;
    hide Parents;
    hide Read;
    hide ReadDir;
  }

  lemma {:induction false} QuietLeaves(a: Afs, w: World, input: seq<byte>)
    requires Ready(a)
    ensures var q := Quiet(a, w, input);
            q.reply != [] && q.ret >= 0 ==>
              q.afs.buf == [] && (q.afs.phase.WaitCmd? || q.afs.phase.Recv? || q.afs.phase.Listing?)
    decreases Measure(a, input)
  {
    hide Step;
    if input != [] {
      var o := Step(a, w, input, 0);
      if Silent(o) {
        QuietLeaves(o.afs, o.w, o.rest);
      } else if o.ret >= 0 {
        AnswerLeaves(a, w, input, 0);
      }
    }
  }

  lemma QuitCloses(a: Afs, w: World)
    requires Ready(a) && a.buf == [] && (a.phase.WaitCmd? || a.phase.Recv? || a.phase.Listing?)
    ensures AnswersLast(a, w, QUIT) && Feed(a, w, QUIT).ret < 0
  {
    WordOfLE32(ID_QUIT);
    assert [] + QUIT[..8] == QUIT && QUIT[0..4] == LE32(ID_QUIT);
    hide LE32;
    hide Word;
    var o := Step(a, w, QUIT, 0);
    assert o.ret == -1;
    FeedFinishes(a, w, QUIT);
  }

  lemma PartialHeader(a: Afs, w: World, y: seq<byte>)
    requires a.phase == WaitCmd && a.buf == [] && 0 < |y| < 8
    ensures AnswersLast(a, w, y) && Feed(a, w, y).afs.buf == y
  {
    assert [] + y == y;
    var o := Step(a, w, y, 0);
    assert o.rest == [] && o.reply == [] && o.ret == 1 && o.afs.buf == y;
    FeedFinishes(a, w, y);
  }

  /** Where x leaves the service, and a host that acknowledges its answer, if it does (`acks`). */
  function Reached(a: Afs, w: World, x: seq<byte>, acks: bool): (f: Fed)
    requires Ready(a)
    ensures Ready(f.afs)
  {
    var f := Feed(a, w, x);
    if acks && f.ret >= 0 && f.reply != [] then Ack(f.afs, f.w) else f
  }

  /** x and y in frames of their own, with an acknowledgement between them if x is answered and the host acks. */
  function TwoFrames(a: Afs, w: World, x: seq<byte>, y: seq<byte>, acks: bool): seq<HostEvent>
    requires Ready(a)
  {
    var f := Feed(a, w, x);
    [Piece(x)] + ((if acks && f.ret >= 0 && f.reply != [] then [Acked] else []) + [Piece(y)])
  }

  /** The bytes that may follow x: they fit the frame, and are from a host that waits for their answers. */
  predicate MayFollow(a: Afs, w: World, x: seq<byte>, y: seq<byte>, acks: bool)
    requires Ready(a)
  {
    var f := Reached(a, w, x, acks);
    |x| + |y| <= PAYLOAD_SIZE && (f.ret >= 0 ==> AnswersLast(f.afs, f.w, y))
  }

  /** The same final state and system, the same result, and the same replies for the host. */
  ghost predicate SplitsAt(a: Afs, w: World, x: seq<byte>, y: seq<byte>, acks: bool)
    requires Ready(a)
  {
    Heard(Feed(a, w, x + y)) == Converse(a, w, TwoFrames(a, w, x, y, acks))
  }

  /** An unanswered piece, or one that fails, may be cut off. */
  lemma UnansweredSplits(a: Afs, w: World, x: seq<byte>, y: seq<byte>, acks: bool)
    requires Ready(a) && AnswersLast(a, w, x) && MayFollow(a, w, x, y, acks)
    requires Feed(a, w, x).ret < 0 || Feed(a, w, x).reply == []
    ensures SplitsAt(a, w, x, y, acks) && AnswersLast(a, w, x + y)
  {
    FeedFinishes(a, w, x);
    QuietSplit(a, w, |x|, x, y);
    var f := Feed(a, w, x);
    assert TwoFrames(a, w, x, y, acks) == [Piece(x)] + [Piece(y)];
    ConverseFirst(a, w, Piece(x), [Piece(y)]);
    if f.ret >= 0 {
      FeedFinishes(f.afs, f.w, y);
      ConverseLast(f.afs, f.w, Piece(y));
      var g := Heard(Feed(f.afs, f.w, y));
      assert [] + g.reply == g.reply;
    }
    FeedFinishes(a, w, x + y);
    hide Quiet;
    hide Feed;
    hide Converse;
  }

  /** An acknowledgement after an answer leaves the service idle, or sending the next message. */
  lemma AckLeaves(a: Afs, w: World)
    requires a.buf == [] && (a.phase.WaitCmd? || a.phase.Recv? || a.phase.Listing?)
    ensures var f := Ack(a, w);
            && f.ret == 0 && f.afs.buf == [] && (f.afs.phase.WaitCmd? || f.afs.phase.Recv? || f.afs.phase.Listing?)
            && (a.phase.WaitCmd? ==> f == Fed(a, w, [], 0))
  {
    hide FailMsg;
    hide DataMsg;
    hide DentMsg;
    hide Ascii;
    hide Read;
    hide ReadDir;
  }

  /** The two frames, when the first is answered. */
  lemma AnsweredConverse(a: Afs, w: World, x: seq<byte>, y: seq<byte>, acks: bool)
    requires Ready(a) && Feed(a, w, x).ret >= 0 && Feed(a, w, x).reply != [] && Reached(a, w, x, acks).ret == 0
    ensures var f, g := Feed(a, w, x), Reached(a, w, x, acks);
            var h, all := Heard(Feed(g.afs, g.w, y)), Converse(a, w, TwoFrames(a, w, x, y, acks));
            all.reply != [] && all.ret == h.ret && all.afs == h.afs
  {
    hide Feed;
    hide Ack;
    var f, g := Feed(a, w, x), Reached(a, w, x, acks);
    ConverseLast(g.afs, g.w, Piece(y));
    if acks {
      ConverseFirst(f.afs, f.w, Acked, [Piece(y)]);
      ConverseFirst(a, w, Piece(x), [Acked] + [Piece(y)]);
    } else {
      assert [] + [Piece(y)] == [Piece(y)];
      ConverseFirst(a, w, Piece(x), [Piece(y)]);
    }
    hide Converse;
  }

  /** An answered piece may not. */
  lemma AnsweredDoesNotSplit(a: Afs, w: World, x: seq<byte>, acks: bool) returns (y: seq<byte>)
    requires Ready(a) && AnswersLast(a, w, x) && |x| + 8 <= PAYLOAD_SIZE
    requires Feed(a, w, x).ret >= 0 && Feed(a, w, x).reply != []
    ensures MayFollow(a, w, x, y, acks) && !SplitsAt(a, w, x, y, acks)
  {
    FeedFinishes(a, w, x);
    hide Feed;
    hide Lost;
    hide Converse;
    hide TwoFrames;
    var f, lost := Feed(a, w, x), Lost(a, w, |x|, x, []);
    y := if lost > 0 then [0] else QUIT;
    QuietSplit(a, w, |x|, x, y);
    QuietLeaves(a, w, x);
    AckLeaves(f.afs, f.w);
    hide Ack;
    var g := Reached(a, w, x, acks);
    AnsweredConverse(a, w, x, y, acks);
    if lost > 0 {
      PartialHeader(g.afs, g.w, y);
      assert y[1..] == [];
      FeedFinishes(a, w, x + y);
    } else {
      QuitCloses(g.afs, g.w);
    }
    hide Quiet;
  }

  /** For a host that waits for its answers within x and within what follows, and for one that acknowledges
      them and one that does not: cutting the frame behind x makes no difference, whatever follows, if and
      only if x fails or is not answered. */
  lemma SplitsFreely(a: Afs, w: World, x: seq<byte>, acks: bool)
    requires Ready(a) && AnswersLast(a, w, x) && |x| + 8 <= PAYLOAD_SIZE
    ensures (Feed(a, w, x).ret < 0 || Feed(a, w, x).reply == [])
       <==> forall y :: MayFollow(a, w, x, y, acks) ==> SplitsAt(a, w, x, y, acks)
  {
    hide Feed;
    hide MayFollow;
    hide SplitsAt;
    hide AnswersLast;
    if Feed(a, w, x).ret < 0 || Feed(a, w, x).reply == [] {
      forall y | MayFollow(a, w, x, y, acks) ensures SplitsAt(a, w, x, y, acks) {
        UnansweredSplits(a, w, x, y, acks);
      }
    } else {
      var y := AnsweredDoesNotSplit(a, w, x, acks);
    }
  }

  /** A host that sends nothing more behind a request until it has been answered. */
  predicate Unpipelined(a: Afs, w: World, frames: seq<seq<byte>>)
    requires Ready(a)
    decreases |frames|
  {
    frames == [] ||
    (&& AnswersLast(a, w, frames[0])
     && var f := Feed(a, w, frames[0]);
        f.ret >= 0 ==> if f.reply == [] then Unpipelined(f.afs, f.w, frames[1..]) else Concat(frames[1..]) == [])
  }

  lemma {:induction false} EmptyFrames(a: Afs, w: World, frames: seq<seq<byte>>)
    requires Ready(a) && Concat(frames) == []
    ensures FeedAll(a, w, frames) == Fed(a, w, [], 0)
    decreases |frames|
  {
    if frames != [] {
      EmptyFrames(a, w, frames[1..]);
    }
  }

  /** However such a host's bytes are cut into frames, the service ends in the same state, with the same
      partial buffer and the same effects on the system, and the host hears the same as for one frame that
      holds all of them. */
  lemma {:induction false} FramesDoNotMatter(a: Afs, w: World, frames: seq<seq<byte>>)
    requires Ready(a) && Unpipelined(a, w, frames)
    ensures AnswersLast(a, w, Concat(frames))
    ensures FeedAll(a, w, frames) == Heard(Feed(a, w, Concat(frames)))
    decreases |frames|
  {
    if frames != [] {
      var x, y := frames[0], Concat(frames[1..]);
      FeedFinishes(a, w, x);
      QuietSplit(a, w, |x|, x, y);
      var f := Feed(a, w, x);
      if f.ret >= 0 && f.reply == [] {
        FramesDoNotMatter(f.afs, f.w, frames[1..]);
        FeedFinishes(f.afs, f.w, y);
      } else if f.ret >= 0 {
        EmptyFrames(f.afs, f.w, frames[1..]);
        assert x + y == x && f.reply + [] == f.reply;
      }
      FeedFinishes(a, w, x + y);
      hide Quiet;
      hide Feed;
      hide Lost;
      if f.ret >= 0 {
        var g := FeedAll(f.afs, f.w, frames[1..]);
        assert f.reply == [] ==> f.reply + g.reply == g.reply;
      }
    }
  }

  /** Two ways of cutting the same bytes. */
  lemma SplitsAgree(a: Afs, w: World, xs: seq<seq<byte>>, ys: seq<seq<byte>>)
    requires Ready(a) && Unpipelined(a, w, xs) && Unpipelined(a, w, ys) && Concat(xs) == Concat(ys)
    ensures FeedAll(a, w, xs) == FeedAll(a, w, ys)
  {
    FramesDoNotMatter(a, w, xs);
    FramesDoNotMatter(a, w, ys);
  }
}
