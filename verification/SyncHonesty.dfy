/** OKAY is sent only for an upload that is exact, whatever calls fail and however the bytes are cut. */
module SyncHonesty {
  import opened Bytes
  import opened SyncWorld
  import opened SyncSpec
  import opened SyncSplit
  import opened SyncUpload

  /** Replies that begin with a FAIL, or are too long to be a lone OKAY. */
  predicate Bad(reply: seq<byte>) {
    |reply| > 8 || (|reply| == 8 && reply[..4] == LE32(ID_FAIL))
  }

  lemma BadIsNotOkay(reply: seq<byte>)
    requires Bad(reply)
    ensures reply != DataMsg(ID_OKAY, [])
  {
    assert LE32(ID_FAIL)[0] == 70 && LE32(ID_OKAY)[0] == 79;
    assert DataMsg(ID_OKAY, [])[..4] == LE32(ID_OKAY);
  }

  lemma FailIsBad(reason: seq<byte>)
    ensures Bad(FailMsg(reason, 0))
  {
    assert FailMsg(reason, 0)[..4] == LE32(ID_FAIL);
  }

  lemma BadStays(reply: seq<byte>, all: seq<byte>)
    requires Bad(reply) && reply <= all
    ensures Bad(all)
  {
  }

  /** The first answer is a FAIL. */
  predicate Refused(q: Outcome) {
    q.ret == 0 && Bad(q.reply)
  }

  lemma QuietFirst(a: Afs, w: World, input: seq<byte>)
    requires Ready(a) && input != []
    ensures var o := Step(a, w, input, 0);
            Quiet(a, w, input) == if Silent(o) then Quiet(o.afs, o.w, o.rest) else o
  {
  }

  lemma FailsFirst(a: Afs, w: World, input: seq<byte>, reason: seq<byte>)
    requires Ready(a) && input != []
    requires Step(a, w, input, 0).reply == FailMsg(reason, 0) && Step(a, w, input, 0).ret == 0
    ensures Refused(Quiet(a, w, input))
  {
    QuietFirst(a, w, input);
    FailIsBad(reason);
    hide Step;
    hide FailMsg;
  }

  // ---------- blocks ----------

  /** A block with bytes that cannot be written. */
  lemma BadBlock(a: Afs, w: World, fd: nat, block: seq<byte>, rest: seq<byte>)
    requires a.phase == SendFileData(fd) && a.buf == [] && a.namelen == |block| && rest != []
    requires !WriteAll(w, fd, block).1
    ensures Refused(Quiet(a, w, block + rest))
  {
    assert (block + rest)[..|block|] == block;
    hide WriteAll;
    hide FailMsg;
    FailsFirst(a, w, block + rest, Ascii("write error"));
  }

  /** The blocks and DONE either reach the file, answered by one OKAY, or are answered by a FAIL. */
  lemma {:induction false} BlocksHonest(a: Afs, w: World, fd: nat, blocks: seq<seq<byte>>, time: nat)
    requires a.phase == SendFileHdr(fd) && a.buf == [] && Fits(blocks) && time < WORD
    requires fd in w.handles && w.handles[fd].Writer? && w.handles[fd].path in w.files
    ensures var q := Quiet(a, w, DataBlocks(blocks) + (LE32(ID_DONE) + LE32(time)));
            Refused(q) || (q.rest == [] && Uploaded(w, fd, Flatten(blocks), Finish(q)))
    decreases |blocks|
  {
    hide Uploaded;
    hide Quiet;
    hide Step;
    hide WriteAll;
    hide LE32;
    hide DataMsg;
    hide Refused;
    var last := LE32(ID_DONE) + LE32(time);
    if blocks == [] {
      DoneStep(a, w, fd, time);
      DoneLeavesNothing(a, w, fd, time);
      assert DataBlocks(blocks) + last == last;
    } else {
      var rest := DataBlocks(blocks[1..]) + last;
      var b := a.(phase := SendFileData(fd), namelen := |blocks[0]|);
      assert DataBlocks(blocks) + last == DataMsg(ID_DATA, blocks[0]) + rest;
      DataHeaderStep(a, w, fd, blocks[0], rest);
      QuietFirst(a, w, DataMsg(ID_DATA, blocks[0]) + rest);
      if WriteAll(w, fd, blocks[0]).1 {
        DataBlockStep(b, w, fd, blocks[0], rest);
        QuietFirst(b, w, blocks[0] + rest);
        WriteAllAppends(w, fd, blocks[0]);
        var w1 := WriteAll(w, fd, blocks[0]).0;
        BlocksHonest(a.(namelen := 0), w1, fd, blocks[1..], time);
        var f := Finish(Quiet(a.(namelen := 0), w1, rest));
        if Uploaded(w1, fd, Flatten(blocks[1..]), f) {
          UploadedMore(w, fd, blocks[0], Flatten(blocks[1..]), f);
        }
      } else {
        BadBlock(b, w, fd, blocks[0], rest);
      }
    }
  }

  lemma DoneLeavesNothing(a: Afs, w: World, fd: nat, time: nat)
    requires a.phase == SendFileHdr(fd) && a.buf == [] && time < WORD
    ensures Quiet(a, w, LE32(ID_DONE) + LE32(time)).rest == []
  {
    var input := LE32(ID_DONE) + LE32(time);
    HeaderWhole(ID_DONE, time, []);
    assert input + [] == input;
    QuietFirst(a, w, input);
  }

  // ---------- the request ----------

  /** The argument of a SEND that fits and does not ask for a symlink. */
  predicate Argument(env: Env, name: Path) {
    0 < |name| < PATH_MAX && 0 !in name && !IsLink(env, name)
  }

  /** The file is open and empty, or the answer is FAIL. */
  lemma SendOpensOrFails(a: Afs, w: World, rest: seq<byte>, name: Path) returns (reason: seq<byte>)
    requires a.phase == WaitCmdData && a.buf == [] && Argument(w.env, name)
    ensures var o, path := InitSend(a, w, rest, name, 0), SendPath(name);
            || (o.ret == 0 && o.reply == FailMsg(reason, 0))
            || (&& o.ret == 1 && o.reply == [] && o.rest == rest
                && o.afs == a.(phase := SendFileHdr(w.next))
                && path in o.w.files && o.w.files == w.files[path := []]
                && o.w.handles == w.handles[w.next := Writer(path)])
  {
    hide FailMsg;
    hide MakeParents;
    hide LastComma;
    var path := SendPath(name);
    var w0 := Unlink(w, path);
    var (w1, ok) := Parents(w0, path);
    ParentsOnlyAsk(w0, path, 1);
    reason := w1.env.reason(if ok then w1.turn + 1 else w1.turn);
    assert (w.files - {path})[path := []] == w.files[path := []];
    hide Parents;
  }

  /** The first answer to an upload. */
  lemma FirstAnswerIsHonest(a: Afs, w: World, name: Path, blocks: seq<seq<byte>>, time: nat)
    requires a.phase == WaitCmd && a.buf == [] && Fits(blocks) && time < WORD && Argument(w.env, name)
    ensures var q := Quiet(a, w, UploadBytes(name, blocks, time));
            || Refused(q)
            || (&& q.rest == [] && q.reply == DataMsg(ID_OKAY, []) && q.ret >= 0
                && Exact(w, name, blocks, Finish(q)))
  {
    hide Quiet;
    hide Step;
    hide InitSend;
    hide Request;
    hide LE32;
    hide DataMsg;
    hide Refused;
    var tail := DataBlocks(blocks) + (LE32(ID_DONE) + LE32(time));
    var b := Afs(WaitCmdData, ID_SEND, |name|, []);
    var path := SendPath(name);
    RequestStep(a, w, ID_SEND, name, tail, 0);
    QuietFirst(a, w, UploadBytes(name, blocks, time));
    NameStep(w, ID_SEND, name, tail, 0);
    QuietFirst(b, w, name + tail);
    var reason := SendOpensOrFails(b, w, tail, name);
    var o := InitSend(b, w, tail, name, 0);
    if o.ret == 0 {
      FailsFirst(b, w, name + tail, reason);
    } else {
      BlocksHonest(o.afs, o.w, w.next, blocks, time);
      assert [] + Flatten(blocks) == Flatten(blocks);
      assert w.files[path := []][path := Flatten(blocks)] == w.files[path := Flatten(blocks)];
      assert w.handles[w.next := Writer(path)] - {w.next} == w.handles - {w.next};
    }
  }

  /** The file holds the blocks, no other file has changed, and the service is idle with nothing more open. */
  ghost predicate Exact(w: World, name: Path, blocks: seq<seq<byte>>, f: Fed) {
    && f.w.files == w.files[SendPath(name) := Flatten(blocks)]
    && f.w.handles == w.handles - {w.next}
    && f.ret == 0 && f.afs.phase == WaitCmd && f.afs.buf == []
  }

  // ---------- any cut, with acknowledgements ----------

  /** The bytes that the host sends, in order. */
  function Sent(events: seq<HostEvent>): seq<byte> {
    if events == [] then []
    else (if events[0].Piece? then events[0].bytes else []) + Sent(events[1..])
  }

  /** The host acknowledges only messages that it has heard, each once; `owed` of them are unacknowledged. */
  predicate Waits(a: Afs, w: World, events: seq<HostEvent>, owed: nat)
    requires Ready(a)
    decreases |events|
  {
    events == [] ||
    (&& (events[0].Acked? ==> owed > 0)
     && var f := Heard(React(a, w, events[0]));
        var left := (if events[0].Acked? then owed - 1 else owed) + (if f.reply == [] then 0 else 1);
        f.ret >= 0 ==> Waits(f.afs, f.w, events[1..], left))
  }

  lemma {:induction false} IdleTail(a: Afs, w: World, events: seq<HostEvent>)
    requires a.phase == WaitCmd && a.buf == [] && Sent(events) == []
    ensures Converse(a, w, events) == Fed(a, w, [], 0)
    decreases |events|
  {
    if events != [] {
      IdleEvent(a, w, events[0]);
      hide React;
      IdleTail(a, w, events[1..]);
    }
  }

  lemma IdleEvent(a: Afs, w: World, e: HostEvent)
    requires a.phase == WaitCmd && a.buf == [] && (e.Piece? ==> e.bytes == [])
    ensures React(a, w, e) == Fed(a, w, [], 0)
  {
  }

  /** If the first answer to the bytes together is FAIL, or OKAY at their very end, then a conversation in
      which they are sent hears a lone OKAY only in the second case, and ends there as the bytes together. */
  lemma {:induction false} CutIsHonest(a: Afs, w: World, events: seq<HostEvent>)
    requires Ready(a) && Waits(a, w, events, 0)
    requires var q := Quiet(a, w, Sent(events));
             || Refused(q)
             || (&& q.rest == [] && q.reply == DataMsg(ID_OKAY, []) && q.ret >= 0
                 && q.afs.phase == WaitCmd && q.afs.buf == [])
    ensures var q, g := Quiet(a, w, Sent(events)), Converse(a, w, events);
            g.reply == DataMsg(ID_OKAY, []) ==> !Refused(q) && g == Finish(q)
    decreases |events|
  {
    hide Quiet;
    hide Lost;
    hide Loop;
    hide Ack;
    hide DataMsg;
    hide Bad;
    if events != [] {
      var x, y := events[0].bytes, Sent(events[1..]);
      var qx, q, f := Quiet(a, w, x), Quiet(a, w, Sent(events)), Feed(a, w, x);
      QuietSplit(a, w, |x|, x, y);
      LoopQuiet(a, w, |x|, x);
      LoopEnds(qx.afs, qx.w, |x|, qx.reply);
      OverlayNothing([], |x|, qx.reply);
      var g := Converse(f.afs, f.w, events[1..]);
      if Silent(qx) {
        CutIsHonest(f.afs, f.w, events[1..]);
        assert f.reply + g.reply == g.reply;
      } else if Refused(q) {
        assert qx.reply <= f.reply <= f.reply + g.reply;
        BadStays(q.reply, f.reply + g.reply);
        BadIsNotOkay(f.reply + g.reply);
      } else {
        assert |DataMsg(ID_OKAY, [])| == 8;
        assert y == [] && qx.rest == [] && x + y == x;
        IdleTail(f.afs, f.w, events[1..]);
        assert f.reply + [] == f.reply;
      }
    } else {
      QuietNothing(a, w);
    }
  }

  lemma QuietNothing(a: Afs, w: World)
    requires Ready(a)
    ensures Quiet(a, w, []) == Outcome(a, w, [], [], 1)
  {
  }

  /** Whatever calls fail (short and interrupted writes, a full disk, refused directories, a path that is not
      absolute), however the bytes of an upload are cut into frames, and wherever the host acknowledges what
      it has heard, it hears exactly one OKAY only if the file is exactly the concatenation of the blocks and
      nothing is left open. */
  lemma OkayIsHonest(a: Afs, w: World, name: Path, blocks: seq<seq<byte>>, time: nat, events: seq<HostEvent>)
    requires a.phase == WaitCmd && a.buf == [] && Fits(blocks) && time < WORD && Argument(w.env, name)
    requires Sent(events) == UploadBytes(name, blocks, time) && Waits(a, w, events, 0)
    ensures Converse(a, w, events).reply == DataMsg(ID_OKAY, []) ==> Exact(w, name, blocks, Converse(a, w, events))
  {
    FirstAnswerIsHonest(a, w, name, blocks, time);
    CutIsHonest(a, w, events);
  }

  /** Part of a block is lost at the end of a frame that the service gets to see. */
  predicate Loses(a: Afs, w: World, events: seq<HostEvent>)
    requires Ready(a)
    decreases |events|
  {
    events != [] &&
    var f, e := React(a, w, events[0]), events[0];
    || (e.Piece? && Lost(a, w, |e.bytes|, e.bytes, []) > 0)
    || (f.ret >= 0 && Loses(f.afs, f.w, events[1..]))
  }

  /** The host then hears more than an OKAY, whatever it acknowledges. */
  lemma {:induction false} LossIsHeard(a: Afs, w: World, events: seq<HostEvent>)
    requires Ready(a) && Loses(a, w, events)
    ensures |Converse(a, w, events).reply| > 8
    decreases |events|
  {
    hide Loop;
    hide Lost;
    hide Ack;
    var e := events[0];
    var f := React(a, w, e);
    if e.Piece? {
      LostFacts(a, w, |e.bytes|, e.bytes, []);
    }
    if !(e.Piece? && Lost(a, w, |e.bytes|, e.bytes, []) > 0) {
      LossIsHeard(f.afs, f.w, events[1..]);
    }
  }

  /** A host that does not acknowledge is one that waits; its conversation is its frames one after the other. */
  lemma {:induction false} FramesConverse(a: Afs, w: World, frames: seq<seq<byte>>, owed: nat)
    requires Ready(a)
    ensures Waits(a, w, Pieces(frames), owed) && Sent(Pieces(frames)) == Concat(frames)
    ensures Converse(a, w, Pieces(frames)) == FeedAll(a, w, frames)
    decreases |frames|
  {
    hide Feed;
    if frames != [] {
      var f := Heard(Feed(a, w, frames[0]));
      assert Pieces(frames)[1..] == Pieces(frames[1..]);
      FramesConverse(f.afs, f.w, frames[1..], owed + (if f.reply == [] then 0 else 1));
    }
  }

  function Pieces(frames: seq<seq<byte>>): seq<HostEvent> {
    seq(|frames|, i requires 0 <= i < |frames| => Piece(frames[i]))
  }
}
