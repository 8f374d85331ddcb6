/** SEND of a symlink: what is made is exactly the link. */
module SyncLinks {
  import opened Bytes
  import opened SyncWorld
  import opened SyncSpec
  import opened SyncSplit
  import opened SyncUpload
  import opened SyncAnswers

  /** SEND, the target of the link, DONE with the modification time. */
  function LinkBytes(name: Path, target: seq<byte>, time: nat): seq<byte> {
    Request(ID_SEND, name) + (DataMsg(ID_DATA, target) + (LE32(ID_DONE) + LE32(time)))
  }

  /** A SEND argument that fits, names an absolute path and asks for a symlink. */
  predicate LinkArgument(env: Env, name: Path) {
    && 0 < |name| < PATH_MAX && 0 !in name
    && SendPath(name) != [] && SendPath(name)[0] == SLASH
    && IsLink(env, name)
  }

  /** A willing system removes what was at the path; the path is kept in a block of its own. */
  lemma LinkOpens(a: Afs, w: World, rest: seq<byte>, name: Path)
    requires a.phase == WaitCmdData && a.buf == [] && LinkArgument(w.env, name) && Willing(w.env)
    ensures var o, path := InitSend(a, w, rest, name, 0), SendPath(name);
            && o == Outcome(a.(phase := SendSymHdr(w.next, path)), o.w, rest, [], 1)
            && o.w.files == w.files - {path} && o.w.links == w.links - {path}
            && o.w.handles == w.handles[w.next := Block]
            && o.w.env == w.env && o.w.next == w.next + 1 && o.w.released == w.released
  {
    var path := SendPath(name);
    var w0 := Unlink(w, path);
    ParentsOnlyAsk(w0, path, 1);
    hide MakeParents;
  }

  /** A DATA header between SEND and DONE of a link. */
  lemma TargetHeaderStep(a: Afs, w: World, mem: nat, path: Path, data: seq<byte>, rest: seq<byte>)
    requires a.phase == SendSymHdr(mem, path) && a.buf == [] && |data| < WORD
    ensures Step(a, w, DataMsg(ID_DATA, data) + rest, 0)
         == Outcome(a.(phase := SendSymData(mem, path), namelen := |data|), w, data + rest, [], 1)
  {
    hide LE32;
    hide Word;
    hide FailMsg;
    HeaderWhole(ID_DATA, |data|, data + rest);
    assert DataMsg(ID_DATA, data) + rest == LE32(ID_DATA) + LE32(|data|) + (data + rest);
    hide Gather;
    hide DataMsg;
  }

  /** The whole target: the link is made at the path of the SEND and leads to the target of the DATA. */
  lemma TargetStep(a: Afs, w: World, mem: nat, path: Path, data: seq<byte>, target: Path, rest: seq<byte>)
    requires a.phase == SendSymData(mem, path) && a.buf == [] && a.namelen == |data| < PATH_MAX && IsText(target, data)
    requires data + rest != [] && w.env.symlinks && !w.env.fails(w.turn)
    ensures Step(a, w, data + rest, 0)
         == Outcome(a.(phase := SendSymHdr(mem, path)), w.(turn := w.turn + 1, links := w.links[path := target]),
                    rest, [], 1)
  {
    hide FailMsg;
    hide Ascii;
    hide CString;
    hide Gather;
    TextIs(target, data);
    GatherWhole(data, rest);
  }

  lemma GatherWhole(data: seq<byte>, rest: seq<byte>)
    requires |data| <= PATH_MAX
    ensures Gather([], |data|, data + rest) == Whole(data, rest)
  {
    assert (data + rest)[..|data|] == data && (data + rest)[|data|..] == rest && [] + data == data;
  }

  lemma LinkDoneStep(a: Afs, w: World, mem: nat, path: Path, time: nat)
    requires a.phase == SendSymHdr(mem, path) && a.buf == [] && time < WORD
    ensures Step(a, w, LE32(ID_DONE) + LE32(time), 0)
         == Outcome(Idle(a.cmd, a.namelen), Drop(w, mem), [], [79, 75, 65, 89, 0, 0, 0, 0], 0)
  {
    hide LE32;
    hide Word;
    hide FailMsg;
    OkayText();
    var input := LE32(ID_DONE) + LE32(time);
    HeaderWhole(ID_DONE, time, []);
    assert input + [] == input;
    hide DataMsg;
  }

  lemma OkayText()
    ensures DataMsg(ID_OKAY, []) == [79, 75, 65, 89, 0, 0, 0, 0]
  {
    IdsAreLetters();
    assert LE32(0) == [0, 0, 0, 0];
  }

  /** From the state in which the path is held. */
  lemma TargetUpload(a: Afs, w: World, mem: nat, path: Path, data: seq<byte>, target: Path, time: nat)
    requires a.phase == SendSymHdr(mem, path) && a.buf == [] && time < WORD
    requires |data| < PATH_MAX && IsText(target, data) && w.env.symlinks && !w.env.fails(w.turn)
    ensures Yields(a, w, DataMsg(ID_DATA, data) + (LE32(ID_DONE) + LE32(time)),
                   Fed(Idle(a.cmd, |data|), Drop(w.(turn := w.turn + 1, links := w.links[path := target]), mem),
                       [79, 75, 65, 89, 0, 0, 0, 0], 0))
  {
    hide Yields;
    hide Step;
    hide DataMsg;
    hide LE32;
    var last := LE32(ID_DONE) + LE32(time);
    var b := a.(phase := SendSymData(mem, path), namelen := |data|);
    var c := b.(phase := SendSymHdr(mem, path));
    var w1 := w.(turn := w.turn + 1, links := w.links[path := target]);
    TargetHeaderStep(a, w, mem, path, data, last);
    TargetStep(b, w, mem, path, data, target, last);
    LinkDoneStep(c, w1, mem, path, time);
    YieldsLast(c, w1, last);
    var f := Fed(Idle(a.cmd, |data|), Drop(w1, mem), [79, 75, 65, 89, 0, 0, 0, 0], 0);
    YieldsStep(b, w, data + last, f);
    assert DataMsg(ID_DATA, data) + last != [];
    YieldsStep(a, w, DataMsg(ID_DATA, data) + last, f);
  }

  lemma LinkInOneFrame(a: Afs, w: World, name: Path, data: seq<byte>, target: Path, time: nat) returns (f: Fed)
    requires a.phase == WaitCmd && a.buf == [] && time < WORD && LinkArgument(w.env, name)
    requires |data| < PATH_MAX && IsText(target, data) && w.env.symlinks && Willing(w.env)
    ensures Yields(a, w, LinkBytes(name, data, time), f)
    ensures f == Fed(Idle(ID_SEND, |data|), f.w, [79, 75, 65, 89, 0, 0, 0, 0], 0)
    ensures var path := SendPath(name);
            && f.w.links == (w.links - {path})[path := target] && f.w.files == w.files - {path}
            && f.w.handles == w.handles - {w.next} && f.w.released == w.released + multiset{w.next}
            && f.w.next == w.next + 1 && f.w.env == w.env
  {
    hide Yields;
    hide Step;
    hide InitSend;
    hide Request;
    hide DataMsg;
    hide LE32;
    var tail := DataMsg(ID_DATA, data) + (LE32(ID_DONE) + LE32(time));
    var b := Afs(WaitCmdData, ID_SEND, |name|, []);
    LinkOpens(b, w, tail, name);
    var o := InitSend(b, w, tail, name, 0);
    TargetUpload(o.afs, o.w, w.next, SendPath(name), data, target, time);
    f := Fed(Idle(ID_SEND, |data|),
             Drop(o.w.(turn := o.w.turn + 1, links := o.w.links[SendPath(name) := target]), w.next),
             [79, 75, 65, 89, 0, 0, 0, 0], 0);
    assert w.handles[w.next := Block] - {w.next} == w.handles - {w.next};
    NameStep(w, ID_SEND, name, tail, 0);
    RequestStep(a, w, ID_SEND, name, tail, 0);
    YieldsStep(b, w, name + tail, f);
    YieldsStep(a, w, LinkBytes(name, data, time), f);
  }

  /** However the bytes of a link upload are cut into frames: a link at the requested path that leads to the sent
      target, which ends at its first zero byte, takes the place of whatever was there, no other link or file
      changes, one OKAY is heard, and the service is idle with the block of the path released. */
  lemma LinkUploadIsExact(a: Afs, w: World, name: Path, data: seq<byte>, target: Path, time: nat,
                          frames: seq<seq<byte>>)
    requires a.phase == WaitCmd && a.buf == [] && time < WORD && LinkArgument(w.env, name)
    requires |data| < PATH_MAX && IsText(target, data) && w.env.symlinks && Willing(w.env)
    requires Concat(frames) == LinkBytes(name, data, time)
    ensures var f, path := FeedAll(a, w, frames), SendPath(name);
            && f.w.links == (w.links - {path})[path := target] && f.w.files == w.files - {path}
            && f.reply == [79, 75, 65, 89, 0, 0, 0, 0] && f.ret == 0
            && f.afs.phase == WaitCmd && f.afs.buf == []
            && f.w.handles == w.handles - {w.next} && f.w.released == w.released + multiset{w.next}
    ensures Unpipelined(a, w, frames)
  {
    hide Yields;
    var f := LinkInOneFrame(a, w, name, data, target, time);
    YieldedFrames(a, w, frames, f);
  }

  // ---------- links that are not made ----------

  /** The reasons. */
  const CALL_FAILED: seq<byte> := Ascii("symlink call failed")
  const TOO_LONG: seq<byte> := Ascii("symlink target too long")

  /** However a target of at most a whole buffer is cut into frames: if it fills the buffer or the system refuses
      the link, the answer is FAIL with that reason, no link or file changes and the block is released. */
  lemma RefusedLink(a: Afs, w: World, mem: nat, path: Path, target: Path, frames: seq<seq<byte>>)
    requires a.phase == SendSymHdr(mem, path) && a.buf == [] && w.env.symlinks
    requires 0 < |target| <= PATH_MAX && 0 !in target && (|target| == PATH_MAX || w.env.fails(w.turn))
    requires Concat(frames) == DataMsg(ID_DATA, target)
    ensures var f := FeedAll(a, w, frames);
            && f.reply == Failure(if |target| == PATH_MAX then TOO_LONG else CALL_FAILED)
            && f.ret == 0 && f.afs.phase == WaitCmd && f.afs.buf == []
            && f.w.links == w.links && f.w.files == w.files
            && f.w.handles == w.handles - {mem} && f.w.released == w.released + multiset{mem}
    ensures Unpipelined(a, w, frames)
  {
    hide FeedAll;
    hide Unpipelined;
    hide Yields;
    hide Step;
    hide DataMsg;
    hide LE32;
    hide Ascii;
    var b := a.(phase := SendSymData(mem, path), namelen := |target|);
    TargetHeaderStep(a, w, mem, path, target, []);
    RefusedTarget(b, w, mem, path, target);
    assert DataMsg(ID_DATA, target) + [] == DataMsg(ID_DATA, target) != [] && target + [] == target;
    YieldsLast(b, w, target);
    var o := Step(b, w, target, 0);
    var f := Fed(o.afs, o.w, o.reply, 0);
    YieldsStep(a, w, DataMsg(ID_DATA, target), f);
    YieldedFrames(a, w, frames, f);
  }

  lemma RefusedTarget(a: Afs, w: World, mem: nat, path: Path, target: Path)
    requires a.phase == SendSymData(mem, path) && a.buf == [] && w.env.symlinks
    requires a.namelen == |target| && 0 < |target| <= PATH_MAX && 0 !in target
    requires |target| == PATH_MAX || w.env.fails(w.turn)
    ensures Step(a, w, target, 0)
         == Outcome(Idle(a.cmd, |target|), Drop(if |target| == PATH_MAX then w else Tick(w), mem), [],
                    Failure(if |target| == PATH_MAX then TOO_LONG else CALL_FAILED), 0)
  {
    hide FailMsg;
    hide Ascii;
    FailureIs(TOO_LONG);
    FailureIs(CALL_FAILED);
    assert target[..|target|] == target && target[|target|..] == [] && [] + target == target;
    WholeString(target);
    assert Gather([], |target|, target) == Whole(target, []);
  }

  /** Without symlinks in the build, the first byte of a target ends the service without an answer; with them, a
      target longer than the buffer is answered by FAIL at its first byte. Neither makes a link. */
  lemma TargetIsRefused(a: Afs, w: World, mem: nat, path: Path, input: seq<byte>)
    requires Ready(a) && a.phase == SendSymData(mem, path) && a.buf == [] && input != []
    requires !w.env.symlinks || a.namelen > PATH_MAX
    ensures var o := Step(a, w, input, 0);
            && o.rest == input && o.afs.phase == WaitCmd && o.afs.buf == [] && o.w == Drop(w, mem)
            && (if w.env.symlinks then o.ret == 0 && o.reply == Failure(Ascii("read error"))
                else o.ret < 0 && o.reply == [])
  {
    hide FailMsg;
    hide Ascii;
    FailureIs(Ascii("read error"));
  }
}
