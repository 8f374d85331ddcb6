/** SEND: what is uploaded is exactly the file. */
module SyncUpload {
  import opened Bytes
  import opened SyncWorld
  import opened SyncSpec
  import opened SyncSplit
  import opened SyncTransfer

  // ---------- the host's side ----------

  function Request(id: nat, name: Path): seq<byte> {
    LE32(id) + LE32(|name|) + name
  }

  function DataBlocks(blocks: seq<seq<byte>>): seq<byte> {
    if blocks == [] then [] else DataMsg(ID_DATA, blocks[0]) + DataBlocks(blocks[1..])
  }

  /** SEND, the file in blocks of any size, DONE with the modification time. */
  function UploadBytes(name: Path, blocks: seq<seq<byte>>, time: nat): seq<byte> {
    Request(ID_SEND, name) + (DataBlocks(blocks) + (LE32(ID_DONE) + LE32(time)))
  }

  /** The part of a SEND argument before its last comma. */
  function SendPath(name: Path): Path {
    if LastComma(name).Some? then name[..LastComma(name).value] else name
  }

  function IsLink(env: Env, name: Path): bool {
    LastComma(name).Some? && env.isLink(name[LastComma(name).value + 1..])
  }

  /** The path ends at the last comma, and the mode text follows it; without a comma the argument is all path. */
  lemma PathAndMode(env: Env, path: Path, mode: seq<byte>)
    requires 44 !in mode
    ensures SendPath(path + [44] + mode) == path && IsLink(env, path + [44] + mode) == env.isLink(mode)
    ensures SendPath(mode) == mode && !IsLink(env, mode)
  {
    var name := path + [44] + mode;
    var comma := LastComma(name);
    assert name[|path|] == 44 && forall i :: |path| < i < |name| ==> name[i] == mode[i - |path| - 1];
    assert comma == Some(|path|);
    assert name[..|path|] == path && name[|path| + 1..] == mode;
  }

  /** A SEND argument that fits, names an absolute path and does not ask for a symlink. */
  predicate FileArgument(env: Env, name: Path) {
    && 0 < |name| < PATH_MAX && 0 !in name
    && SendPath(name) != [] && SendPath(name)[0] == SLASH
    && !IsLink(env, name)
  }

  /** No call fails: opens, writes and directories. Short transfers remain arbitrary. */
  ghost predicate Willing(env: Env) {
    Steady(env) && forall t: nat :: env.made(t) != Refused
  }

  // ---------- single steps ----------

  /** `s` is the part of `data` before its first zero byte, or all of it. */
  predicate IsText(s: Path, data: seq<byte>) {
    s <= data && 0 !in s && (|s| < |data| ==> data[|s|] == 0)
  }

  lemma {:induction false} TextIs(s: Path, data: seq<byte>)
    requires IsText(s, data)
    ensures CString(data) == s
  {
    if s != [] {
      assert data[0] == s[0] && data[1..][|s| - 1..] == data[|s|..];
      TextIs(s[1..], data[1..]);
    }
  }

  lemma WholeString(s: seq<byte>)
    requires 0 !in s
    ensures CString(s) == s
  {
    TextIs(s, s);
  }

  /** A header that has arrived with more behind it. */
  lemma HeaderWhole(id: nat, n: nat, rest: seq<byte>)
    requires id < WORD && n < WORD
    ensures Gather([], 8, LE32(id) + LE32(n) + rest) == Whole(LE32(id) + LE32(n), rest)
    ensures Word((LE32(id) + LE32(n))[0..4]) == id && Word((LE32(id) + LE32(n))[4..8]) == n
  {
    hide LE32;
    hide Word;
    var h := LE32(id) + LE32(n);
    assert (h + rest)[..8] == h && (h + rest)[8..] == rest && [] + h == h;
    assert h[0..4] == LE32(id) && h[4..8] == LE32(n);
    WordOfLE32(id);
    WordOfLE32(n);
  }

  /** `input` is answered only at its end, and a frame that holds it ends in f. */
  ghost predicate Yields(a: Afs, w: World, input: seq<byte>, f: Fed) {
    Ready(a) && Tame(a, w, input) && Finish(Quiet(a, w, input)) == f
  }

  lemma YieldsStep(a: Afs, w: World, input: seq<byte>, f: Fed)
    requires Ready(a) && input != []
    requires var o := Step(a, w, input, 0);
             o.reply == [] && o.ret >= 0 && Yields(o.afs, o.w, o.rest, f)
    ensures Yields(a, w, input, f)
  {
    assert [] + f.reply == f.reply;
  }

  lemma YieldsLast(a: Afs, w: World, input: seq<byte>)
    requires Ready(a) && input != [] && !a.phase.SendFileData?
    requires var o := Step(a, w, input, 0); o.ret >= 0 && o.rest == []
    ensures var o := Step(a, w, input, 0); Yields(a, w, input, Fed(o.afs, o.w, o.reply, 0))
  {
    var o := Step(a, w, input, 0);
    assert o.reply + [] == o.reply;
  }

  lemma YieldsFailure(a: Afs, w: World, input: seq<byte>)
    requires Ready(a) && input != [] && !a.phase.SendFileData?
    requires var o := Step(a, w, input, 0); o.ret < 0 && o.rest == []
    ensures var o := Step(a, w, input, 0); Yields(a, w, input, Fed(o.afs, o.w, o.reply, o.ret))
  {
  }

  /** However it is cut into frames. */
  lemma YieldedFrames(a: Afs, w: World, frames: seq<seq<byte>>, f: Fed)
    requires Ready(a) && Yields(a, w, Concat(frames), f)
    ensures FeedAll(a, w, frames) == Heard(f) && Unpipelined(a, w, frames)
  {
    TameIsUnpipelined(a, w, frames);
    FramesDoNotMatter(a, w, frames);
    FeedFinishes(a, w, Concat(frames));
  }

  lemma RequestStep(a: Afs, w: World, id: nat, name: Path, rest: seq<byte>, used: nat)
    requires a.phase == WaitCmd && a.buf == [] && id < WORD && id != ID_QUIT && |name| < PATH_MAX
    ensures var input := Request(id, name) + rest;
            Step(a, w, input, used) == Outcome(Afs(WaitCmdData, id, |name|, []), w, name + rest, [], 1)
  {
    HeaderWhole(id, |name|, name + rest);
    assert Request(id, name) + rest == LE32(id) + LE32(|name|) + (name + rest);
  }

  lemma ArgumentStep(w: World, id: nat, data: seq<byte>, name: Path)
    requires 0 < |data| < PATH_MAX && IsText(name, data)
    ensures var a := Afs(WaitCmdData, id, |data|, []);
            Step(a, w, data, 0) == Settle(Command(a, w, [], name, 0))
  {
    var a := Afs(WaitCmdData, id, |data|, []);
    TextIs(name, data);
    hide Command;
    hide CString;
    assert data[..|data|] == data && data[|data|..] == [] && [] + data == data;
    assert Gather([], |data|, data) == Whole(data, []);
  }

  lemma NameStep(w: World, id: nat, name: Path, rest: seq<byte>, used: nat)
    requires 0 < |name| < PATH_MAX && 0 !in name
    ensures var a := Afs(WaitCmdData, id, |name|, []);
            Step(a, w, name + rest, used) == Settle(Command(a, w, rest, name, used))
  {
    var a := Afs(WaitCmdData, id, |name|, []);
    assert (name + rest)[..|name|] == name && (name + rest)[|name|..] == rest && [] + name == name;
    WholeString(name);
    hide Command;
    assert Gather([], |name|, name + rest) == Whole(name, rest);
  }

  lemma {:induction false} ParentsOnlyAsk(w: World, path: Path, i: nat)
    ensures var (w1, ok) := MakeParents(w, path, i);
            && (Willing(w.env) ==> ok)
            && w1.turn >= w.turn && w1 == w.(turn := w1.turn, asked := w1.asked)
    decreases |path| - i
  {
    if i < |path| {
      ParentsOnlyAsk(if path[i] == SLASH then Mkdir(w, path[..i]).0 else w, path, i + 1);
    }
  }

  /** A willing system opens the file, empty, after unlinking what was there. */
  lemma SendOpens(a: Afs, w: World, rest: seq<byte>, name: Path)
    requires a.phase == WaitCmdData && a.buf == [] && FileArgument(w.env, name) && Willing(w.env)
    ensures var o, path := InitSend(a, w, rest, name, 0), SendPath(name);
            && o.ret == 1 && o.reply == [] && o.rest == rest
            && o.afs == a.(phase := SendFileHdr(w.next))
            && o.w.files == w.files[path := []] && o.w.links == w.links - {path}
            && o.w.handles == w.handles[w.next := Writer(path)]
            && o.w.env == w.env && o.w.next == w.next + 1 && o.w.released == w.released
  {
    var path := SendPath(name);
    var w0 := Unlink(w, path);
    ParentsOnlyAsk(w0, path, 1);
    var w1 := MakeParents(w0, path, 1).0;
    hide MakeParents;
    assert (w.files - {path})[path := []] == w.files[path := []];
    assert InitSend(a, w, rest, name, 0) == InitSendFile(a, w1, rest, path, 0);
  }

  // ---------- blocks ----------

  /** The state after an upload over descriptor fd that started in w. */
  ghost predicate Uploaded(w: World, fd: nat, content: seq<byte>, f: Fed) {
    && fd in w.handles && w.handles[fd].Writer? && w.handles[fd].path in w.files
    && f.ret == 0 && f.reply == DataMsg(ID_OKAY, [])
    && f.afs.phase == WaitCmd && f.afs.buf == []
    && (var path := w.handles[fd].path;
        && f.w.files == w.files[path := w.files[path] + content] && f.w.links == w.links
        && f.w.handles == w.handles - {fd} && f.w.released == w.released + multiset{fd}
        && f.w.next == w.next && f.w.env == w.env)
  }

  lemma DoneStep(a: Afs, w: World, fd: nat, time: nat)
    requires a.phase == SendFileHdr(fd) && a.buf == [] && time < WORD
    requires fd in w.handles && w.handles[fd].Writer? && w.handles[fd].path in w.files
    ensures var input := LE32(ID_DONE) + LE32(time);
            Yields(a, w, input, Finish(Quiet(a, w, input))) && Uploaded(w, fd, [], Finish(Quiet(a, w, input)))
  {
    var input := LE32(ID_DONE) + LE32(time);
    HeaderWhole(ID_DONE, time, []);
    assert input + [] == input;
    var o := Step(a, w, input, 0);
    assert o.rest == [] && o.ret == 0 && o.w == Drop(w, fd) && o.reply == DataMsg(ID_OKAY, []);
    YieldsLast(a, w, input);
    var path := w.handles[fd].path;
    assert w.files[path] + [] == w.files[path] && w.files[path := w.files[path]] == w.files;
  }

  lemma DataHeaderStep(a: Afs, w: World, fd: nat, block: seq<byte>, rest: seq<byte>)
    requires a.phase == SendFileHdr(fd) && a.buf == [] && |block| < WORD
    ensures Step(a, w, DataMsg(ID_DATA, block) + rest, 0)
         == Outcome(a.(phase := SendFileData(fd), namelen := |block|), w, block + rest, [], 1)
  {
    hide LE32;
    hide Word;
    hide FailMsg;
    HeaderWhole(ID_DATA, |block|, block + rest);
    assert DataMsg(ID_DATA, block) + rest == LE32(ID_DATA) + LE32(|block|) + (block + rest);
    hide Gather;
    hide DataMsg;
  }

  lemma DataBlockStep(a: Afs, w: World, fd: nat, block: seq<byte>, rest: seq<byte>)
    requires a.phase == SendFileData(fd) && a.buf == [] && a.namelen == |block| && rest != []
    requires WriteAll(w, fd, block).1
    ensures Step(a, w, block + rest, 0)
         == Outcome(a.(phase := SendFileHdr(fd), namelen := 0), WriteAll(w, fd, block).0, rest, [], 1)
  {
    assert (block + rest)[..|block|] == block && (block + rest)[|block|..] == rest;
    hide WriteAll;
  }

  /** A DATA header, then the whole block. */
  lemma BlockSteps(a: Afs, w: World, fd: nat, block: seq<byte>, rest: seq<byte>, f: Fed)
    requires a.phase == SendFileHdr(fd) && a.buf == [] && |block| < WORD && rest != [] && Steady(w.env)
    requires Yields(a.(namelen := 0), WriteAll(w, fd, block).0, rest, f)
    ensures Yields(a, w, DataMsg(ID_DATA, block) + rest, f)
  {
    var b := a.(phase := SendFileData(fd), namelen := |block|);
    DataHeaderStep(a, w, fd, block, rest);
    WriteAllEnv(w, fd, block);
    DataBlockStep(b, w, fd, block, rest);
    hide Yields;
    hide Dispatch;
    hide WriteAll;
    assert b.(phase := SendFileHdr(fd), namelen := 0) == a.(namelen := 0);
    YieldsStep(b, w, block + rest, f);
    YieldsStep(a, w, DataMsg(ID_DATA, block) + rest, f);
  }

  function Flatten(blocks: seq<seq<byte>>): seq<byte> {
    if blocks == [] then [] else blocks[0] + Flatten(blocks[1..])
  }

  predicate Fits(blocks: seq<seq<byte>>) {
    forall i :: 0 <= i < |blocks| ==> |blocks[i]| < WORD
  }

  lemma {:induction false} BlocksUpload(a: Afs, w: World, fd: nat, blocks: seq<seq<byte>>, time: nat) returns (f: Fed)
    requires a.phase == SendFileHdr(fd) && a.buf == [] && Fits(blocks) && time < WORD
    requires Steady(w.env) && fd in w.handles && w.handles[fd].Writer? && w.handles[fd].path in w.files
    ensures Yields(a, w, DataBlocks(blocks) + (LE32(ID_DONE) + LE32(time)), f)
    ensures Uploaded(w, fd, Flatten(blocks), f)
    decreases |blocks|
  {
    hide Yields;
    hide Uploaded;
    hide Quiet;
    hide WriteAll;
    hide LE32;
    hide DataMsg;
    var last := LE32(ID_DONE) + LE32(time);
    if blocks == [] {
      DoneStep(a, w, fd, time);
      assert DataBlocks(blocks) + last == last;
      f := Finish(Quiet(a, w, last));
    } else {
      WriteAllEnv(w, fd, blocks[0]);
      WriteAllAppends(w, fd, blocks[0]);
      var w1 := WriteAll(w, fd, blocks[0]).0;
      f := BlocksUpload(a.(namelen := 0), w1, fd, blocks[1..], time);
      var rest := DataBlocks(blocks[1..]) + last;
      BlockSteps(a, w, fd, blocks[0], rest, f);
      assert DataBlocks(blocks) + last == DataMsg(ID_DATA, blocks[0]) + rest;
      UploadedMore(w, fd, blocks[0], Flatten(blocks[1..]), f);
    }
  }

  lemma UploadedMore(w: World, fd: nat, block: seq<byte>, content: seq<byte>, f: Fed)
    requires fd in w.handles && w.handles[fd].Writer? && w.handles[fd].path in w.files && WriteAll(w, fd, block).1
    requires Uploaded(WriteAll(w, fd, block).0, fd, content, f)
    ensures Uploaded(w, fd, block + content, f)
  {
    hide WriteAll;
    hide DataMsg;
    WriteAllAppends(w, fd, block);
    var path := w.handles[fd].path;
    assert w.files[path] + block + content == w.files[path] + (block + content);
    assert w.files[path := w.files[path] + block][path := w.files[path] + block + content]
        == w.files[path := w.files[path] + (block + content)];
  }

  // ---------- the theorem ----------

  lemma UploadInOneFrame(a: Afs, w: World, name: Path, blocks: seq<seq<byte>>, time: nat) returns (f: Fed)
    requires a.phase == WaitCmd && a.buf == [] && Fits(blocks) && time < WORD
    requires FileArgument(w.env, name) && Willing(w.env)
    ensures Yields(a, w, UploadBytes(name, blocks, time), f)
    ensures f.ret == 0 && f.reply == DataMsg(ID_OKAY, []) && f.afs.phase == WaitCmd && f.afs.buf == []
    ensures f.w.files == w.files[SendPath(name) := Flatten(blocks)] && f.w.links == w.links - {SendPath(name)}
    ensures f.w.handles == w.handles - {w.next} && f.w.next == w.next + 1
    ensures f.w.released == w.released + multiset{w.next} && f.w.env == w.env
  {
    hide Yields;
    hide Step;
    hide InitSend;
    hide Request;
    hide DataMsg;
    hide LE32;
    var tail := DataBlocks(blocks) + (LE32(ID_DONE) + LE32(time));
    var b := Afs(WaitCmdData, ID_SEND, |name|, []);
    var path := SendPath(name);
    SendOpens(b, w, tail, name);
    var o := InitSend(b, w, tail, name, 0);
    f := BlocksUpload(o.afs, o.w, w.next, blocks, time);
    assert [] + Flatten(blocks) == Flatten(blocks);
    assert w.files[path := []][path := Flatten(blocks)] == w.files[path := Flatten(blocks)];
    assert w.handles[w.next := Writer(path)] - {w.next} == w.handles - {w.next};
    NameStep(w, ID_SEND, name, tail, 0);
    RequestStep(a, w, ID_SEND, name, tail, 0);
    YieldsStep(b, w, name + tail, f);
    YieldsStep(a, w, UploadBytes(name, blocks, time), f);
  }

  /** However the bytes of an upload are cut into frames, and however short the writes are, the file
      ends up as the concatenation of the blocks (replacing what was at that path), no other file or link
      changes, the only reply is one OKAY, and the service is idle with nothing open or buffered. */
  lemma UploadIsExact(a: Afs, w: World, name: Path, blocks: seq<seq<byte>>, time: nat, frames: seq<seq<byte>>)
    requires a.phase == WaitCmd && a.buf == [] && Fits(blocks) && time < WORD
    requires FileArgument(w.env, name) && Willing(w.env)
    requires Concat(frames) == UploadBytes(name, blocks, time)
    ensures var f := FeedAll(a, w, frames);
            && f.ret == 0 && f.reply == DataMsg(ID_OKAY, [])
            && f.w.files == w.files[SendPath(name) := Flatten(blocks)] && f.w.links == w.links - {SendPath(name)}
            && f.w.handles == w.handles - {w.next} && f.w.released == w.released + multiset{w.next}
            && f.afs.phase == WaitCmd && f.afs.buf == [] && f.w.env == w.env && f.w.next == w.next + 1
    ensures Unpipelined(a, w, frames)
  {
    hide Yields;
    var f := UploadInOneFrame(a, w, name, blocks, time);
    YieldedFrames(a, w, frames, f);
  }
}
