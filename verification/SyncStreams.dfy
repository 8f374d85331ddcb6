/** RECV and LIST: what is streamed, one message per acknowledgement, is exactly the file or directory. */
module SyncStreams {
  import opened Bytes
  import opened Frame
  import opened SyncWorld
  import opened SyncSpec
  import opened SyncSplit
  import opened SyncTransfer
  import opened SyncUpload

  predicate Streaming(p: Phase) {
    p.Recv? || p.Listing?
  }

  /** How many messages the service may still send, with the one that ends the stream. */
  function Pending(a: Afs, w: World): nat {
    match a.phase
    case Recv(fd) => |Left(w, fd)| + 1
    case Listing(d, _, _) => |Names(w, d)| + 1
    case _ => 0
  }

  lemma AckProgress(a: Afs, w: World)
    requires Streaming(a.phase)
    ensures Pending(Ack(a, w).afs, Ack(a, w).w) < Pending(a, w)
    ensures Ack(a, w).ret == 0
  {
    hide DataMsg;
    hide DentMsg;
    hide FailMsg;
  }

  datatype Served = Served(replies: seq<seq<byte>>, afs: Afs, w: World)

  /** The host acknowledges every message until the stream ends. */
  function Serve(a: Afs, w: World): Served
    decreases Pending(a, w)
  {
    if !Streaming(a.phase) then Served([], a, w)
    else
      AckProgress(a, w);
      var r := Serve(Ack(a, w).afs, Ack(a, w).w);
      r.(replies := [Ack(a, w).reply] + r.replies)
  }

  // ---------- download ----------

  function Messages(chunks: seq<seq<byte>>): seq<seq<byte>> {
    seq(|chunks|, i requires 0 <= i < |chunks| => DataMsg(ID_DATA, chunks[i]))
  }

  /** Messages that carry `chunks` and end with `last`. */
  ghost predicate Carries(r: Served, chunks: seq<seq<byte>>, last: seq<byte>) {
    && r.replies == Messages(chunks) + [last]
    && forall i :: 0 <= i < |chunks| ==> 0 < |chunks[i]| <= PAYLOAD_SIZE - 8
  }

  /** The calls from turn `from` to turn `to` succeed. */
  ghost predicate NoneFails(env: Env, from: nat, to: nat) {
    forall t: nat :: from <= t <= to ==> !env.fails(t)
  }

  lemma NoneFailsFirst(env: Env, from: nat, to: nat)
    requires from < to
    ensures NoneFails(env, from, to) <==> !env.fails(from) && NoneFails(env, from + 1, to)
  {
  }

  lemma NoneFailsOnce(env: Env, at: nat)
    ensures NoneFails(env, at, at) <==> !env.fails(at)
  {
  }

  /** From a service that has a file open, these messages and nothing else: chunks that are the rest of the
      file, or the start of it, and the message that ends them; then it is idle. */
  ghost predicate ServesFile(a: Afs, w: World, fd: nat, chunks: seq<seq<byte>>, last: seq<byte>) {
    var r, left, all := Serve(a, w), Left(w, fd), Flatten(chunks);
    && Carries(r, chunks, last)
    && all <= left && |chunks| <= |all|
    && (last == DataMsg(ID_DONE, []) ==> all == left)
    && (last == DataMsg(ID_DONE, []) || last == FailMsg(Ascii("read failed"), 0))
    && (last == DataMsg(ID_DONE, []) <==> NoneFails(w.env, w.turn, w.turn + |chunks|))
    && r.afs == a.(phase := WaitCmd, buf := []) && r.w.files == w.files
    && r.w.handles == w.handles - {fd} && r.w.released == w.released + multiset{fd}
  }

  lemma {:induction false} ServeFile(a: Afs, w: World, fd: nat) returns (chunks: seq<seq<byte>>, last: seq<byte>)
    requires a.phase == Recv(fd) && fd in w.handles && w.handles[fd].Reader?
    requires w.handles[fd].pos <= |Contents(w, w.handles[fd].path)|
    ensures ServesFile(a, w, fd, chunks, last)
    decreases |Left(w, fd)|
  {
    hide Ack;
    hide ServesFile;
    var left := Left(w, fd);
    if left == [] || w.env.fails(w.turn) {
      chunks, last := [], Ack(a, w).reply;
      ServeNothing(a, w, fd);
    } else {
      ReadMoves(a, w, fd);
      hide Left;
      var f := Ack(a, w);
      var k := |left| - |Left(f.w, fd)|;
      chunks, last := ServeFile(f.afs, f.w, fd);
      ServeMore(a, w, fd, k, chunks, last);
      chunks := [left[..k]] + chunks;
    }
  }

  lemma ServeNothing(a: Afs, w: World, fd: nat)
    requires a.phase == Recv(fd) && (Left(w, fd) == [] || w.env.fails(w.turn))
    ensures ServesFile(a, w, fd, [], Ack(a, w).reply)
  {
    hide Ack;
    hide Carries;
    hide NoneFails;
    hide DataMsg;
    hide FailMsg;
    FileEnds(a, w, fd);
    NoneFailsOnce(w.env, w.turn);
    hide Serve;
  }

  lemma ServeMore(a: Afs, w: World, fd: nat, k: nat, chunks: seq<seq<byte>>, last: seq<byte>)
    requires a.phase == Recv(fd) && !w.env.fails(w.turn)
    requires var f, left := Ack(a, w), Left(w, fd);
             && f.afs == a && 0 < k <= |left| && k <= PAYLOAD_SIZE - 8 && Left(f.w, fd) == left[k..]
             && f.reply == DataMsg(ID_DATA, left[..k])
             && f.w.env == w.env && f.w.turn == w.turn + 1 && f.w.files == w.files && f.w.released == w.released
             && f.w.handles - {fd} == w.handles - {fd}
             && ServesFile(a, f.w, fd, chunks, last)
    ensures ServesFile(a, w, fd, [Left(w, fd)[..k]] + chunks, last)
  {
    hide Ack;
    hide Carries;
    hide Serve;
    hide NoneFails;
    hide DataMsg;
    hide FailMsg;
    hide Ascii;
    hide Left;
    var f, left := Ack(a, w), Left(w, fd);
    ServeFirst(a, w);
    FileStep(a, w, fd, chunks, last, left[..k]);
    FlattenMore(left, k, chunks);
    NoneFailsFirst(w.env, w.turn, f.w.turn + |chunks|);
  }

  lemma FlattenMore(left: seq<byte>, k: nat, chunks: seq<seq<byte>>)
    requires 0 < k <= |left| && Flatten(chunks) <= left[k..]
    ensures var all := Flatten([left[..k]] + chunks);
            && all == left[..k] + Flatten(chunks) && all <= left
            && (Flatten(chunks) == left[k..] ==> all == left)
  {
    assert ([left[..k]] + chunks)[1..] == chunks;
    assert left[..k] + left[k..] == left;
  }

  /** At the end of the file, or when a read fails. */
  lemma FileEnds(a: Afs, w: World, fd: nat)
    requires a.phase == Recv(fd) && (Left(w, fd) == [] || w.env.fails(w.turn))
    ensures Carries(Serve(a, w), [], Ack(a, w).reply)
    ensures Ack(a, w).reply == if w.env.fails(w.turn) then FailMsg(Ascii("read failed"), 0) else DataMsg(ID_DONE, [])
    ensures var r := Serve(a, w);
            && r.afs == a.(phase := WaitCmd, buf := []) && r.w.files == w.files
            && r.w.handles == w.handles - {fd} && r.w.released == w.released + multiset{fd}
    ensures Ack(a, w).reply == DataMsg(ID_DONE, []) <==> !w.env.fails(w.turn)
  {
    var f := Ack(a, w);
    assert f.afs.phase == WaitCmd && Serve(f.afs, f.w).replies == [];
    assert Messages([]) + [f.reply] == [f.reply] + [];
    DoneIsNotFail(Ascii("read failed"));
    hide DataMsg;
    hide FailMsg;
  }

  lemma DoneIsNotFail(reason: seq<byte>)
    ensures FailMsg(reason, 0) != DataMsg(ID_DONE, [])
  {
    assert FailMsg(reason, 0)[0] == LE32(ID_FAIL)[0] == 70;
    assert DataMsg(ID_DONE, [])[0] == LE32(ID_DONE)[0] == 68;
  }

  /** One successful read: a non-empty piece of what was left, moved from the file to the reply. */
  lemma ReadMoves(a: Afs, w: World, fd: nat)
    requires a.phase == Recv(fd) && fd in w.handles && w.handles[fd].Reader?
    requires w.handles[fd].pos <= |Contents(w, w.handles[fd].path)|
    requires Left(w, fd) != [] && !w.env.fails(w.turn)
    ensures var f, left := Ack(a, w), Left(w, fd);
            && f.afs == a && fd in f.w.handles && f.w.handles[fd].Reader? && f.w.env == w.env && f.w.turn == w.turn + 1
            && f.w.files == w.files && f.w.released == w.released
            && f.w.handles[fd].path == w.handles[fd].path
            && f.w.handles[fd].pos <= |Contents(f.w, f.w.handles[fd].path)|
            && f.w.handles - {fd} == w.handles - {fd}
            && |Left(f.w, fd)| < |left|
            && (var k := |left| - |Left(f.w, fd)|;
                && k <= PAYLOAD_SIZE - 8 && Left(f.w, fd) == left[k..]
                && f.reply == DataMsg(ID_DATA, left[..k]))
  {
    hide DataMsg;
  }

  lemma FileStep(a: Afs, w: World, fd: nat, chunks: seq<seq<byte>>, last: seq<byte>, chunk: seq<byte>)
    requires a.phase == Recv(fd) && 0 < |chunk| <= PAYLOAD_SIZE - 8
    requires Ack(a, w).reply == DataMsg(ID_DATA, chunk)
    requires Carries(Serve(Ack(a, w).afs, Ack(a, w).w), chunks, last)
    ensures Carries(Serve(a, w), [chunk] + chunks, last)
  {
    hide DataMsg;
    hide Ack;
    assert Messages([chunk] + chunks) == [DataMsg(ID_DATA, chunk)] + Messages(chunks);
    assert Messages([chunk] + chunks) + [last] == [DataMsg(ID_DATA, chunk)] + (Messages(chunks) + [last]);
  }

  /** A request whose command answers at once and is the last of the frame. Its argument is read as a C string. */
  lemma RequestFeeds(a: Afs, w: World, id: nat, data: seq<byte>, name: Path)
    requires a.phase == WaitCmd && a.buf == [] && id < WORD && id != ID_QUIT
    requires 0 < |data| < PATH_MAX && IsText(name, data)
    requires Command(Afs(WaitCmdData, id, |data|, []), w, [], name, 0).ret >= 0
    ensures var o := Settle(Command(Afs(WaitCmdData, id, |data|, []), w, [], name, 0));
            Yields(a, w, Request(id, data), Fed(o.afs, o.w, o.reply, 0))
  {
    var b := Afs(WaitCmdData, id, |data|, []);
    assert Request(id, data) + [] == Request(id, data) && data + [] == data;
    RequestStep(a, w, id, data, [], 0);
    ArgumentStep(w, id, data, name);
    CommandProgress(b, w, [], name, 0);
    hide Command;
    hide Dispatch;
    YieldsLast(b, w, data);
    var o := Step(b, w, data, 0);
    hide Step;
    YieldsStep(a, w, Request(id, data), Fed(o.afs, o.w, o.reply, 0));
  }

  /** However such a request is cut into frames. */
  lemma ArgumentInFrames(a: Afs, w: World, id: nat, data: seq<byte>, name: Path, frames: seq<seq<byte>>)
    requires a.phase == WaitCmd && a.buf == [] && id < WORD && id != ID_QUIT
    requires 0 < |data| < PATH_MAX && IsText(name, data)
    requires Command(Afs(WaitCmdData, id, |data|, []), w, [], name, 0).ret >= 0 && Concat(frames) == Request(id, data)
    ensures var o := Settle(Command(Afs(WaitCmdData, id, |data|, []), w, [], name, 0));
            FeedAll(a, w, frames) == Fed(o.afs, o.w, o.reply, 0)
    ensures Unpipelined(a, w, frames)
  {
    hide Yields;
    hide Command;
    RequestFeeds(a, w, id, data, name);
    var o := Settle(Command(Afs(WaitCmdData, id, |data|, []), w, [], name, 0));
    YieldedFrames(a, w, frames, Fed(o.afs, o.w, o.reply, 0));
  }

  lemma RequestInFrames(a: Afs, w: World, id: nat, name: Path, frames: seq<seq<byte>>)
    requires a.phase == WaitCmd && a.buf == [] && id < WORD && id != ID_QUIT && 0 < |name| < PATH_MAX && 0 !in name
    requires Command(Afs(WaitCmdData, id, |name|, []), w, [], name, 0).ret >= 0 && Concat(frames) == Request(id, name)
    ensures var o := Settle(Command(Afs(WaitCmdData, id, |name|, []), w, [], name, 0));
            FeedAll(a, w, frames) == Fed(o.afs, o.w, o.reply, 0)
    ensures Unpipelined(a, w, frames)
  {
    hide Command;
    hide FeedAll;
    hide Unpipelined;
    ArgumentInFrames(a, w, id, name, name, frames);
  }

  /** The state in which a RECV service has opened its file and sent nothing yet. */
  lemma RecvOpens(a: Afs, w: World, path: Path, frames: seq<seq<byte>>)
    requires a.phase == WaitCmd && a.buf == [] && 0 < |path| < PATH_MAX && 0 !in path
    requires path in w.files && !w.env.fails(w.turn) && Concat(frames) == Request(ID_RECV, path)
    ensures var b := Afs(Recv(w.next), ID_RECV, |path|, []);
            var w1 := OpenRead(w, path).0;
            && w1 == Acquire(Tick(w), Reader(path, 0))
            && FeedAll(a, w, frames) == Ack(b, w1)
    ensures Unpipelined(a, w, frames)
  {
    var c := Afs(WaitCmdData, ID_RECV, |path|, []);
    var b := Afs(Recv(w.next), ID_RECV, |path|, []);
    var w1 := OpenRead(w, path).0;
    assert Command(c, w, [], path, 0) == RecvStep(b, w1, [], 0);
    RequestInFrames(a, w, ID_RECV, path, frames);
    hide RecvStep;
    hide Command;
    hide FeedAll;
    hide Unpipelined;
    RecvSettles(b, w1);
  }

  lemma RecvSettles(b: Afs, w: World)
    requires b.phase.Recv?
    ensures var o := Settle(RecvStep(b, w, [], 0)); o.ret >= 0 && Ack(b, w) == Fed(o.afs, o.w, o.reply, 0)
  {
    hide DataMsg;
    hide FailMsg;
  }

  /** However the request is cut into frames and however short the reads are, the messages of a download
      of a file that opens, the first in answer to the request and one more for each acknowledgement, are
      DATA messages, each non-empty and within the payload, and then one last message. They concatenate to
      the file if the last message is DONE, as it is if and only if no read of this download fails, and to
      some part from its start otherwise, perhaps all of it. It takes at most as many acknowledgements as the
      file has bytes, and afterwards the service is idle with nothing open. */
  lemma DownloadIsExact(a: Afs, w: World, path: Path, frames: seq<seq<byte>>)
      returns (chunks: seq<seq<byte>>, last: seq<byte>)
    requires a.phase == WaitCmd && a.buf == [] && 0 < |path| < PATH_MAX && 0 !in path
    requires path in w.files && !w.env.fails(w.turn) && w.next !in w.handles
    requires Concat(frames) == Request(ID_RECV, path)
    ensures Unpipelined(a, w, frames)
    ensures Downloads(w, path, chunks, last, FeedAll(a, w, frames))
  {
    RecvOpens(a, w, path, frames);
    var b := Afs(Recv(w.next), ID_RECV, |path|, []);
    hide FeedAll;
    hide Downloads;
    chunks, last := OpenedDownload(w, path, b);
  }

  /** f is the service after the request, with the first message in its packet. */
  ghost predicate Downloads(w: World, path: Path, chunks: seq<seq<byte>>, last: seq<byte>, f: Fed)
    requires path in w.files
  {
    var r := Serve(f.afs, f.w);
    && [f.reply] + r.replies == Messages(chunks) + [last]
    && (forall i :: 0 <= i < |chunks| ==> 0 < |chunks[i]| && |DataMsg(ID_DATA, chunks[i])| <= PAYLOAD_SIZE)
    && Flatten(chunks) <= w.files[path]
    && (last == DataMsg(ID_DONE, []) ==> Flatten(chunks) == w.files[path])
    && (last == DataMsg(ID_DONE, []) || last == FailMsg(Ascii("read failed"), 0))
    && (last == DataMsg(ID_DONE, []) <==> NoneFails(w.env, w.turn + 1, w.turn + 1 + |r.replies|))
    && |r.replies| <= |w.files[path]|
    && f.ret == 0 && r.afs.phase == WaitCmd && r.afs.buf == []
    && r.w.files == w.files && r.w.handles == w.handles
  }

  lemma OpenedDownload(w: World, path: Path, b: Afs) returns (chunks: seq<seq<byte>>, last: seq<byte>)
    requires path in w.files && !w.env.fails(w.turn) && w.next !in w.handles && b.phase == Recv(w.next)
    ensures Downloads(w, path, chunks, last, Ack(b, OpenRead(w, path).0))
  {
    hide NoneFails;
    hide FailMsg;
    hide Ascii;
    hide DataMsg;
    hide Ack;
    var w1 := OpenRead(w, path).0;
    assert Left(w1, w.next) == w.files[path][0..] == w.files[path];
    assert w.handles[w.next := Reader(path, 0)] - {w.next} == w.handles;
    chunks, last := ServeFile(b, w1, w.next);
    ServeFirst(b, w1);
    AckProgress(b, w1);
    hide Serve;
    hide Left;
  }

  /** Pushing a file and pulling it back gives the pushed bytes. */
  lemma RoundTrip(a: Afs, w: World, name: Path, blocks: seq<seq<byte>>, time: nat,
                  up: seq<seq<byte>>, down: seq<seq<byte>>) returns (chunks: seq<seq<byte>>)
    requires a.phase == WaitCmd && a.buf == [] && Fits(blocks) && time < WORD
    requires FileArgument(w.env, name) && Willing(w.env) && forall h :: h in w.handles ==> h < w.next
    requires Concat(up) == UploadBytes(name, blocks, time) && Concat(down) == Request(ID_RECV, SendPath(name))
    ensures var pushed := FeedAll(a, w, up);
            var pulled := FeedAll(pushed.afs, pushed.w, down);
            && [pulled.reply] + Serve(pulled.afs, pulled.w).replies == Messages(chunks) + [DataMsg(ID_DONE, [])]
            && Flatten(chunks) == Flatten(blocks)
  {
    UploadIsExact(a, w, name, blocks, time, up);
    var pushed := FeedAll(a, w, up);
    hide FeedAll;
    hide Unpipelined;
    hide DataMsg;
    hide Serve;
    var last;
    chunks, last := DownloadIsExact(pushed.afs, pushed.w, SendPath(name), down);
    var pulled := FeedAll(pushed.afs, pushed.w, down);
    SteadyNeverFails(pushed.w.env, pushed.w.turn + 1, pushed.w.turn + 1 + |Serve(pulled.afs, pulled.w).replies|);
  }

  lemma SteadyNeverFails(env: Env, from: nat, to: nat)
    requires Steady(env)
    ensures NoneFails(env, from, to)
  {
  }

  // ---------- listing ----------

  /** The messages for directory entries from some turn on: mode, size and time are those of lstat, or zeros
      when the name is too long for the path or lstat fails, and the name is cut only to the space left in
      the payload. */
  function Dents(env: Env, turn: nat, path: Path, names: seq<Path>): (r: seq<seq<byte>>)
    ensures |r| == |names|
    decreases |names|
  {
    if names == [] then []
    else
      var long := |names[0]| >= PATH_MAX - (|path| + 1);
      var stat := env.lstat(turn, path + [SLASH] + names[0]);
      var m := if long || stat.None? then NO_META else stat.value;
      [DentMsg(ID_DENT, m, names[0][..Min(|names[0]|, PAYLOAD_SIZE - 20)])]
      + Dents(env, if long then turn else turn + 1, path, names[1..])
  }

  lemma {:induction false} ServeDirectory(a: Afs, w: World)
    requires a.phase.Listing? && a.phase.d in w.handles && w.handles[a.phase.d].Directory?
    ensures var r, names := Serve(a, w), Names(w, a.phase.d);
            && r.replies == Dents(w.env, w.turn, a.phase.path, names) + [DentMsg(ID_DONE, NO_META, [])]
            && r.afs == a.(phase := WaitCmd, buf := [])
            && r.w.handles == w.handles - {a.phase.mem} - {a.phase.d} && r.w.files == w.files
            && r.w.released == w.released + multiset{a.phase.mem} + multiset{a.phase.d}
    decreases |Names(w, a.phase.d)|
  {
    hide Ack;
    hide DentMsg;
    hide CutName;
    var d, names, last := a.phase.d, Names(w, a.phase.d), [DentMsg(ID_DONE, NO_META, [])];
    var f := Ack(a, w);
    if names != [] {
      ListMoves(a, w);
      ServeDirectory(f.afs, f.w);
      var r, r1 := Serve(a, w), Serve(f.afs, f.w);
      var dents := Dents(w.env, w.turn, a.phase.path, names);
      var dents1 := Dents(f.w.env, f.w.turn, a.phase.path, names[1..]);
      assert r.replies == [f.reply] + r1.replies;
      assert dents == [f.reply] + dents1;
      assert dents + last == [f.reply] + (dents1 + last);
    } else {
      ListEnds(a, w);
      assert Serve(f.afs, f.w).replies == [];
    }
  }

  lemma ListMoves(a: Afs, w: World)
    requires a.phase.Listing? && a.phase.d in w.handles && w.handles[a.phase.d].Directory? && Names(w, a.phase.d) != []
    ensures var f, d := Ack(a, w), a.phase.d;
            && f.afs == a && d in f.w.handles && f.w.handles[d].Directory?
            && Names(f.w, d) == Names(w, d)[1..]
            && Dents(w.env, w.turn, a.phase.path, Names(w, d))
               == [f.reply] + Dents(f.w.env, f.w.turn, a.phase.path, Names(f.w, d))
            && f.w.handles - {a.phase.mem} - {d} == w.handles - {a.phase.mem} - {d}
            && f.w.files == w.files && f.w.released == w.released
  {
    hide DentMsg;
  }

  lemma ListEnds(a: Afs, w: World)
    requires a.phase.Listing? && Names(w, a.phase.d) == []
    ensures var f := Ack(a, w);
            && f.afs == a.(phase := WaitCmd, buf := []) && f.reply == DentMsg(ID_DONE, NO_META, [])
            && f.w.handles == w.handles - {a.phase.mem} - {a.phase.d} && f.w.files == w.files
            && f.w.released == w.released + multiset{a.phase.mem} + multiset{a.phase.d}
  {
    hide DentMsg;
  }

  /** However a LIST request is cut into frames, the messages of a listing of a directory that opens are one
      DENT per entry, in order and with what lstat said of it, and then one DONE; afterwards the directory and
      the path block are released. */
  lemma ListingIsComplete(a: Afs, w: World, path: Path, frames: seq<seq<byte>>, names: seq<Path>)
    requires a.phase == WaitCmd && a.buf == [] && 0 < |path| < PATH_MAX - 3 && 0 !in path
    requires w.env.entries(w.turn, path) == Some(names)
    requires forall h :: h in w.handles ==> h < w.next
    requires Concat(frames) == Request(ID_LIST, path)
    ensures var f := FeedAll(a, w, frames);
            var r := Serve(f.afs, f.w);
            var messages := [f.reply] + r.replies;
            && messages == Dents(w.env, w.turn + 1, path, names) + [DentMsg(ID_DONE, NO_META, [])]
            && |messages| == |names| + 1
            && (forall i :: 0 <= i < |messages| ==> |messages[i]| <= PAYLOAD_SIZE)
            && f.ret == 0 && r.afs.phase == WaitCmd && r.w.handles == w.handles
            && r.w.released == w.released + multiset{w.next, w.next + 1}
    ensures Unpipelined(a, w, frames)
  {
    hide Serve;
    hide Ack;
    hide FeedAll;
    hide DentMsg;
    hide Dents;
    hide Names;
    hide Unpipelined;
    hide Concat;
    var b := Afs(Listing(w.next + 1, w.next, path), ID_LIST, |path|, []);
    var w1 := OpenDir(Acquire(w, Block), path).0;
    ListOpens(a, w, path, frames, names);
    hide OpenDir;
    ListWorld(w, path, names);
    ServeDirectory(b, w1);
    ServeFirst(b, w1);
    DentsFit(w.env, w.turn + 1, path, names);
    AckProgress(b, w1);
  }

  lemma ListWorld(w: World, path: Path, names: seq<Path>)
    requires w.env.entries(w.turn, path) == Some(names) && forall h :: h in w.handles ==> h < w.next
    ensures var w1 := OpenDir(Acquire(w, Block), path).0;
            && w.next + 1 in w1.handles && w1.handles[w.next + 1] == Directory(names)
            && Names(w1, w.next + 1) == names
            && w1.handles - {w.next} - {w.next + 1} == w.handles
            && w1.released + multiset{w.next} + multiset{w.next + 1} == w.released + multiset{w.next, w.next + 1}
  {
  }

  lemma ServeFirst(a: Afs, w: World)
    requires Streaming(a.phase)
    ensures var f := Ack(a, w);
            && Serve(a, w).replies == [f.reply] + Serve(f.afs, f.w).replies
            && Serve(a, w).afs == Serve(f.afs, f.w).afs && Serve(a, w).w == Serve(f.afs, f.w).w
  {
    hide Ack;
  }

  lemma {:induction false} DentsFit(env: Env, turn: nat, path: Path, names: seq<Path>)
    ensures forall m :: m in Dents(env, turn, path, names) ==> |m| <= PAYLOAD_SIZE
    ensures |DentMsg(ID_DONE, NO_META, [])| <= PAYLOAD_SIZE
    decreases |names|
  {
    if names != [] {
      DentsFit(env, if |names[0]| >= PATH_MAX - (|path| + 1) then turn else turn + 1, path, names[1..]);
    }
    hide LE32;
  }

  lemma ListOpens(a: Afs, w: World, path: Path, frames: seq<seq<byte>>, names: seq<Path>)
    requires a.phase == WaitCmd && a.buf == [] && 0 < |path| < PATH_MAX - 3 && 0 !in path
    requires w.env.entries(w.turn, path) == Some(names)
    requires Concat(frames) == Request(ID_LIST, path)
    ensures var b := Afs(Listing(w.next + 1, w.next, path), ID_LIST, |path|, []);
            var w1 := OpenDir(Acquire(w, Block), path).0;
            && w1 == Acquire(Tick(Acquire(w, Block)), Directory(names))
            && FeedAll(a, w, frames) == Ack(b, w1)
    ensures Unpipelined(a, w, frames)
  {
    var c := Afs(WaitCmdData, ID_LIST, |path|, []);
    var b := Afs(Listing(w.next + 1, w.next, path), ID_LIST, |path|, []);
    var w1 := OpenDir(Acquire(w, Block), path).0;
    assert Command(c, w, [], path, 0) == ListStep(b, w1, [], 0);
    ListSettles(b, w1);
    RequestInFrames(a, w, ID_LIST, path, frames);
    hide ListStep;
    hide Command;
    hide FeedAll;
    hide Unpipelined;
  }

  lemma ListSettles(b: Afs, w: World)
    requires b.phase.Listing?
    ensures var o := Settle(ListStep(b, w, [], 0)); o.ret >= 0 && Ack(b, w) == Fed(o.afs, o.w, o.reply, 0)
  {
    hide DentMsg;
  }
}
