/** What each request to the file sync service is answered with, byte for byte, when it is not carried out
    as well as when it is. */
module SyncAnswers {
  import opened Bytes
  import opened Frame
  import opened SyncWorld
  import opened SyncSpec
  import opened SyncSplit
  import opened SyncUpload
  import opened SyncStreams

  // ---------- messages ----------

  const FAIL: seq<byte> := [70, 65, 73, 76]
  const DONE: seq<byte> := [68, 79, 78, 69]
  const DATA: seq<byte> := [68, 65, 84, 65]
  const STAT: seq<byte> := [83, 84, 65, 84]

  /** FAIL, the length of the reason and the reason, cut to the payload. */
  function Failure(reason: seq<byte>): (r: seq<byte>) {
    var n := Min(|reason|, PAYLOAD_SIZE - 8);
    FAIL + LE32(n) + reason[..n]
  }

  const NO_FILE: seq<byte> :=
    [102, 105, 108, 101, 32, 100, 111, 101, 115, 32, 110, 111, 116, 32, 101, 120, 105, 115, 116]

  lemma NoFileText()
    ensures Ascii("file does not exist") == NO_FILE
  {
  }

  /** The ids are four letters in the order in which they are written. */
  lemma IdsAreLetters()
    ensures LE32(ID_STAT) == STAT && LE32(ID_LIST) == [76, 73, 83, 84] && LE32(ID_SEND) == [83, 69, 78, 68]
    ensures LE32(ID_RECV) == [82, 69, 67, 86] && LE32(ID_DENT) == [68, 69, 78, 84] && LE32(ID_DONE) == DONE
    ensures LE32(ID_DATA) == DATA && LE32(ID_OKAY) == [79, 75, 65, 89]
    ensures LE32(ID_FAIL) == FAIL && LE32(ID_QUIT) == [81, 85, 73, 84]
  {
  }

  lemma FailureIs(reason: seq<byte>)
    ensures FailMsg(reason, 0) == Failure(reason)
  {
    IdsAreLetters();
    hide LE32;
  }

  /** The fields of a DENT in their order: id, mode, size, time, length of the name, name. */
  lemma DentLayout(m: Meta, name: Path)
    requires m.mode < WORD && m.size < WORD && m.time < WORD && |name| < WORD
    ensures var r := DentMsg(ID_DENT, m, name);
            && r[..4] == [68, 69, 78, 84] && Word(r[4..8]) == m.mode && Word(r[8..12]) == m.size
            && Word(r[12..16]) == m.time && Word(r[16..20]) == |name| && r[20..] == name
    ensures DentMsg(ID_DONE, NO_META, name)[..4] == DONE
  {
    IdsAreLetters();
    hide LE32;
    hide Word;
    WordOfLE32(m.mode);
    WordOfLE32(m.size);
    WordOfLE32(m.time);
    WordOfLE32(|name|);
    var r := DentMsg(ID_DENT, m, name);
    assert r[4..8] == LE32(m.mode) && r[8..12] == LE32(m.size);
    assert r[12..16] == LE32(m.time) && r[16..20] == LE32(|name|);
  }

  // ---------- arguments ----------

  /** An argument ends at its first zero byte: however the two requests are cut into frames, one with more bytes
      behind a zero has the answer and the effects of the one without. */
  lemma ZeroEndsTheArgument(a: Afs, w: World, id: nat, name: Path, tail: seq<byte>,
                            frames: seq<seq<byte>>, shorter: seq<seq<byte>>)
    requires a.phase == WaitCmd && a.buf == [] && id < WORD
    requires LE32(id) in {STAT, [76, 73, 83, 84], [83, 69, 78, 68], [82, 69, 67, 86]}
    requires 0 !in name && name != [] && |name| + 1 + |tail| < PATH_MAX
    requires Concat(frames) == Request(id, name + [0] + tail) && Concat(shorter) == Request(id, name)
    ensures var f, g := FeedAll(a, w, frames), FeedAll(a, w, shorter);
            f.reply == g.reply && f.ret == g.ret && f.w == g.w && f.afs == g.afs.(namelen := f.afs.namelen)
  {
    hide FeedAll;
    hide Unpipelined;
    hide Command;
    hide LE32;
    hide Request;
    var data := name + [0] + tail;
    KnownId(id);
    CommandAnswers(id, |data|, w, name);
    CommandAnswers(id, |name|, w, name);
    ArgumentInFrames(a, w, id, data, name, frames);
    ArgumentInFrames(a, w, id, name, name, shorter);
  }

  lemma KnownId(id: nat)
    requires id < WORD && LE32(id) in {STAT, [76, 73, 83, 84], [83, 69, 78, 68], [82, 69, 67, 86]}
    ensures id in {ID_STAT, ID_LIST, ID_SEND, ID_RECV} && id != ID_QUIT
  {
    hide LE32;
    IdsAreLetters();
    WordOfLE32(id);
    WordOfLE32(ID_STAT);
    WordOfLE32(ID_LIST);
    WordOfLE32(ID_SEND);
    WordOfLE32(ID_RECV);
  }

  /** The length of the argument that was announced has no effect of its own. */
  lemma CommandAnswers(id: nat, n: nat, w: World, name: Path)
    requires id in {ID_STAT, ID_LIST, ID_SEND, ID_RECV}
    ensures var o := Command(Afs(WaitCmdData, id, n, []), w, [], name, 0);
            && o.ret >= 0
            && Settle(o) == (var s := Settle(Command(Afs(WaitCmdData, id, 0, []), w, [], name, 0));
                             s.(afs := s.afs.(namelen := n)))
  {
    hide FailMsg;
    hide DataMsg;
    hide DentMsg;
    hide StatMsg;
    hide Ascii;
    hide Parents;
    hide Read;
    hide ReadDir;
    hide LastComma;
    hide Unlink;
    hide OpenWrite;
  }

  // ---------- download ----------

  /** However the request is cut into frames: the download of a file that does not exist or does not open is
      answered by one FAIL with that reason, and nothing else has happened to the service or the system. */
  lemma RefusedDownload(a: Afs, w: World, path: Path, frames: seq<seq<byte>>)
    requires a.phase == WaitCmd && a.buf == [] && 0 < |path| < PATH_MAX && 0 !in path
    requires Concat(frames) == Request(ID_RECV, path)
    requires path !in w.files || w.env.fails(w.turn)
    ensures var f := FeedAll(a, w, frames);
            && f.reply == FAIL + LE32(Min(19, PAYLOAD_SIZE - 8)) + NO_FILE[..Min(19, PAYLOAD_SIZE - 8)]
            && f.reply[..4] != DATA && f.reply[..4] != DONE
            && f.ret == 0 && f.afs.phase == WaitCmd && f.afs.buf == []
            && f.w == w.(turn := w.turn + 1)
    ensures Unpipelined(a, w, frames)
  {
    hide FeedAll;
    hide Unpipelined;
    hide Command;
    hide FailMsg;
    hide LE32;
    OpenIsRefused(w, path);
    RequestInFrames(a, w, ID_RECV, path, frames);
    assert Failure(NO_FILE)[..4] == FAIL && FAIL[0] != DATA[0] && FAIL[0] != DONE[0];
  }

  lemma OpenIsRefused(w: World, path: Path)
    requires path !in w.files || w.env.fails(w.turn)
    ensures Settle(Command(Afs(WaitCmdData, ID_RECV, |path|, []), w, [], path, 0))
         == Outcome(Idle(ID_RECV, |path|), Tick(w), [], Failure(NO_FILE), 0)
  {
    hide Ascii;
    hide FailMsg;
    NoFileText();
    FailureIs(NO_FILE);
  }

  /** The first message of a download, whatever happens: FAIL if and only if the open or the first read fails,
      DONE for an empty file, and else DATA with bytes from the start of the file. */
  lemma FirstAnswer(a: Afs, w: World, path: Path, frames: seq<seq<byte>>)
    requires a.phase == WaitCmd && a.buf == [] && 0 < |path| < PATH_MAX && 0 !in path && w.next !in w.handles
    requires Concat(frames) == Request(ID_RECV, path)
    ensures var f := FeedAll(a, w, frames);
            && |f.reply| >= 8
            && (f.reply[..4] == FAIL <==> path !in w.files || w.env.fails(w.turn) || w.env.fails(w.turn + 1))
            && (f.reply[..4] != FAIL ==>
                if w.files[path] == [] then f.reply == DONE + [0, 0, 0, 0]
                else f.reply[..4] == DATA && f.reply[8..] != [] && f.reply[8..] <= w.files[path])
  {
    hide FeedAll;
    hide Unpipelined;
    IdsAreLetters();
    if path !in w.files || w.env.fails(w.turn) {
      RefusedDownload(a, w, path, frames);
    } else {
      RecvOpens(a, w, path, frames);
      FirstRead(w, path, Afs(Recv(w.next), ID_RECV, |path|, []));
    }
  }

  lemma FirstRead(w: World, path: Path, b: Afs)
    requires path in w.files && !w.env.fails(w.turn) && w.next !in w.handles && b.phase == Recv(w.next)
    ensures var r := Ack(b, OpenRead(w, path).0).reply;
            && |r| >= 8
            && (r[..4] == FAIL <==> w.env.fails(w.turn + 1))
            && (r[..4] != FAIL ==>
                if w.files[path] == [] then r == DONE + [0, 0, 0, 0]
                else r[..4] == DATA && r[8..] != [] && r[8..] <= w.files[path])
  {
    hide Ascii;
    hide FailMsg;
    hide DataMsg;
    hide Ack;
    hide LE32;
    hide OpenRead;
    var chunk := FirstChunk(w, path, b);
    FailureIs(Ascii("read failed"));
    IdsBegin(Ascii("read failed"));
    IdsBegin(chunk);
    assert FAIL[0] != DATA[0] && FAIL[0] != DONE[0];
    assert (DONE + [0, 0, 0, 0])[..4] == DONE;
  }

  lemma FirstChunk(w: World, path: Path, b: Afs) returns (chunk: seq<byte>)
    requires path in w.files && !w.env.fails(w.turn) && w.next !in w.handles && b.phase == Recv(w.next)
    ensures Ack(b, OpenRead(w, path).0).reply ==
            if w.env.fails(w.turn + 1) then FailMsg(Ascii("read failed"), 0)
            else if w.files[path] == [] then DataMsg(ID_DONE, [])
            else DataMsg(ID_DATA, chunk)
    ensures w.files[path] != [] ==> chunk != [] && chunk <= w.files[path]
  {
    hide Ascii;
    hide FailMsg;
    hide DataMsg;
    var w1, all := OpenRead(w, path).0, w.files[path];
    assert Left(w1, w.next) == all[0..] == all;
    chunk := if all == [] then [] else all[..Shortened(w1, Min(PAYLOAD_SIZE - 8, |all|))];
  }

  /** How the messages of a download begin. */
  lemma IdsBegin(bytes: seq<byte>)
    ensures Failure(bytes)[..4] == FAIL
    ensures var r := DataMsg(ID_DATA, bytes); r[..4] == DATA && r[8..] == bytes
    ensures DataMsg(ID_DONE, []) == DONE + [0, 0, 0, 0]
  {
    IdsAreLetters();
    assert LE32(0) == [0, 0, 0, 0];
    hide LE32;
  }

  // ---------- stat ----------

  function Told(m: Option<Meta>): seq<byte> {
    match m
    case None => STAT + [0, 0, 0, 0, 0, 0, 0, 0, 0, 0, 0, 0]
    case Some(meta) => STAT + LE32(meta.mode) + LE32(meta.size) + LE32(meta.time)
  }

  /** However the request is cut into frames: STAT is answered by one message with what stat said of the
      requested path, zeros if it failed, and the service is idle again. */
  lemma StatIsAnswered(a: Afs, w: World, path: Path, frames: seq<seq<byte>>)
    requires a.phase == WaitCmd && a.buf == [] && 0 < |path| < PATH_MAX && 0 !in path
    requires Concat(frames) == Request(ID_STAT, path)
    ensures var f := FeedAll(a, w, frames);
            && f.reply == Told(w.env.stat(w.turn, path))
            && f.ret == 0 && f.afs.phase == WaitCmd && f.afs.buf == []
            && f.w == w.(turn := w.turn + 1)
    ensures Unpipelined(a, w, frames)
  {
    hide FeedAll;
    hide Unpipelined;
    hide Command;
    hide LE32;
    StatTells(w, path);
    RequestInFrames(a, w, ID_STAT, path, frames);
  }

  lemma StatTells(w: World, path: Path)
    ensures Settle(Command(Afs(WaitCmdData, ID_STAT, |path|, []), w, [], path, 0))
         == Outcome(Idle(ID_STAT, |path|), Tick(w), [], Told(w.env.stat(w.turn, path)),
                    if w.env.stat(w.turn, path).Some? then 1 else 0)
  {
    hide StatMsg;
    var told := w.env.stat(w.turn, path);
    StatLayout(NO_META);
    if told.Some? {
      StatLayout(told.value);
    }
  }

  lemma StatLayout(m: Meta)
    ensures StatMsg(m) == Told(Some(m))
    ensures StatMsg(NO_META) == Told(None)
  {
    IdsAreLetters();
    assert LE32(0) == [0, 0, 0, 0];
    hide LE32;
  }

  // ---------- listing ----------

  /** However the request is cut into frames: LIST of a path that is too long or does not open is answered by
      DONE at once, and nothing is held. */
  lemma RefusedListing(a: Afs, w: World, path: Path, frames: seq<seq<byte>>)
    requires a.phase == WaitCmd && a.buf == [] && 0 < |path| < PATH_MAX && 0 !in path
    requires forall h :: h in w.handles ==> h < w.next
    requires Concat(frames) == Request(ID_LIST, path)
    requires |path| >= 4093 || w.env.entries(w.turn, path).None?
    ensures var f := FeedAll(a, w, frames);
            && f.reply == DONE + [0, 0, 0, 0, 0, 0, 0, 0, 0, 0, 0, 0, 0, 0, 0, 0]
            && f.ret == 0 && f.afs.phase == WaitCmd && f.afs.buf == []
            && f.w.handles == w.handles && f.w.files == w.files && f.w.links == w.links
            && f.w.released == w.released + if |path| >= 4093 then multiset{} else multiset{w.next}
    ensures Unpipelined(a, w, frames)
  {
    hide FeedAll;
    hide Unpipelined;
    hide Command;
    hide LE32;
    ListIsRefused(w, path);
    RequestInFrames(a, w, ID_LIST, path, frames);
    assert w.handles[w.next := Block] - {w.next} == w.handles;
  }

  lemma ListIsRefused(w: World, path: Path)
    requires |path| >= 4093 || w.env.entries(w.turn, path).None?
    ensures Settle(Command(Afs(WaitCmdData, ID_LIST, |path|, []), w, [], path, 0))
         == Outcome(Idle(ID_LIST, |path|), if |path| >= 4093 then w else Drop(Tick(Acquire(w, Block)), w.next), [],
                    DONE + [0, 0, 0, 0, 0, 0, 0, 0, 0, 0, 0, 0, 0, 0, 0, 0], 0)
  {
    hide DentMsg;
    LastDent();
  }

  lemma LastDent()
    ensures DentMsg(ID_DONE, NO_META, []) == DONE + [0, 0, 0, 0, 0, 0, 0, 0, 0, 0, 0, 0, 0, 0, 0, 0]
  {
    IdsAreLetters();
    assert LE32(0) == [0, 0, 0, 0];
    hide LE32;
  }

  // ---------- upload ----------

  /** However the request is cut into frames: SEND removes what is at the path and asks for its parents. If the
      path is not absolute, a parent is refused, or the file does not open, the answer is FAIL with the system's
      reason and nothing is held; otherwise nothing is answered yet and the file, or the path of the link, is
      held. */
  lemma UploadBegins(a: Afs, w: World, name: Path, frames: seq<seq<byte>>)
    requires a.phase == WaitCmd && a.buf == [] && 0 < |name| < PATH_MAX && 0 !in name
    requires Concat(frames) == Request(ID_SEND, name)
    ensures var f, path := FeedAll(a, w, frames), SendPath(name);
            var (w1, ok) := Parents(Unlink(w, path), path);
            var open := ok && (IsLink(w.env, name) || !w1.env.fails(w1.turn));
            && f.ret == 0 && f.afs.buf == []
            && (if !open then
                  && f.reply == Failure(w.env.reason(if ok then w1.turn + 1 else w1.turn))
                  && f.afs.phase == WaitCmd && f.w.handles == w.handles && f.w.files == w1.files
                else
                  && f.reply == []
                  && f.afs.phase == (if IsLink(w.env, name) then SendSymHdr(w.next, path) else SendFileHdr(w.next))
                  && f.w.handles == w.handles[w.next := if IsLink(w.env, name) then Block else Writer(path)]
                  && f.w.files == if IsLink(w.env, name) then w1.files else w1.files[path := []])
            && f.w.released == w.released && f.w.links == w1.links && f.w.asked == w1.asked
    ensures Unpipelined(a, w, frames)
  {
    hide FeedAll;
    hide Unpipelined;
    hide Command;
    hide Parents;
    hide FailMsg;
    hide LE32;
    hide Unlink;
    SendOutcome(w, name);
    UnlinkKeeps(w, SendPath(name));
    RequestInFrames(a, w, ID_SEND, name, frames);
  }

  lemma UnlinkKeeps(w: World, path: Path)
    ensures var w0 := Unlink(w, path);
            var w1 := Parents(w0, path).0;
            && w1.env == w.env && w1.handles == w.handles && w1.released == w.released && w1.next == w.next
            && w1.files == w0.files && w1.links == w0.links
  {
    ParentsOnlyAsk(Unlink(w, path), path, 1);
  }

  /** What becomes of the SEND of a name. */
  lemma SendOutcome(w: World, name: Path)
    requires |name| < PATH_MAX
    ensures var path, b := SendPath(name), Idle(ID_SEND, |name|);
            var (w1, ok) := Parents(Unlink(w, path), path);
            Settle(Command(Afs(WaitCmdData, ID_SEND, |name|, []), w, [], name, 0)) ==
            if !ok then Outcome(b, w1, [], Failure(w1.env.reason(w1.turn)), 0)
            else if IsLink(w.env, name) then
              Outcome(b.(phase := SendSymHdr(w1.next, path)), Acquire(w1, Block), [], [], 1)
            else if w1.env.fails(w1.turn) then
              Outcome(b, Tick(w1), [], Failure(w1.env.reason(w1.turn + 1)), 0)
            else
              Outcome(b.(phase := SendFileHdr(w1.next)),
                      Acquire(Tick(w1).(files := w1.files[path := []]), Writer(path)), [], [], 1)
  {
    hide FailMsg;
    hide Parents;
    hide Unlink;
    hide LE32;
    var path := SendPath(name);
    var w1 := Parents(Unlink(w, path), path).0;
    FailureIs(w1.env.reason(w1.turn));
    FailureIs(w1.env.reason(w1.turn + 1));
  }

  const BAD_DATA: seq<byte> :=
    [105, 110, 118, 97, 108, 105, 100, 32, 100, 97, 116, 97, 32, 109, 101, 115, 115, 97, 103, 101]

  /** Between the blocks of an upload anything but DATA and DONE is answered by FAIL and ends the upload. */
  lemma InvalidMessage(a: Afs, w: World, h: nat, id: nat, n: nat, frames: seq<seq<byte>>)
    requires (a.phase == SendFileHdr(h) || (a.phase.SendSymHdr? && a.phase.mem == h)) && a.buf == []
    requires id < WORD && n < WORD && LE32(id) != DATA && LE32(id) != DONE
    requires Concat(frames) == LE32(id) + LE32(n)
    ensures var f := FeedAll(a, w, frames);
            && f.reply == Failure(BAD_DATA) && f.ret == 0 && f.afs.phase == WaitCmd && f.afs.buf == []
            && f.w == w.(handles := w.handles - {h}, released := w.released + multiset{h})
    ensures Unpipelined(a, w, frames)
  {
    hide FeedAll;
    hide Unpipelined;
    hide Step;
    hide Yields;
    hide LE32;
    InvalidHeader(a, w, h, id, n);
    var input := LE32(id) + LE32(n);
    YieldsLast(a, w, input);
    var o := Step(a, w, input, 0);
    YieldedFrames(a, w, frames, Fed(o.afs, o.w, o.reply, 0));
  }

  lemma InvalidHeader(a: Afs, w: World, h: nat, id: nat, n: nat)
    requires (a.phase == SendFileHdr(h) || (a.phase.SendSymHdr? && a.phase.mem == h)) && a.buf == []
    requires id < WORD && n < WORD && LE32(id) != DATA && LE32(id) != DONE
    ensures Step(a, w, LE32(id) + LE32(n), 0) == Outcome(Idle(a.cmd, a.namelen), Drop(w, h), [], Failure(BAD_DATA), 0)
  {
    hide LE32;
    hide Word;
    hide FailMsg;
    hide Ascii;
    hide DataMsg;
    IdsAreLetters();
    BadDataText();
    FailureIs(BAD_DATA);
    HeaderWhole(id, n, []);
    var input := LE32(id) + LE32(n);
    assert input + [] == input;
  }

  lemma BadDataText()
    ensures Ascii("invalid data message") == BAD_DATA
  {
  }

  // ---------- requests that end the service ----------

  /** QUIT, an argument too long for the buffer, and an unknown command end the service without an answer. */
  lemma BadHeader(a: Afs, w: World, id: nat, n: nat, frames: seq<seq<byte>>)
    requires a.phase == WaitCmd && a.buf == [] && id < WORD && n < WORD
    requires LE32(id) == [81, 85, 73, 84] || n >= 4096
    requires Concat(frames) == LE32(id) + LE32(n)
    ensures var f := FeedAll(a, w, frames); f.ret < 0 && f.reply == [] && f.w == w
  {
    hide FeedAll;
    hide Unpipelined;
    hide Step;
    hide LE32;
    hide Yields;
    BadHeaderStep(a, w, id, n);
    var input := LE32(id) + LE32(n);
    var o := Step(a, w, input, 0);
    YieldsFailure(a, w, input);
    YieldedFrames(a, w, frames, Fed(o.afs, o.w, o.reply, o.ret));
  }

  lemma BadHeaderStep(a: Afs, w: World, id: nat, n: nat)
    requires a.phase == WaitCmd && a.buf == [] && id < WORD && n < WORD
    requires LE32(id) == [81, 85, 73, 84] || n >= 4096
    ensures Step(a, w, LE32(id) + LE32(n), 0) == Outcome(Idle(a.cmd, a.namelen), w, [], [], -1)
  {
    hide LE32;
    hide Word;
    IdsAreLetters();
    HeaderWhole(id, n, []);
    var input := LE32(id) + LE32(n);
    assert input + [] == input;
    WordOfLE32(id);
    WordOfLE32(ID_QUIT);
  }

  lemma UnknownCommand(a: Afs, w: World, id: nat, name: Path, frames: seq<seq<byte>>)
    requires a.phase == WaitCmd && a.buf == [] && id < WORD && 0 < |name| < PATH_MAX && 0 !in name
    requires LE32(id) !in {STAT, [76, 73, 83, 84], [83, 69, 78, 68], [82, 69, 67, 86], [81, 85, 73, 84]}
    requires Concat(frames) == Request(id, name)
    ensures var f := FeedAll(a, w, frames); f.ret < 0 && f.reply == [] && f.w == w
  {
    hide FeedAll;
    hide Unpipelined;
    hide Yields;
    hide Step;
    hide LE32;
    hide Request;
    var b := Afs(WaitCmdData, id, |name|, []);
    UnknownSteps(a, w, id, name);
    YieldsFailure(b, w, name);
    var f := Fed(Step(b, w, name, 0).afs, w, [], -1);
    YieldsStep(a, w, Request(id, name), f);
    YieldedFrames(a, w, frames, f);
  }

  lemma UnknownSteps(a: Afs, w: World, id: nat, name: Path)
    requires a.phase == WaitCmd && a.buf == [] && id < WORD && 0 < |name| < PATH_MAX && 0 !in name
    requires LE32(id) !in {STAT, [76, 73, 83, 84], [83, 69, 78, 68], [82, 69, 67, 86], [81, 85, 73, 84]}
    ensures var b := Afs(WaitCmdData, id, |name|, []);
            && Step(a, w, Request(id, name), 0) == Outcome(b, w, name, [], 1)
            && Step(b, w, name, 0) == Outcome(Idle(id, |name|), w, [], [], -1)
            && Request(id, name) != []
  {
    hide LE32;
    IdsAreLetters();
    RequestStep(a, w, id, name, [], 0);
    NameStep(w, id, name, [], 0);
    assert Request(id, name) + [] == Request(id, name) && name + [] == name;
    hide Step;
  }

  // ---------- acknowledgements ----------

  /** An acknowledgement that no stream waits for: it ends an upload between two blocks without an answer, it is
      ignored by an idle service, and it is an error in a name, a block or a target. */
  lemma AckOutsideStreams(a: Afs, w: World)
    requires Ready(a) && !Streaming(a.phase)
    ensures var f := Ack(a, w);
            && f.reply == [] && f.afs.phase == WaitCmd && f.w.files == w.files && f.w.links == w.links
            && (f.ret < 0 <==> a.phase.WaitCmdData? || a.phase.SendFileData? || a.phase.SendSymData?)
            && (a.phase.WaitCmd? ==> f.w == w)
            && (a.phase.SendFileHdr? ==> f.w.handles == w.handles - {a.phase.fd})
            && (a.phase.SendSymHdr? ==> f.w.handles == w.handles - {a.phase.mem})
  {
  }
}
