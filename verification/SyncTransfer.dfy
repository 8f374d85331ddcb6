/** Streams that are answered only at their end: they may be cut into frames anywhere. */
module SyncTransfer {
  import opened Bytes
  import opened SyncWorld
  import opened SyncSpec
  import opened SyncSplit

  /** No call fails. */
  ghost predicate Steady(env: Env) {
    forall t: nat :: !env.fails(t)
  }

  lemma {:induction false} WriteAllEnv(w: World, fd: nat, bytes: seq<byte>)
    ensures WriteAll(w, fd, bytes).0.env == w.env
    ensures Steady(w.env) ==> WriteAll(w, fd, bytes).1
    decreases |bytes|
  {
    if bytes != [] {
      WriteAllEnv(PutByte(w, fd, bytes[0]), fd, bytes[1..]);
    }
  }

  // ---------- streams answered only at their end ----------

  /** In a block, all of it that this frame holds can be written. */
  predicate Written(a: Afs, w: World, input: seq<byte>) {
    a.phase.SendFileData? ==> WriteAll(w, a.phase.fd, input[..Min(|input|, a.namelen)]).1
  }

  /** The first reply or failure leaves no input behind, and every block is written. */
  predicate Tame(a: Afs, w: World, input: seq<byte>)
    requires Ready(a)
    decreases Measure(a, input)
  {
    input == [] ||
    (&& Written(a, w, input)
     && var o := Step(a, w, input, 0);
        if Silent(o) then Tame(o.afs, o.w, o.rest) else o.rest == [])
  }

  /** If all of a block can be written, so can the part of it that a shorter frame holds, and then the rest. */
  lemma PartsAreWritten(a: Afs, w: World, x: seq<byte>, y: seq<byte>)
    requires a.phase.SendFileData? && Written(a, w, x + y)
    ensures Written(a, w, x) && SendFileStep(a, w, x, 0).reply == []
    ensures Written(SendFileStep(a, w, x, 0).afs, SendFileStep(a, w, x, 0).w, y)
  {
    hide FailMsg;
    var n, m := Min(|x|, a.namelen), Min(|x + y|, a.namelen);
    Pieces(x, y, n, m);
    WriteAllAppend(w, a.phase.fd, x[..n], (x + y)[n..m]);
    hide WriteAll;
    if |x| < a.namelen {
      assert m - n == Min(|y|, a.namelen - n);
    }
  }

  lemma {:induction false} TameSplit(a: Afs, w: World, x: seq<byte>, y: seq<byte>)
    requires Ready(a) && Tame(a, w, x + y) && y != []
    ensures var q := Quiet(a, w, x); Silent(q) && Tame(q.afs, q.w, y)
    decreases Measure(a, x)
  {
    if x == [] {
      assert x + y == y;
    } else {
      if a.phase.SendFileData? {
        PartsAreWritten(a, w, x, y);
      }
      HandleSplit(a, w, x, y, 0);
      TameStep(a, w, x, y);
      hide Dispatch;
      hide Written;
      var o := Step(a, w, x, 0);
      if !Partial(a, w, x) {
        TameSplit(o.afs, o.w, o.rest, y);
      }
    }
  }

  /** One step of the shorter frame. */
  lemma TameStep(a: Afs, w: World, x: seq<byte>, y: seq<byte>)
    requires Ready(a) && Tame(a, w, x + y) && x != [] && y != []
    requires if Partial(a, w, x) then Absorbed(a, w, x, y, 0)
             else Dispatch(a, w, x + y, 0) == AddRest(Dispatch(a, w, x, 0), y)
    ensures var o := Step(a, w, x, 0);
            && Silent(o)
            && (if Partial(a, w, x) then o.rest == [] && Tame(o.afs, o.w, y) else Tame(o.afs, o.w, o.rest + y))
  {
    if a.phase.SendFileData? {
      PartsAreWritten(a, w, x, y);
    }
    var o := Step(a, w, x, 0);
    if Partial(a, w, x) {
      assert Step(a, w, x + y, 0) == Step(o.afs, o.w, y, 0);
      assert Written(o.afs, o.w, y);
    } else {
      assert Step(a, w, x + y, 0) == AddRest(o, y);
    }
  }

  lemma {:induction false} TameAnswersLast(a: Afs, w: World, input: seq<byte>)
    requires Ready(a) && Tame(a, w, input)
    ensures AnswersLast(a, w, input)
    decreases Measure(a, input)
  {
    hide Step;
    hide Written;
    if input != [] {
      var o := Step(a, w, input, 0);
      if Silent(o) {
        TameAnswersLast(o.afs, o.w, o.rest);
      }
    }
  }

  /** A stream that is answered only at its end may be cut anywhere: no frame has unread input behind an
      answer, and only the last is answered. */
  lemma {:induction false} TameIsUnpipelined(a: Afs, w: World, frames: seq<seq<byte>>)
    requires Ready(a) && Tame(a, w, Concat(frames))
    ensures Unpipelined(a, w, frames)
    decreases |frames|
  {
    if frames != [] {
      hide Quiet;
      hide Tame;
      var x, y := frames[0], Concat(frames[1..]);
      if y == [] {
        assert x + y == x;
        TameAnswersLast(a, w, x);
        var f := Feed(a, w, x);
        EmptyIsTame(f.afs, f.w);
        if f.ret >= 0 && f.reply == [] {
          TameIsUnpipelined(f.afs, f.w, frames[1..]);
        }
      } else {
        TameSplit(a, w, x, y);
        FeedFinishes(a, w, x);
        hide Feed;
        TameIsUnpipelined(Feed(a, w, x).afs, Feed(a, w, x).w, frames[1..]);
      }
    }
  }

  lemma EmptyIsTame(a: Afs, w: World)
    requires Ready(a)
    ensures Tame(a, w, [])
  {
  }
}
