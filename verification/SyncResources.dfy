/** Resources follow the phase and are released exactly once; parent directories are made in order. */
module SyncResources {
  import opened Bytes
  import opened SyncWorld
  import opened SyncSpec

  // ---------- ledger ----------

  /** Every handle ever acquired is either held or has been released, once. */
  ghost predicate Ledger(handles: map<nat, Handle>, next: nat, released: multiset<nat>) {
    && (forall h :: h in handles ==> h < next && released[h] == 0)
    && (forall h: nat {:trigger released[h]} :: h !in handles ==> released[h] == if h < next then 1 else 0)
  }

  /** What a phase holds: a descriptor open the right way, a directory with its path block, a path block. */
  ghost predicate Owns(p: Phase, handles: map<nat, Handle>) {
    match p
    case WaitCmd => handles == map[]
    case WaitCmdData => handles == map[]
    case Recv(fd) => handles.Keys == {fd} && handles[fd].Reader?
    case Listing(d, mem, _) => d != mem && handles.Keys == {d, mem} && handles[d].Directory? && handles[mem].Block?
    case SendFileHdr(fd) => handles.Keys == {fd} && handles[fd].Writer?
    case SendFileData(fd) => handles.Keys == {fd} && handles[fd].Writer?
    case SendSymHdr(mem, _) => handles.Keys == {mem} && handles[mem].Block?
    case SendSymData(mem, _) => handles.Keys == {mem} && handles[mem].Block?
  }

  ghost predicate Tidy(a: Afs, w: World) {
    Owns(a.phase, w.handles) && Ledger(w.handles, w.next, w.released)
  }

  lemma AcquireLedger(w: World, h: Handle)
    requires Ledger(w.handles, w.next, w.released)
    ensures var w1 := Acquire(w, h); Ledger(w1.handles, w1.next, w1.released)
    ensures w.next !in w.handles
  {
  }

  lemma DropLedger(w: World, h: nat)
    requires Ledger(w.handles, w.next, w.released) && h in w.handles
    ensures var w1 := Drop(w, h); Ledger(w1.handles, w1.next, w1.released)
  {
  }

  /** Dropping the one handle that is held. */
  lemma DropOne(w: World, h: nat)
    requires Ledger(w.handles, w.next, w.released) && w.handles.Keys == {h}
    ensures var w1 := Drop(w, h); w1.handles == map[] && Ledger(w1.handles, w1.next, w1.released)
  {
    DropLedger(w, h);
  }

  lemma DropTwo(w: World, d: nat, mem: nat)
    requires Ledger(w.handles, w.next, w.released) && d != mem && w.handles.Keys == {d, mem}
    ensures var w1 := Drop(Drop(w, mem), d); w1.handles == map[] && Ledger(w1.handles, w1.next, w1.released)
  {
    DropLedger(w, mem);
    DropOne(Drop(w, mem), d);
  }

  lemma ReleaseTidy(a: Afs, w: World)
    requires Tidy(a, w)
    ensures var (b, w1) := Reset(a, w); Tidy(b, w1)
  {
    hide Ledger;
    hide Drop;
    match a.phase
    case Recv(fd) => DropOne(w, fd);
    case Listing(d, mem, _) => DropTwo(w, d, mem);
    case SendFileHdr(fd) => DropOne(w, fd);
    case SendFileData(fd) => DropOne(w, fd);
    case SendSymHdr(mem, _) => DropOne(w, mem);
    case SendSymData(mem, _) => DropOne(w, mem);
    case _ =>
  }

  lemma {:induction false} WriteAllTidy(w: World, fd: nat, bytes: seq<byte>)
    ensures var w1 := WriteAll(w, fd, bytes).0;
            w1.handles == w.handles && w1.next == w.next && w1.released == w.released
    decreases |bytes|
  {
    if bytes != [] && !w.env.fails(w.turn) {
      WriteAllTidy(PutByte(w, fd, bytes[0]), fd, bytes[1..]);
    }
  }

  lemma {:induction false} ParentsTidy(w: World, path: Path, i: nat)
    ensures var w1 := MakeParents(w, path, i).0;
            w1.handles == w.handles && w1.next == w.next && w1.released == w.released
    decreases |path| - i
  {
    if i < |path| {
      ParentsTidy(if path[i] == SLASH then Mkdir(w, path[..i]).0 else w, path, i + 1);
    }
  }

  lemma ListTidy(a: Afs, w: World, rest: seq<byte>, used: nat)
    requires a.phase.Listing? && Tidy(a, w)
    ensures Tidy(ListStep(a, w, rest, used).afs, ListStep(a, w, rest, used).w)
  {
    hide DentMsg;
  }

  lemma RecvTidy(a: Afs, w: World, rest: seq<byte>, used: nat)
    requires a.phase.Recv? && Tidy(a, w)
    ensures Tidy(RecvStep(a, w, rest, used).afs, RecvStep(a, w, rest, used).w)
  {
    hide DataMsg;
    hide FailMsg;
  }

  lemma InitListTidy(a: Afs, w: World, rest: seq<byte>, path: Path, used: nat)
    requires a.phase == WaitCmdData && Tidy(a, w)
    ensures Tidy(InitList(a, w, rest, path, used).afs, InitList(a, w, rest, path, used).w)
  {
    hide DentMsg;
    hide ListStep;
    AcquireLedger(w, Block);
    var w1 := Acquire(w, Block);
    match w.env.entries(w1.turn, path)
    case None =>
      DropLedger(Tick(w1), w.next);
      assert Drop(Tick(w1), w.next).handles == map[];
    case Some(names) =>
      AcquireLedger(Tick(w1), Directory(names));
      ListTidy(a.(phase := Listing(w1.next, w.next, path)), OpenDir(w1, path).0, rest, used);
  }

  lemma InitRecvTidy(a: Afs, w: World, rest: seq<byte>, path: Path, used: nat)
    requires a.phase == WaitCmdData && Tidy(a, w)
    ensures Tidy(InitRecv(a, w, rest, path, used).afs, InitRecv(a, w, rest, path, used).w)
  {
    hide FailMsg;
    hide RecvStep;
    AcquireLedger(Tick(w), Reader(path, 0));
    var (w1, fd) := OpenRead(w, path);
    if fd.Some? {
      RecvTidy(a.(phase := Recv(fd.value)), w1, rest, used);
    }
  }

  lemma SendTargetTidy(a: Afs, w: World, rest: seq<byte>, path: Path, used: nat)
    requires a.phase == WaitCmdData && Tidy(a, w)
    ensures Tidy(InitSendLink(a, w, rest, path, used).afs, InitSendLink(a, w, rest, path, used).w)
    ensures Tidy(InitSendFile(a, w, rest, path, used).afs, InitSendFile(a, w, rest, path, used).w)
  {
    hide FailMsg;
    AcquireLedger(Tick(w), Writer(path));
    AcquireLedger(w, Block);
    hide Ledger;
  }

  lemma InitSendTidy(a: Afs, w: World, rest: seq<byte>, name: Path, used: nat)
    requires a.phase == WaitCmdData && Tidy(a, w)
    ensures Tidy(InitSend(a, w, rest, name, used).afs, InitSend(a, w, rest, name, used).w)
  {
    hide FailMsg;
    hide InitSendLink;
    hide InitSendFile;
    hide Ledger;
    var comma := LastComma(name);
    var path := if comma.Some? then name[..comma.value] else name;
    ParentsTidy(Unlink(w, path), path, 1);
    var w1 := Parents(Unlink(w, path), path).0;
    assert w1.handles == w.handles && w1.next == w.next && w1.released == w.released;
    hide Parents;
    SendTargetTidy(a, w1, rest, path, used);
  }

  lemma CommandTidy(a: Afs, w: World, rest: seq<byte>, name: Path, used: nat)
    requires a.phase == WaitCmdData && Tidy(a, w)
    ensures Tidy(Command(a, w, rest, name, used).afs, Command(a, w, rest, name, used).w)
  {
    hide InitList;
    hide InitSend;
    hide InitRecv;
    hide StatMsg;
    hide Ledger;
    InitListTidy(a, w, rest, name, used);
    InitSendTidy(a, w, rest, name, used);
    InitRecvTidy(a, w, rest, name, used);
  }

  lemma DispatchTidy(a: Afs, w: World, input: seq<byte>, used: nat)
    requires Ready(a) && Tidy(a, w)
    ensures Tidy(Dispatch(a, w, input, used).afs, Dispatch(a, w, input, used).w)
  {
    hide FailMsg;
    hide DataMsg;
    hide Ascii;
    hide Ledger;
    hide Command;
    hide WriteAll;
    match a.phase
    case WaitCmdData =>
      var g := Gather(a.buf, a.namelen, input);
      if g.Whole? {
        CommandTidy(a.(buf := []), w, g.rest, CString(g.bytes), used);
      }
    case SendFileData(fd) => WriteAllTidy(w, fd, input[..Min(|input|, a.namelen)]);
    case _ =>
  }

  lemma {:induction false} LoopTidy(a: Afs, w: World, end: nat, input: seq<byte>, reply: seq<byte>)
    requires Ready(a) && |input| <= end && Tidy(a, w)
    ensures var f := Loop(a, w, end, input, reply); Tidy(f.afs, f.w)
    decreases Measure(a, input)
  {
    hide Tidy;
    hide Dispatch;
    hide Overlay;
    if input != [] {
      DispatchTidy(a, w, input, |reply|);
      var d := Dispatch(a, w, input, |reply|);
      ReleaseTidy(d.afs, d.w);
      var o := Step(a, w, input, |reply|);
      if o.ret >= 0 {
        var all := reply + o.reply;
        LoopTidy(o.afs, o.w, end, Overlay(o.rest, end - |o.rest|, all), all);
      }
    }
  }

  lemma AckTidy(a: Afs, w: World)
    requires Ready(a) && Tidy(a, w)
    ensures Ready(Ack(a, w).afs) && Tidy(Ack(a, w).afs, Ack(a, w).w)
  {
    hide Tidy;
    hide Ledger;
    ReleaseTidy(a, w);
    if a.phase.Recv? {
      RecvTidy(a, w, [], 0);
      ReleaseTidy(RecvStep(a, w, [], 0).afs, RecvStep(a, w, [], 0).w);
    } else if a.phase.Listing? {
      ListTidy(a, w, [], 0);
      ReleaseTidy(ListStep(a, w, [], 0).afs, ListStep(a, w, [], 0).w);
    }
    hide DataMsg;
    hide DentMsg;
    hide FailMsg;
  }

  // ---------- whole lives ----------

  /** The service and the system after some events; a failed callback ends the service's input. */
  function Live(a: Afs, w: World, events: seq<HostEvent>): (f: Fed)
    requires Ready(a)
    decreases |events|
  {
    if events == [] then Fed(a, w, [], 0)
    else
      var f := React(a, w, events[0]);
      if f.ret < 0 then f else Live(f.afs, f.w, events[1..])
  }

  /** After any sequence of frames and acknowledgements the service holds exactly what its phase says, of
      the right kind, and everything else it ever acquired has been released exactly once. */
  lemma {:induction false} ResourcesFollowThePhase(a: Afs, w: World, events: seq<HostEvent>)
    requires Ready(a) && Tidy(a, w)
    ensures Tidy(Live(a, w, events).afs, Live(a, w, events).w) && Ready(Live(a, w, events).afs)
    decreases |events|
  {
    hide Tidy;
    hide Loop;
    hide Ack;
    if events != [] {
      var f := React(a, w, events[0]);
      match events[0] {
        case Piece(bytes) => LoopTidy(a, w, |bytes|, bytes, []);
        case Acked => AckTidy(a, w);
      }
      if f.ret >= 0 {
        ResourcesFollowThePhase(f.afs, f.w, events[1..]);
      }
    }
  }

  /** When the service is then closed, as it may be at any time, nothing is left open, and every resource
      acquired in its life has been released exactly once. */
  lemma ClosingReleasesAll(a: Afs, w: World, events: seq<HostEvent>)
    requires a.phase == WaitCmd && a.buf == [] && w.handles == map[] && w.next == 0 && w.released == multiset{}
    ensures var f := Live(a, w, events);
            var closed := Reset(f.afs, f.w).1;
            && closed.handles == map[]
            && forall h: nat :: closed.released[h] == if h < closed.next then 1 else 0
  {
    ResourcesFollowThePhase(a, w, events);
    var f := Live(a, w, events);
    ReleaseTidy(f.afs, f.w);
  }

  // ---------- parent directories ----------

  /** The proper ancestors of a path that end before a slash at position i or later. */
  function Ancestors(path: Path, i: nat): seq<Path>
    decreases |path| - i
  {
    if i >= |path| then []
    else (if path[i] == SLASH then [path[..i]] else []) + Ancestors(path, i + 1)
  }

  /** Exactly the prefixes that end before a slash at i or later, each parent before its children. */
  ghost predicate InOrder(path: Path, i: nat, all: seq<Path>) {
    && (forall j :: 0 <= j < |all| ==> IsAncestor(path, i, all[j]))
    && (forall j, k :: 0 <= j < k < |all| ==> |all[j]| < |all[k]|)
    && (forall n :: i <= n < |path| && path[n] == SLASH ==> path[..n] in all)
  }

  predicate IsAncestor(path: Path, i: nat, p: Path) {
    i <= |p| < |path| && p == path[..|p|] && path[|p|] == SLASH
  }

  lemma InOrderMore(path: Path, i: nat, rest: seq<Path>)
    requires i < |path| && path[i] == SLASH && InOrder(path, i + 1, rest)
    ensures InOrder(path, i, [path[..i]] + rest)
  {
    var all := [path[..i]] + rest;
    assert forall j :: 1 <= j < |all| ==> all[j] == rest[j - 1] && IsAncestor(path, i + 1, all[j]);
    forall n | i <= n < |path| && path[n] == SLASH ensures path[..n] in all {
      assert n == i ==> all[0] == path[..n];
      assert n > i ==> path[..n] in rest;
    }
  }

  lemma InOrderSame(path: Path, i: nat, rest: seq<Path>)
    requires i < |path| && path[i] != SLASH && InOrder(path, i + 1, rest)
    ensures InOrder(path, i, rest)
  {
    forall j | 0 <= j < |rest| ensures IsAncestor(path, i, rest[j]) {
      assert IsAncestor(path, i + 1, rest[j]);
    }
  }

  lemma {:induction false} AncestorsInOrder(path: Path, i: nat)
    ensures InOrder(path, i, Ancestors(path, i))
    decreases |path| - i
  {
    if i < |path| {
      AncestorsFirst(path, i);
      AncestorsInOrder(path, i + 1);
      hide Ancestors;
      hide InOrder;
      var rest := Ancestors(path, i + 1);
      if path[i] == SLASH {
        InOrderMore(path, i, rest);
      } else {
        InOrderSame(path, i, rest);
      }
    } else {
      assert Ancestors(path, i) == [];
    }
  }

  lemma AncestorsFirst(path: Path, i: nat)
    requires i < |path|
    ensures Ancestors(path, i)
         == if path[i] == SLASH then [path[..i]] + Ancestors(path, i + 1) else Ancestors(path, i + 1)
  {
  }

  /** create_path_directories asks for the ancestors in this order, goes on exactly while mkdir creates or
      finds them, and succeeds exactly when none is refused. */
  lemma {:induction false} ParentsInOrder(w: World, path: Path, i: nat)
    ensures var (w1, ok) := MakeParents(w, path, i);
            var all, k := Ancestors(path, i), |w1.asked| - |w.asked|;
            && 0 <= k <= |all| && w1.asked == w.asked + all[..k]
            && (ok ==> k == |all| && Granted(w.env, w.turn, k))
            && (!ok ==> k > 0 && Granted(w.env, w.turn, k - 1) && w.env.made(w.turn + k - 1) == Refused)
    decreases |path| - i
  {
    if i < |path| {
      hide Ancestors;
      hide MakeParents;
      AncestorsFirst(path, i);
      MakeFirst(w, path, i);
      var rest := Ancestors(path, i + 1);
      if path[i] == SLASH {
        var w1 := Mkdir(w, path[..i]).0;
        if w.env.made(w.turn) != Refused {
          ParentsInOrder(w1, path, i + 1);
          var (w2, ok) := MakeParents(w1, path, i + 1);
          AskedMore(w, path[..i], rest, w2, ok);
        } else {
          assert ([path[..i]] + rest)[..1] == [path[..i]];
        }
      } else {
        ParentsInOrder(w, path, i + 1);
      }
    }
  }

  /** For the path of a SEND: a relative one is refused and nothing is asked for; otherwise its proper ancestors but
      the root are, parents first, and it succeeds if and only if all of them exist or are created. */
  lemma ParentsOfThePath(w: World, path: Path)
    ensures var (w1, ok) := Parents(w, path);
            var all, k := Ancestors(path, 1), |w1.asked| - |w.asked|;
            if path == [] || path[0] != 47 then !ok && w1 == w
            else
              && 0 <= k <= |all| && w1.asked == w.asked + all[..k]
              && (ok <==> k == |all| && Granted(w.env, w.turn, k))
  {
    hide MakeParents;
    hide Ancestors;
    ParentsInOrder(w, path, 1);
  }

  lemma MakeFirst(w: World, path: Path, i: nat)
    requires i < |path|
    ensures MakeParents(w, path, i) ==
            if path[i] != SLASH then MakeParents(w, path, i + 1)
            else if w.env.made(w.turn) == Refused then (Mkdir(w, path[..i]).0, false)
            else MakeParents(Mkdir(w, path[..i]).0, path, i + 1)
  {
  }

  /** One directory was granted, then the others were asked for. */
  lemma AskedMore(w: World, path: Path, rest: seq<Path>, w2: World, ok: bool)
    requires w.env.made(w.turn) != Refused
    requires var w1, k := Mkdir(w, path).0, |w2.asked| - |w.asked| - 1;
             && 0 <= k <= |rest| && w2.asked == w1.asked + rest[..k]
             && (ok ==> k == |rest| && Granted(w.env, w1.turn, k))
             && (!ok ==> k > 0 && Granted(w.env, w1.turn, k - 1) && w.env.made(w1.turn + k - 1) == Refused)
    ensures var all, k := [path] + rest, |w2.asked| - |w.asked|;
            && 0 <= k <= |all| && w2.asked == w.asked + all[..k]
            && (ok ==> k == |all| && Granted(w.env, w.turn, k))
            && (!ok ==> k > 0 && Granted(w.env, w.turn, k - 1) && w.env.made(w.turn + k - 1) == Refused)
  {
    var k := |w2.asked| - |w.asked|;
    assert ([path] + rest)[..k] == [path] + rest[..k - 1];
  }

  /** The n mkdir calls from this turn on create their directory or find it. */
  ghost predicate Granted(env: Env, turn: nat, n: int) {
    forall t: nat :: turn <= t < turn + n ==> env.made(t) != Refused
  }
}
