/** The operating system as the file sync service sees it: files, open handles, and an arbitrary
    environment that decides which calls fail and how short reads are. */
module SyncWorld {
  import opened Bytes

  /** Paths and names are C strings without their terminator. */
  type Path = seq<byte>

  datatype Meta = Meta(mode: nat, size: nat, time: nat)

  datatype Made = Created | Exists | Refused

  /** Each call is decided by its turn: the number of calls, and bytes written, before it.
      `fails` decides open, read, unlink, symlink and each written byte; `isLink` and `symlinks` are
      S_ISLNK of the mode text of a SEND and whether the build supports symlinks. */
  datatype Env = Env(fails: nat -> bool, short: nat -> nat,
                     stat: (nat, Path) -> Option<Meta>, lstat: (nat, Path) -> Option<Meta>,
                     entries: (nat, Path) -> Option<seq<Path>>, made: nat -> Made, reason: nat -> seq<byte>,
                     isLink: seq<byte> -> bool, symlinks: bool)

  /** What a resource is: a descriptor open for writing or reading, a directory stream with the
      names it has still to give, or a malloc'ed block. */
  datatype Handle = Writer(path: Path) | Reader(path: Path, pos: nat) | Directory(rest: seq<Path>) | Block

  datatype World = World(env: Env, turn: nat, files: map<Path, seq<byte>>, links: map<Path, seq<byte>>,
                         handles: map<nat, Handle>, next: nat, released: multiset<nat>, asked: seq<Path>)

  function Tick(w: World): World {
    w.(turn := w.turn + 1)
  }

  function Acquire(w: World, h: Handle): World {
    w.(handles := w.handles[w.next := h], next := w.next + 1)
  }

  /** close, closedir or free. */
  function Drop(w: World, h: nat): World {
    w.(handles := w.handles - {h}, released := w.released + multiset{h})
  }

  function OpenWrite(w: World, path: Path): (World, Option<nat>) {
    if w.env.fails(w.turn) then (Tick(w), None)
    else (Acquire(Tick(w).(files := w.files[path := []]), Writer(path)), Some(w.next))
  }

  function OpenRead(w: World, path: Path): (World, Option<nat>) {
    if w.env.fails(w.turn) || path !in w.files then (Tick(w), None)
    else (Acquire(Tick(w), Reader(path, 0)), Some(w.next))
  }

  function Contents(w: World, path: Path): seq<byte> {
    if path in w.files then w.files[path] else []
  }

  /** The loop around write(2): all bytes reach the file, or an error stops it at some byte. */
  function WriteAll(w: World, fd: nat, bytes: seq<byte>): (World, bool)
    decreases |bytes|
  {
    if bytes == [] then (w, true)
    else if w.env.fails(w.turn) then (Tick(w), false)
    else WriteAll(PutByte(w, fd, bytes[0]), fd, bytes[1..])
  }

  function PutByte(w: World, fd: nat, b: byte): World {
    if fd in w.handles && w.handles[fd].Writer? then
      var path := w.handles[fd].path;
      Tick(w).(files := w.files[path := Contents(w, path) + [b]])
    else Tick(w)
  }

  datatype Chunk = Bytes(bytes: seq<byte>) | Eof | Broken

  /** What is left to read through a descriptor. */
  function Left(w: World, fd: nat): seq<byte> {
    if fd in w.handles && w.handles[fd].Reader? && w.handles[fd].pos <= |Contents(w, w.handles[fd].path)| then
      Contents(w, w.handles[fd].path)[w.handles[fd].pos..]
    else []
  }

  /** The size of a possibly short transfer of at most n >= 1 bytes. */
  function Shortened(w: World, n: nat): nat
    requires n >= 1
  {
    var k := w.env.short(w.turn);
    if k == 0 then 1 else if k > n then n else k
  }

  /** read(2) of at most n bytes; a read of none reports the end of the file. */
  function Read(w: World, fd: nat, n: nat): (World, Chunk) {
    var left := Left(w, fd);
    if w.env.fails(w.turn) then (Tick(w), Broken)
    else if left == [] || n == 0 then (Tick(w), Eof)
    else
      var k := Shortened(w, Min(n, |left|));
      (Tick(w).(handles := w.handles[fd := w.handles[fd].(pos := w.handles[fd].pos + k)]), Bytes(left[..k]))
  }

  function Stat(w: World, path: Path): (World, Option<Meta>) {
    (Tick(w), w.env.stat(w.turn, path))
  }

  function Lstat(w: World, path: Path): (World, Option<Meta>) {
    (Tick(w), w.env.lstat(w.turn, path))
  }

  function OpenDir(w: World, path: Path): (World, Option<nat>) {
    match w.env.entries(w.turn, path)
    case None => (Tick(w), None)
    case Some(names) => (Acquire(Tick(w), Directory(names)), Some(w.next))
  }

  function Names(w: World, d: nat): seq<Path> {
    if d in w.handles && w.handles[d].Directory? then w.handles[d].rest else []
  }

  function ReadDir(w: World, d: nat): (World, Option<Path>) {
    if Names(w, d) == [] then (w, None)
    else (w.(handles := w.handles[d := Directory(Names(w, d)[1..])]), Some(Names(w, d)[0]))
  }

  function Mkdir(w: World, path: Path): (World, Made) {
    (Tick(w).(asked := w.asked + [path]), w.env.made(w.turn))
  }

  function Unlink(w: World, path: Path): World {
    if w.env.fails(w.turn) then Tick(w) else Tick(w).(files := w.files - {path}, links := w.links - {path})
  }

  function Symlink(w: World, target: seq<byte>, path: Path): (World, bool) {
    if w.env.fails(w.turn) then (Tick(w), false) else (Tick(w).(links := w.links[path := target]), true)
  }

  /** A read that does not fail takes at least one byte, and at most as many as were asked for, from the front of
      what is left; none only if nothing is left or nothing was asked for. Nothing else changes but the position. */
  lemma ReadTakesFront(w: World, fd: nat, n: nat)
    ensures var (w1, chunk) := Read(w, fd, n);
            && w1.files == w.files && w1.released == w.released && w1.handles.Keys == w.handles.Keys
            && (chunk == Broken <==> w.env.fails(w.turn))
            && (chunk == Eof <==> !w.env.fails(w.turn) && (n == 0 || Left(w, fd) == []))
            && (chunk.Bytes? ==> 0 < |chunk.bytes| <= n && Left(w, fd) == chunk.bytes + Left(w1, fd))
  {
    var left := Left(w, fd);
    var (w1, chunk) := Read(w, fd, n);
    if chunk.Bytes? {
      assert left == left[..|chunk.bytes|] + left[|chunk.bytes|..];
    }
  }

  /** Writing in two pieces is writing the whole, including where an error strikes. */
  lemma {:induction false} WriteAllAppend(w: World, fd: nat, a: seq<byte>, b: seq<byte>)
    ensures WriteAll(w, fd, a + b)
         == if WriteAll(w, fd, a).1 then WriteAll(WriteAll(w, fd, a).0, fd, b) else WriteAll(w, fd, a)
    decreases |a|
  {
    if a == [] {
      assert a + b == b;
    } else if !w.env.fails(w.turn) {
      assert (a + b)[0] == a[0] && (a + b)[1..] == a[1..] + b;
      WriteAllAppend(PutByte(w, fd, a[0]), fd, a[1..], b);
    }
  }

  /** Without an error the file has grown by exactly the bytes, and nothing else has changed. */
  lemma {:induction false} WriteAllAppends(w: World, fd: nat, bytes: seq<byte>)
    requires fd in w.handles && w.handles[fd].Writer? && w.handles[fd].path in w.files
    requires WriteAll(w, fd, bytes).1
    ensures var path := w.handles[fd].path;
            WriteAll(w, fd, bytes) ==
            (w.(turn := w.turn + |bytes|, files := w.files[path := w.files[path] + bytes]), true)
    decreases |bytes|
  {
    var path := w.handles[fd].path;
    if bytes == [] {
      assert w.files[path] + bytes == w.files[path] && w.files[path := w.files[path]] == w.files;
    } else {
      var w1 := PutByte(w, fd, bytes[0]);
      WriteAllAppends(w1, fd, bytes[1..]);
      assert w1.files[path] + bytes[1..] == w.files[path] + bytes;
      assert w1.files[path := w.files[path] + bytes] == w.files[path := w.files[path] + bytes];
    }
  }
}
