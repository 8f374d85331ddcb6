/** Bytes, little-endian 32-bit words and the byte sum used as a frame checksum. */
module Bytes {

  type byte = x: int | 0 <= x < 0x100

  type u32 = x: int | 0 <= x < 0x1_0000_0000

  const WORD: nat := 0x1_0000_0000

  datatype Option<+T> = None | Some(value: T)

  function Min(a: int, b: int): int {
    if a < b then a else b
  }

  /** The sequence without its element i. */
  function Cut<T>(s: seq<T>, i: nat): (r: seq<T>)
    requires i < |s|
    ensures |r| == |s| - 1
  {
    s[..i] + s[i + 1..]
  }

  lemma CutLast<T>(s: seq<T>, i: nat)
    requires i < |s| - 1
    ensures var n := |s| - 1;
            Cut(s, i)[..n - 1] == Cut(s[..n], i) && Cut(s, i)[n - 1] == s[n]
  {
  }

  /** The four bytes of an `unsigned` on the wire; larger numbers are truncated to 32 bits. */
  function LE32(n: nat): (r: seq<byte>)
    ensures |r| == 4
  {
    [n % 0x100, n / 0x100 % 0x100, n / 0x1_0000 % 0x100, n / 0x100_0000 % 0x100]
  }

  function Word(s: seq<byte>): u32
    requires |s| == 4
  {
    var a: int, b: int, c: int, d: int := s[0], s[1], s[2], s[3];
    a + 0x100 * b + 0x1_0000 * c + 0x100_0000 * d
  }

  /** Splits a number at a byte boundary. */
  lemma DivStep(n: nat, d: nat)
    requires d == 0x100 || d == 0x1_0000 || d == 0x100_0000
    ensures n / d / 0x100 == n / (d * 0x100)
  {
    if d == 0x100 {
    } else if d == 0x1_0000 {
    }
  }

  lemma Digit(n: nat, q: nat, r: nat)
    requires n == 0x100 * q + r && r < 0x100
    ensures n / 0x100 == q && n % 0x100 == r
  {
  }

  lemma WordOfLE32(n: nat)
    ensures Word(LE32(n)) == n % WORD
  {
    DivStep(n, 0x100);
    DivStep(n, 0x1_0000);
    DivStep(n, 0x100_0000);
  }

  lemma LE32OfWord(s: seq<byte>)
    requires |s| == 4
    ensures LE32(Word(s)) == s
  {
    var n: nat := Word(s);
    var a: int, b: int, c: int, d: int := s[0], s[1], s[2], s[3];
    Digit(n, b + 0x100 * c + 0x1_0000 * d, a);
    Digit(n / 0x100, c + 0x100 * d, b);
    Digit(n / 0x100 / 0x100, d, c);
    DivStep(n, 0x100);
    DivStep(n, 0x1_0000);
  }

  function Sum(s: seq<byte>): nat {
    if s == [] then 0 else Sum(s[..|s| - 1]) + s[|s| - 1]
  }

  /** The byte sum is the only function of a sequence that is additive and the identity on single bytes. */
  lemma {:induction false} SumOfParts(a: seq<byte>, b: seq<byte>)
    ensures Sum(a + b) == Sum(a) + Sum(b)
    ensures forall x: byte :: Sum([x]) == x
    decreases |b|
  {
    if b == [] {
      assert a + b == a;
    } else {
      var n := |b| - 1;
      assert (a + b)[..|a| + n] == a + b[..n];
      SumOfParts(a, b[..n]);
    }
    forall x: byte ensures Sum([x]) == x {
      assert [x][..0] == [];
    }
  }

  /** The lowest byte goes first. */
  lemma LittleEndian(n: nat)
    ensures var s: seq<int> := LE32(n); s[0] + 0x100 * s[1] + 0x1_0000 * s[2] + 0x100_0000 * s[3] == n % WORD
  {
    WordOfLE32(n);
  }

  /** The bytes of a complement are the complements of the bytes. */
  lemma Complement(n: nat)
    requires n < WORD
    ensures var s: seq<int> := LE32(n); LE32(0xffff_ffff - n) == [255 - s[0], 255 - s[1], 255 - s[2], 255 - s[3]]
  {
    WordOfLE32(n);
    var s := LE32(n);
    hide LE32;
    var a: int, b: int, c: int, d: int := s[0], s[1], s[2], s[3];
    LE32OfWord([255 - a, 255 - b, 255 - c, 255 - d]);
  }
}
