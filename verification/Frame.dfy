/** The 24-byte ADB frame header, its checks and the checksum loops (adb_frame.c, send_frame). */
module Frame {
  import opened Bytes

  /** PAYLOAD_SIZE and CNXN_PAYLOAD_SIZE are build options: every proof holds for any value in these ranges. */
  type PayloadLimit = n: nat | 20 <= n < 0x8000_0000 witness 1024

  const PAYLOAD_SIZE: PayloadLimit
  const CNXN_PAYLOAD_SIZE: PayloadLimit

  const HEADER_SIZE: nat := 24

  const A_CNXN: u32 := 0x4e584e43
  const A_OPEN: u32 := 0x4e45504f
  const A_OKAY: u32 := 0x59414b4f
  const A_CLSE: u32 := 0x45534c43
  const A_WRTE: u32 := 0x45545257
  const A_VERSION: u32 := 0x01000000

  /** The fields of `amessage`. */
  datatype Message = Message(command: nat, arg0: nat, arg1: nat, dataLength: nat, dataCheck: nat, magic: nat)

  /** What a peer sees of a frame once it has been taken off the wire. */
  datatype Frame = Frame(command: nat, arg0: nat, arg1: nat, payload: seq<byte>)

  /** `command ^ 0xffffffff`: on 32 bits the complement is a subtraction. */
  function Magic(command: nat): u32 {
    0xffff_ffff - command % WORD
  }

  function HeaderBytes(m: Message): (r: seq<byte>)
    ensures |r| == HEADER_SIZE
  {
    LE32(m.command) + LE32(m.arg0) + LE32(m.arg1) + LE32(m.dataLength) + LE32(m.dataCheck) + LE32(m.magic)
  }

  function ParseHeader(s: seq<byte>): Message
    requires |s| >= HEADER_SIZE
  {
    Message(Word(s[0..4]), Word(s[4..8]), Word(s[8..12]), Word(s[12..16]), Word(s[16..20]), Word(s[20..24]))
  }

  /** The header `send_frame` completes: magic and checksum of the first `dataLength` bytes. */
  function Seal(m: Message, payload: seq<byte>): Message {
    m.(magic := Magic(m.command), dataCheck := Sum(payload) % WORD)
  }

  /** The bytes of a frame as `send_frame` offers them to the transport. */
  function Encode(f: Frame): seq<byte> {
    HeaderBytes(Seal(Message(f.command, f.arg0, f.arg1, |f.payload|, 0, 0), f.payload)) + f.payload
  }

  /** The payload limit in force, chosen by whether the client is connected. */
  function Limit(connected: bool): nat {
    if connected then PAYLOAD_SIZE else CNXN_PAYLOAD_SIZE
  }

  /** adb_check_frame_header / adb_check_auth_frame_header. */
  predicate HeaderOk(connected: bool, m: Message) {
    m.magic == Magic(m.command) && m.dataLength <= Limit(connected)
  }

  /** adb_check_frame_data. */
  predicate DataOk(m: Message, payload: seq<byte>) {
    Sum(payload) % WORD == m.dataCheck
  }

  predicate Sendable(connected: bool, f: Frame) {
    f.command < WORD && f.arg0 < WORD && f.arg1 < WORD && |f.payload| <= Limit(connected)
  }

  lemma SixWords(a: seq<byte>, b: seq<byte>, c: seq<byte>, d: seq<byte>, e: seq<byte>, f: seq<byte>, rest: seq<byte>)
    requires |a| == |b| == |c| == |d| == |e| == |f| == 4
    ensures var s := a + b + c + d + e + f + rest;
            s[0..4] == a && s[4..8] == b && s[8..12] == c && s[12..16] == d && s[16..20] == e && s[20..24] == f
  {
  }

  lemma HeaderRoundTrip(m: Message, rest: seq<byte>)
    requires m.command < WORD && m.arg0 < WORD && m.arg1 < WORD
    requires m.dataLength < WORD && m.dataCheck < WORD && m.magic < WORD
    ensures ParseHeader(HeaderBytes(m) + rest) == m
  {
    hide LE32;
    hide Word;
    SixWords(LE32(m.command), LE32(m.arg0), LE32(m.arg1), LE32(m.dataLength), LE32(m.dataCheck), LE32(m.magic), rest);
    WordOfLE32(m.command);
    WordOfLE32(m.arg0);
    WordOfLE32(m.arg1);
    WordOfLE32(m.dataLength);
    WordOfLE32(m.dataCheck);
    WordOfLE32(m.magic);
  }

  lemma ParsedHeaderBytes(s: seq<byte>)
    requires |s| >= HEADER_SIZE
    ensures HeaderBytes(ParseHeader(s)) == s[..HEADER_SIZE]
  {
    LE32OfWord(s[0..4]);
    LE32OfWord(s[4..8]);
    LE32OfWord(s[8..12]);
    LE32OfWord(s[12..16]);
    LE32OfWord(s[16..20]);
    LE32OfWord(s[20..24]);
    assert s[..24] == s[0..4] + s[4..8] + s[8..12] + s[12..16] + s[16..20] + s[20..24];
  }

  /** The commands are four letters in the order in which they are sent. */
  lemma CommandsAreLetters()
    ensures LE32(A_CNXN) == [67, 78, 88, 78] && LE32(A_OPEN) == [79, 80, 69, 78] && LE32(A_OKAY) == [79, 75, 65, 89]
    ensures LE32(A_CLSE) == [67, 76, 83, 69] && LE32(A_WRTE) == [87, 82, 84, 69]
  {
  }

  /** The bytes of a frame: command, the two arguments, length, byte sum, the complement of each byte of the
      command, payload. */
  lemma FrameLayout(f: Frame)
    requires f.command < WORD
    ensures var r, c: seq<int> := Encode(f), LE32(f.command);
            && r[..4] == LE32(f.command) && r[4..8] == LE32(f.arg0) && r[8..12] == LE32(f.arg1)
            && r[12..16] == LE32(|f.payload|) && r[16..20] == LE32(Sum(f.payload) % WORD)
            && r[20..24] == [255 - c[0], 255 - c[1], 255 - c[2], 255 - c[3]]
            && r[24..] == f.payload
  {
    hide LE32;
    Complement(f.command);
    assert f.command % WORD == f.command;
    var m := Seal(Message(f.command, f.arg0, f.arg1, |f.payload|, 0, 0), f.payload);
    SixWords(LE32(m.command), LE32(m.arg0), LE32(m.arg1), LE32(m.dataLength), LE32(m.dataCheck), LE32(m.magic),
             f.payload);
  }

  /** Every frame within the limit passes all three tests of the receiver and comes back unchanged. */
  lemma EncodedFrameIsAccepted(connected: bool, f: Frame, rest: seq<byte>)
    requires Sendable(connected, f)
    ensures var s := Encode(f) + rest;
            var m := ParseHeader(s);
            && HeaderOk(connected, m)
            && |s| >= HEADER_SIZE + m.dataLength
            && s[HEADER_SIZE..HEADER_SIZE + m.dataLength] == f.payload
            && s[HEADER_SIZE + m.dataLength..] == rest
            && DataOk(m, f.payload)
            && m.dataLength == |f.payload|
            && f == Frame(m.command, m.arg0, m.arg1, f.payload)
  {
    var m := Seal(Message(f.command, f.arg0, f.arg1, |f.payload|, 0, 0), f.payload);
    var s := Encode(f) + rest;
    assert s == HeaderBytes(m) + (f.payload + rest);
    HeaderRoundTrip(m, f.payload + rest);
    assert s[HEADER_SIZE..] == f.payload + rest;
  }

  /** Conversely, bytes that pass the tests are exactly the encoding of the frame that is delivered. */
  lemma AcceptedBytesAreAnEncoding(connected: bool, s: seq<byte>)
    requires |s| >= HEADER_SIZE
    requires HeaderOk(connected, ParseHeader(s)) && |s| == HEADER_SIZE + ParseHeader(s).dataLength
    requires DataOk(ParseHeader(s), s[HEADER_SIZE..])
    ensures var m := ParseHeader(s); s == Encode(Frame(m.command, m.arg0, m.arg1, s[HEADER_SIZE..]))
  {
    ParsedHeaderBytes(s);
    assert s == s[..HEADER_SIZE] + s[HEADER_SIZE..];
  }

  /** The checksum loop of adb_check_frame_data and send_frame: `unsigned` addition wraps at 2^32. */
  method Checksum(data: seq<byte>, dataLength: nat) returns (sum: u32)
    requires dataLength <= |data|
    ensures sum == Sum(data[..dataLength]) % WORD
  {
    var count, x := dataLength, 0;
    sum := 0;
    while count > 0
      invariant x + count == dataLength
      invariant sum == Sum(data[..x]) % WORD
    {
      assert data[..x + 1][..x] == data[..x];
      sum := (sum + data[x]) % WORD;
      count, x := count - 1, x + 1;
    }
    assert data[..x] == data[..dataLength];
  }

  /** adb_check_frame_data. */
  method CheckFrameData(m: Message, data: seq<byte>) returns (ok: bool)
    requires m.dataLength <= |data|
    ensures ok <==> DataOk(m, data[..m.dataLength])
  {
    var sum := Checksum(data, m.dataLength);
    ok := sum == m.dataCheck;
  }
}
