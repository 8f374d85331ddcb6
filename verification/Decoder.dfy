/** The one-shot decoder of a whole byte stream, the yardstick for incremental reassembly. */
module Decoder {
  import opened Bytes
  import opened Frame

  /** `More`: everything so far was accepted and `rest` starts an incomplete frame.
      `Rejected`: the frame that ends just before `rest` was refused. */
  datatype Ending = More(rest: seq<byte>) | Rejected(rest: seq<byte>)

  datatype Decoded = Decoded(frames: seq<Frame>, connected: bool, ending: Ending)

  /** Cuts a stream into frames, each against the limit in force when its turn comes. */
  function Decode(connected: bool, s: seq<byte>): Decoded
    decreases |s|
  {
    if |s| < HEADER_SIZE then Decoded([], connected, More(s))
    else
      var m := ParseHeader(s);
      var end := HEADER_SIZE + m.dataLength;
      if !HeaderOk(connected, m) then Decoded([], connected, Rejected(s[HEADER_SIZE..]))
      else if |s| < end then Decoded([], connected, More(s))
      else if !DataOk(m, s[HEADER_SIZE..end]) then Decoded([], connected, Rejected(s[end..]))
      else
        After([Frame(m.command, m.arg0, m.arg1, s[HEADER_SIZE..end])],
              Decode(connected || m.command == A_CNXN, s[end..]))
  }

  function After(fs: seq<Frame>, d: Decoded): Decoded {
    d.(frames := fs + d.frames)
  }

  /** A first frame that passes every test. */
  predicate FirstOk(connected: bool, s: seq<byte>) {
    && |s| >= HEADER_SIZE
    && HeaderOk(connected, ParseHeader(s))
    && |s| >= HEADER_SIZE + ParseHeader(s).dataLength
    && DataOk(ParseHeader(s), s[HEADER_SIZE..HEADER_SIZE + ParseHeader(s).dataLength])
  }

  lemma FirstOkAppend(connected: bool, s: seq<byte>, t: seq<byte>)
    requires FirstOk(connected, s)
    ensures FirstOk(connected, s + t) && ParseHeader(s + t) == ParseHeader(s)
    ensures var end := HEADER_SIZE + ParseHeader(s).dataLength;
            (s + t)[end..] == s[end..] + t && (s + t)[HEADER_SIZE..end] == s[HEADER_SIZE..end]
  {
    HeaderPrefix(s, t);
    var end := HEADER_SIZE + ParseHeader(s).dataLength;
    assert (s + t)[HEADER_SIZE..end] == s[HEADER_SIZE..end];
    assert (s + t)[end..] == s[end..] + t;
  }

  /** One unfolding of the decoder. */
  lemma DecodeFirst(connected: bool, s: seq<byte>)
    ensures if FirstOk(connected, s) then
              var m := ParseHeader(s);
              var end := HEADER_SIZE + m.dataLength;
              Decode(connected, s) == After([Frame(m.command, m.arg0, m.arg1, s[HEADER_SIZE..end])],
                                            Decode(connected || m.command == A_CNXN, s[end..]))
            else
              Decode(connected, s).ending.More? ==> Decode(connected, s) == Decoded([], connected, More(s))
  {
  }

  lemma AfterAll(fs: seq<Frame>, gs: seq<Frame>, d: Decoded)
    ensures After(fs, After(gs, d)) == After(fs + gs, d) && After([], d) == d
  {
    assert fs + (gs + d.frames) == fs + gs + d.frames && [] + d.frames == d.frames;
  }

  /** Decoding can stop at any point of the stream and go on from what was left. */
  lemma {:induction false} DecodeAppend(connected: bool, s: seq<byte>, t: seq<byte>)
    ensures var d := Decode(connected, s);
            d.ending.More? ==> Decode(connected, s + t) == After(d.frames, Decode(d.connected, d.ending.rest + t))
    decreases |s|
  {
    hide Decode;
    DecodeFirst(connected, s);
    if FirstOk(connected, s) {
      FirstOkAppend(connected, s, t);
      DecodeFirst(connected, s + t);
      hide FirstOk;
      hide ParseHeader;
      var m := ParseHeader(s);
      var end := HEADER_SIZE + m.dataLength;
      var c := connected || m.command == A_CNXN;
      var f := [Frame(m.command, m.arg0, m.arg1, s[HEADER_SIZE..end])];
      DecodeAppend(c, s[end..], t);
      var d := Decode(c, s[end..]);
      if d.ending.More? {
        AfterAll(f, d.frames, Decode(d.connected, d.ending.rest + t));
      }
    } else {
      AfterAll([], [], Decode(connected, s + t));
    }
  }

  lemma HeaderPrefix(s: seq<byte>, t: seq<byte>)
    requires |s| >= HEADER_SIZE
    ensures ParseHeader(s + t) == ParseHeader(s)
  {
    var u := s + t;
    assert u[0..4] == s[0..4] && u[4..8] == s[4..8] && u[8..12] == s[8..12];
    assert u[12..16] == s[12..16] && u[16..20] == s[16..20] && u[20..24] == s[20..24];
  }

  /** What remains after the accepted frames is itself an incomplete frame. */
  lemma {:induction false} RestIsIncomplete(connected: bool, s: seq<byte>)
    ensures var d := Decode(connected, s);
            d.ending.More? ==> Decode(d.connected, d.ending.rest) == Decoded([], d.connected, d.ending)
    decreases |s|
  {
    hide HeaderOk;
    hide DataOk;
    hide ParseHeader;
    if |s| >= HEADER_SIZE {
      var m := ParseHeader(s);
      var end := HEADER_SIZE + m.dataLength;
      if HeaderOk(connected, m) && |s| >= end && DataOk(m, s[HEADER_SIZE..end]) {
        RestIsIncomplete(connected || m.command == A_CNXN, s[end..]);
      }
    }
  }

  // ---------- the encoder is inverted ----------

  function EncodeAll(fs: seq<Frame>): seq<byte> {
    if fs == [] then [] else Encode(fs[0]) + EncodeAll(fs[1..])
  }

  /** Each frame fits the limit in force after the frames before it. */
  predicate AllSendable(connected: bool, fs: seq<Frame>)
    decreases |fs|
  {
    fs == [] || (Sendable(connected, fs[0]) && AllSendable(connected || fs[0].command == A_CNXN, fs[1..]))
  }

  /** Decoding the encoded frames gives back exactly these frames and leaves nothing. */
  lemma {:induction false} DecodeInvertsEncode(connected: bool, fs: seq<Frame>)
    requires AllSendable(connected, fs)
    ensures var d := Decode(connected, EncodeAll(fs)); d.frames == fs && d.ending == More([])
    decreases |fs|
  {
    hide HeaderOk;
    hide DataOk;
    hide ParseHeader;
    hide Encode;
    if fs != [] {
      var rest := EncodeAll(fs[1..]);
      EncodedFrameIsAccepted(connected, fs[0], rest);
      var s, end := Encode(fs[0]) + rest, HEADER_SIZE + |fs[0].payload|;
      assert s[end..] == rest && s[HEADER_SIZE..end] == fs[0].payload;
      DecodeInvertsEncode(connected || fs[0].command == A_CNXN, fs[1..]);
    }
  }

  /** Conversely the accepted part of any stream is the encoding of the frames it decodes to. */
  lemma {:induction false} EncodeInvertsDecode(connected: bool, s: seq<byte>)
    ensures var d := Decode(connected, s);
            d.ending.More? ==> s == EncodeAll(d.frames) + d.ending.rest && AllSendable(connected, d.frames)
    decreases |s|
  {
    hide Decode;
    hide FirstOk;
    hide ParseHeader;
    hide Encode;
    hide EncodeAll;
    hide AllSendable;
    hide Sendable;
    DecodeFirst(connected, s);
    if !FirstOk(connected, s) {
      EncodeNothing(connected);
    } else {
      FirstFrame(connected, s);
      var m := ParseHeader(s);
      var end := HEADER_SIZE + m.dataLength;
      var f := Frame(m.command, m.arg0, m.arg1, s[HEADER_SIZE..end]);
      EncodeInvertsDecode(connected || m.command == A_CNXN, s[end..]);
      EncodePrefix(f, Decode(connected || m.command == A_CNXN, s[end..]).frames);
      assert s == s[..end] + s[end..];
    }
  }

  lemma EncodePrefix(f: Frame, fs: seq<Frame>)
    ensures EncodeAll([f] + fs) == Encode(f) + EncodeAll(fs)
    ensures forall connected :: Sendable(connected, f) && AllSendable(connected || f.command == A_CNXN, fs) ==>
              AllSendable(connected, [f] + fs)
  {
    assert ([f] + fs)[1..] == fs;
  }

  lemma EncodeNothing(connected: bool)
    ensures EncodeAll([]) == [] && AllSendable(connected, [])
  {
  }

  lemma FirstFrame(connected: bool, s: seq<byte>)
    requires FirstOk(connected, s)
    ensures var m := ParseHeader(s);
            var end := HEADER_SIZE + m.dataLength;
            var f := Frame(m.command, m.arg0, m.arg1, s[HEADER_SIZE..end]);
            HEADER_SIZE <= end <= |s| && s[..end] == Encode(f) && Sendable(connected, f)
  {
    var end := HEADER_SIZE + ParseHeader(s).dataLength;
    assert HEADER_SIZE <= end <= |s|;
    assert s == s[..end] + s[end..];
    HeaderPrefix(s[..end], s[end..]);
    assert s[..end][HEADER_SIZE..] == s[HEADER_SIZE..end];
    AcceptedBytesAreAnEncoding(connected, s[..end]);
  }
}
