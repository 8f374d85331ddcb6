/** Which frames a client takes: the limit in force for each, over whole runs. */
module ClientFrames {
  import opened Bytes
  import opened Frame
  import opened Decoder
  import opened ClientSpec
  import opened ClientLedger
  import opened ClientReassembly
  import opened ClientTheorems

  /** The peer has said who it is. */
  ghost predicate Introduced(fs: seq<Frame>) {
    exists f :: f in fs && f.command == A_CNXN
  }

  lemma IntroducedMore(f: Frame, fs: seq<Frame>)
    ensures Introduced([f] + fs) <==> f.command == A_CNXN || Introduced(fs)
  {
    assert forall g :: g in [f] + fs <==> g == f || g in fs;
  }

  /** The decoder is connected exactly after a CNXN. */
  lemma {:induction false} ConnectedByFrames(connected: bool, s: seq<byte>)
    ensures var d := Decode(connected, s); d.connected <==> connected || Introduced(d.frames)
    decreases |s|
  {
    hide HeaderOk;
    hide DataOk;
    hide ParseHeader;
    hide Introduced;
    IntroducedNot();
    if |s| >= HEADER_SIZE {
      var m := ParseHeader(s);
      var end := HEADER_SIZE + m.dataLength;
      if HeaderOk(connected, m) && |s| >= end && DataOk(m, s[HEADER_SIZE..end]) {
        var c := connected || m.command == A_CNXN;
        ConnectedByFrames(c, s[end..]);
        IntroducedMore(Frame(m.command, m.arg0, m.arg1, s[HEADER_SIZE..end]), Decode(c, s[end..]).frames);
      }
    }
  }

  lemma IntroducedNot()
    ensures !Introduced([])
  {
  }

  predicate InWords(f: Frame) {
    f.command < WORD && f.arg0 < WORD && f.arg1 < WORD && |f.payload| < WORD
  }

  /** The header of a frame, complete in a prefix of its bytes. */
  lemma PrefixHeader(f: Frame, bytes: seq<byte>)
    requires InWords(f) && bytes <= Encode(f) && |bytes| >= 24
    ensures ParseHeader(bytes) == Seal(Message(f.command, f.arg0, f.arg1, |f.payload|, 0, 0), f.payload)
  {
    var m := Seal(Message(f.command, f.arg0, f.arg1, |f.payload|, 0, 0), f.payload);
    HeaderRoundTrip(m, f.payload);
    HeaderPrefix(bytes, Encode(f)[|bytes|..]);
    assert bytes + Encode(f)[|bytes|..] == Encode(f);
  }

  /** What the decoder does with the start of a frame. */
  lemma DecodeStart(connected: bool, f: Frame, bytes: seq<byte>)
    requires InWords(f) && bytes <= Encode(f)
    ensures var d := Decode(connected, bytes);
            var limit := if connected then PAYLOAD_SIZE else CNXN_PAYLOAD_SIZE;
            if |bytes| < 24 then d.frames == [] && d.ending.More?
            else if |f.payload| > limit then d.frames == [] && d.ending == Rejected(bytes[24..])
            else d.ending.More? && d.frames == if bytes == Encode(f) then [f] else []
  {
    hide ParseHeader;
    hide Encode;
    if |bytes| >= 24 {
      PrefixHeader(f, bytes);
      EncodeLayout(f);
      if bytes == Encode(f) {
        assert bytes[24..24 + |f.payload|] == f.payload && bytes[24 + |f.payload|..] == [];
      }
    }
  }

  lemma EncodeLayout(f: Frame)
    ensures |Encode(f)| == 24 + |f.payload| && Encode(f)[24..] == f.payload
  {
  }

  /** A frame whose bytes are read next, from the first on. Once its header is complete the payload may have at
      most PAYLOAD_SIZE bytes if a CNXN is among the frames delivered before it, and at most CNXN_PAYLOAD_SIZE
      otherwise. A longer one closes the client behind its header; any other is delivered when its last byte has
      been read, and until then the client takes what there is of it. */
  lemma LimitInForce(turns: seq<Turn>, more: seq<Turn>, f: Frame, bytes: seq<byte>)
    requires CanRun(Init(), turns) && CanRun(Run(Init(), turns), more)
    requires InWords(f) && bytes <= Encode(f)
    requires var s0, s1 := Run(Init(), turns), Run(Run(Init(), turns), more);
             !s0.rejected && Partial(s0) == [] && s1.rx == s0.rx + bytes
    ensures var s0, s1 := Run(Init(), turns), Run(Run(Init(), turns), more);
            var before := Delivered(s0.log);
            var limit := if exists g :: g in before && g.command == A_CNXN then PAYLOAD_SIZE else CNXN_PAYLOAD_SIZE;
            if |f.payload| > limit && |bytes| >= 24 then
              |bytes| == 24 && s1.rejected && !s1.open && Delivered(s1.log) == before
            else
              !s1.rejected && Delivered(s1.log) == before + if bytes == Encode(f) then [f] else []
  {
    hide Decode;
    hide Encode;
    var s0, s1 := Run(Init(), turns), Run(Run(Init(), turns), more);
    RunAppend(Init(), turns, more);
    hide Run;
    ReassemblyRefinesDecoding(turns);
    ReassemblyRefinesDecoding(turns + more);
    var d := Decode(false, s0.rx);
    ConnectedByFrames(false, s0.rx);
    DecodeAppend(false, s0.rx, bytes);
    assert [] + bytes == bytes;
    EncodeLayout(f);
    DecodeStart(d.connected, f, bytes);
  }

  lemma {:induction false} RunAppend(s: State, turns: seq<Turn>, more: seq<Turn>)
    requires CanRun(s, turns) && CanRun(Run(s, turns), more)
    ensures CanRun(s, turns + more) && Run(s, turns + more) == Run(Run(s, turns), more)
    decreases |turns|
  {
    hide Step;
    if turns == [] {
      assert turns + more == more;
    } else {
      var s1 := Step(s, turns[0].event, turns[0].env);
      RunAppend(s1, turns[1..], more);
      assert (turns + more)[1..] == turns[1..] + more && (turns + more)[0] == turns[0];
    }
  }
}
