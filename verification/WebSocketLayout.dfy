/** The wire format against section 5.2 of RFC 6455: where each field of a frame lies, the examples of section 5.7, and the
    length forms that section 5.2 forbids. Then what the reference receiver reports and keeps, where an error leaves
    the parser, and that the last of its checks never fires. */
module WebSocketLayout {

  import opened Wrappers
  import opened Bytes
  import opened WebSocketFrames
  import opened WebSocketWire

  /** The first byte carries FIN, the reserved bits and the opcode, from the highest bit down; the second one the mask bit and
      the length indicator. */
  lemma HeaderLayout(f: WireFrame)
    requires Representable(f)
    ensures Wire(f)[0] == (if f.fin then 128 else 0) + 16 * (f.rsv as byte) + (f.opcode as byte)
    ensures Wire(f)[1] == (if f.mask.Some? then 128 else 0) + (LengthIndicator(|f.payload|) as byte)
    ensures LengthIndicator(|f.payload|) == if |f.payload| <= 125 then |f.payload| else if |f.payload| <= 65535 then 126 else 127
  {
    hide ExtendedLength;
    hide KeyAndPayload;
    hide FirstByte;
    hide SecondByte;
    FirstByteLayout(f);
    SecondByteLayout(f);
  }

  lemma FirstByteLayout(f: WireFrame)
    requires f.rsv < 8 && f.opcode < 16
    ensures FirstByte(f) == (if f.fin then 128 else 0) + 16 * (f.rsv as byte) + (f.opcode as byte)
  {
    var fin: byte, rsv, opcode := if f.fin then 0x80 else 0, f.rsv as byte, f.opcode as byte;
    BoundedByte(f.rsv, 8);
    BoundedByte(f.opcode, 16);
    AddBits(fin, rsv, opcode);
  }

  lemma SecondByteLayout(f: WireFrame)
    ensures SecondByte(f) == (if f.mask.Some? then 128 else 0) + (LengthIndicator(|f.payload|) as byte)
  {
    hide LengthIndicator;
    var masked: byte, indicator := if f.mask.Some? then 0x80 else 0, LengthIndicator(|f.payload|);
    BoundedByte(indicator, 128);
    AddMaskBit(masked, indicator as byte);
  }

  lemma BoundedByte(n: nat, bound: nat)
    requires n < bound <= 128
    ensures (n as byte) as nat == n && (n as byte) as nat < bound
  {
    ByteRoundTrip(n);
  }

  lemma AddBits(fin: byte, rsv: byte, opcode: byte)
    requires fin in {0, 0x80} && rsv as nat < 8 && opcode as nat < 16
    ensures fin | (rsv << 4) | opcode == fin + 16 * rsv + opcode
  {
    assert rsv < 8 && opcode < 16;
  }

  lemma AddMaskBit(masked: byte, indicator: byte)
    requires masked in {0, 0x80} && indicator as nat < 128
    ensures masked | indicator == masked + indicator
  {
    assert indicator < 128;
  }

  /** Numbers are read, and so written, with the most significant byte first. */
  lemma {:induction false} MostSignificantFirst(b: byte, rest: seq<byte>)
    ensures ReadBE([b] + rest) == b as nat * Pow256(|rest|) + ReadBE(rest)
    decreases |rest|
  {
    var number := [b] + rest;
    if rest == [] {
      assert number[..|number| - 1] == [];
    } else {
      var init := rest[..|rest| - 1];
      assert number[..|number| - 1] == [b] + init && number[|number| - 1] == rest[|rest| - 1];
      MostSignificantFirst(b, init);
      Regroup(b as nat, Pow256(|init|), ReadBE(init), rest[|rest| - 1] as nat);
    }
  }

  lemma Regroup(x: nat, p: nat, y: nat, z: nat)
    ensures (x * p + y) * 256 + z == x * (256 * p) + (y * 256 + z)
  {}

  // ----- the examples of section 5.7 -----

  const HELLO: seq<byte> := [0x48, 0x65, 0x6c, 0x6c, 0x6f]

  const KEY: seq<byte> := [0x37, 0xfa, 0x21, 0x3d]

  /** The ping and the masked pong. */
  lemma ControlExamples()
    ensures Wire(WireFrame(true, 0, 0x9, None, HELLO)) == [0x89, 0x05, 0x48, 0x65, 0x6c, 0x6c, 0x6f]
    ensures Wire(WireFrame(true, 0, 0xA, Some(KEY), HELLO)) == [0x8a, 0x85, 0x37, 0xfa, 0x21, 0x3d, 0x7f, 0x9f, 0x4d, 0x51, 0x58]
  {
    assert Mask(HELLO, KEY) == [0x7f, 0x9f, 0x4d, 0x51, 0x58];
  }

  /** The first fragment of a message. */
  lemma FragmentExample()
    ensures Wire(WireFrame(false, 0, 0x2, None, [0x48, 0x65, 0x6c])) == [0x02, 0x03, 0x48, 0x65, 0x6c]
  {}

  /** The headers of a message of 256 bytes and of one of 64 KiB. */
  lemma LongExamples(payload: seq<byte>)
    ensures |payload| == 256 ==> Wire(WireFrame(true, 0, 0x2, None, payload)) == [0x82, 0x7E, 0x01, 0x00] + payload
    ensures |payload| == 65536 ==>
              Wire(WireFrame(true, 0, 0x2, None, payload)) == [0x82, 0x7F, 0, 0, 0, 0, 0, 1, 0, 0] + payload
  {
    hide WriteBE;
    var f := WireFrame(true, 0, 0x2, None, payload);
    if |payload| == 256 {
      Short();
      assert [FirstByte(f), SecondByte(f)] + ([1, 0] + payload) == [0x82, 0x7E, 0x01, 0x00] + payload;
    }
    if |payload| == 65536 {
      Zeros();
      Long();
      assert [FirstByte(f), SecondByte(f)] + ([0, 0, 0, 0] + [0, 1, 0, 0] + payload) == [0x82, 0x7F, 0, 0, 0, 0, 0, 1, 0, 0] + payload;
    }
  }

  lemma Written(value: nat, n: nat, front: seq<byte>, last: byte)
    requires n > 0 && WriteBE(value / 256, n - 1) == front && (value % 256) as byte == last
    ensures WriteBE(value, n) == front + [last]
  {}

  lemma Nothing(value: nat)
    ensures WriteBE(value, 0) == []
  {}

  lemma Short()
    ensures WriteBE(256, 2) == [1, 0]
  {
    hide WriteBE;
    Nothing(0);
    Written(1, 1, [], 1);
    Written(256, 2, [1], 0);
  }

  lemma Zeros()
    ensures WriteBE(0, 4) == [0, 0, 0, 0]
  {
    hide WriteBE;
    Nothing(0);
    Written(0, 1, [], 0);
    Written(0, 2, [0], 0);
    Written(0, 3, [0, 0], 0);
    Written(0, 4, [0, 0, 0], 0);
  }

  lemma Long()
    ensures WriteBE(65536, 4) == [0, 1, 0, 0]
  {
    hide WriteBE;
    Nothing(0);
    Written(0, 1, [], 0);
    Written(1, 2, [0], 1);
    Written(256, 3, [0, 1], 0);
    Written(65536, 4, [0, 1, 0], 0);
  }

  // ----- forbidden length forms -----

  /** A header that announces an extended length and passes the header checks. */
  predicate Announces(c: Config, p: Parser, b0: byte, b1: byte, indicator: nat) {
    && p.state == HEADER && Keyed(p) && (b1 & 0x7f) as nat == indicator
    && HeaderError(c, ReadHeader(b0, b1), p.fragmentedOpcode.Some?).None?
  }

  lemma HeaderGoes(c: Config, p: Parser, b0: byte, b1: byte, rest: seq<byte>)
    requires Announces(c, p, b0, b1, 126) || Announces(c, p, b0, b1, 127)
    requires p.buffer == [b0, b1] + rest && rest != []
    ensures var h := ReadHeader(b0, b1);
            var state := if Announces(c, p, b0, b1, 126) then EXTENDED_LEN_16 else EXTENDED_LEN_64;
            Drain(c, p).events ==
            Drain(c, p.(fin := h.fin, rsv := h.rsv, opcode := h.opcode, masked := h.masked, buffer := rest, state := state)).events
  {
    hide HeaderError;
    assert p.buffer[2..] == rest;
  }

  /** A 16-bit length below 126 is refused before any payload is read, and a length above the limit as such. */
  lemma ForbiddenLength16(c: Config, p: Parser, b0: byte, b1: byte, length: seq<byte>, later: seq<byte>)
    requires Announces(c, p, b0, b1, 126) && |length| == 2 && p.buffer == [b0, b1] + (length + later)
    ensures ReadBE(length) < 126 ==> Drain(c, p).events == [ProtocolError(NonMinimal16)]
    ensures 126 <= ReadBE(length) && ReadBE(length) > c.maxFrameBytes ==>
              Drain(c, p).events == [Oversized(ReadBE(length), c.maxFrameBytes)]
  {
    hide HeaderError;
    HeaderGoes(c, p, b0, b1, length + later);
    hide Announces;
    var h := ReadHeader(b0, b1);
    hide ReadHeader;
    hide ReadBE;
    Length16Fails(c, p.(fin := h.fin, rsv := h.rsv, opcode := h.opcode, masked := h.masked, buffer := length + later, state := EXTENDED_LEN_16), length, later);
  }

  lemma Length16Fails(c: Config, q: Parser, length: seq<byte>, later: seq<byte>)
    requires q.state == EXTENDED_LEN_16 && Keyed(q) && |length| == 2 && q.buffer == length + later
    ensures ReadBE(length) < 126 ==> Drain(c, q).events == [ProtocolError(NonMinimal16)]
    ensures 126 <= ReadBE(length) && ReadBE(length) > c.maxFrameBytes ==>
              Drain(c, q).events == [Oversized(ReadBE(length), c.maxFrameBytes)]
  {
    hide ReadBE;
    assert q.buffer[..2] == length;
  }

  /** So is a 64-bit length with the highest bit set, or below 65536. */
  lemma ForbiddenLength64(c: Config, p: Parser, b0: byte, b1: byte, length: seq<byte>, later: seq<byte>)
    requires Announces(c, p, b0, b1, 127) && |length| == 8 && p.buffer == [b0, b1] + (length + later)
    ensures var high, n := ReadBE(length[..4]), ReadBE(length[..4]) * 0x1_0000_0000 + ReadBE(length[4..]);
            && (high >= 0x8000_0000 ==> Drain(c, p).events == [ProtocolError(MostSignificantBit)])
            && (high < 0x8000_0000 && n < 65536 ==> Drain(c, p).events == [ProtocolError(NonMinimal64)])
            && (high < 0x8000_0000 && 65536 <= n && n > c.maxFrameBytes ==> Drain(c, p).events == [Oversized(n, c.maxFrameBytes)])
  {
    hide HeaderError;
    HeaderGoes(c, p, b0, b1, length + later);
    hide Announces;
    var h := ReadHeader(b0, b1);
    hide ReadHeader;
    hide ReadBE;
    Length64Fails(c, p.(fin := h.fin, rsv := h.rsv, opcode := h.opcode, masked := h.masked, buffer := length + later, state := EXTENDED_LEN_64), length, later);
  }

  lemma Length64Fails(c: Config, q: Parser, length: seq<byte>, later: seq<byte>)
    requires q.state == EXTENDED_LEN_64 && Keyed(q) && |length| == 8 && q.buffer == length + later
    ensures var high, n := ReadBE(length[..4]), ReadBE(length[..4]) * 0x1_0000_0000 + ReadBE(length[4..]);
            && (high >= 0x8000_0000 ==> Drain(c, q).events == [ProtocolError(MostSignificantBit)])
            && (high < 0x8000_0000 && n < 65536 ==> Drain(c, q).events == [ProtocolError(NonMinimal64)])
            && (high < 0x8000_0000 && 65536 <= n && n > c.maxFrameBytes ==> Drain(c, q).events == [Oversized(n, c.maxFrameBytes)])
  {
    hide ReadBE;
    assert q.buffer[..4] == length[..4] && q.buffer[4..8] == length[4..];
  }

  // ----- the rules of the reference receiver -----

  /** Which rule a frame breaks first. */
  lemma BrokenRuleIs(c: Config, open: Option<Message>, f: WireFrame)
    requires !Admissible(c, open, f)
    ensures var e := BrokenRule(c, open, f);
            var plain := f.rsv == 0 && f.opcode != 1;
            var control := plain && f.opcode >= 8;
            var data := plain && f.opcode < 8;
            && (e == ProtocolError(RsvBitsSet) <==> f.rsv != 0)
            && (e == TextRejected <==> f.rsv == 0 && f.opcode == 1)
            && (e == ProtocolError(FragmentedControl) <==> control && !f.fin)
            && (e == ProtocolError(LongControl) <==> control && f.fin && |f.payload| > 125)
            && (e == ProtocolError(InterleavedData) <==> data && open.Some? && f.opcode != 0)
            && (e == ProtocolError(UnexpectedContinuation) <==> data && open.None? && f.opcode == 0)
            && (e == ProtocolError(Unmasked) <==>
                  || (control && f.fin && |f.payload| <= 125)
                  || (data && (open.Some? <==> f.opcode == 0)))
  {}

  /** What a receiver does with a frame: it refuses it for a rule, for its size or for the size of its message, delivers it or
      the message that it completes, or keeps it as a fragment. */
  lemma ReceiveOutcome(c: Config, open: Option<Message>, f: WireFrame)
    ensures var v := Receive(c, open, f);
            var grown := if open.Some? then open.value.received + f.payload else f.payload;
            var control := f.opcode >= 8;
            && (!Admissible(c, open, f) ==> v == Rejected(BrokenRule(c, open, f)))
            && (Admissible(c, open, f) && |f.payload| > c.maxFrameBytes ==> v == Rejected(Oversized(|f.payload|, c.maxFrameBytes)))
            && (Admissible(c, open, f) && |f.payload| <= c.maxFrameBytes ==>
                  if control then v == Accepted(open, [Frame(f.opcode, f.payload)])
                  else if |grown| > c.maxFrameBytes then v == Rejected(Oversized(|grown|, c.maxFrameBytes))
                  else var opcode := if open.Some? then open.value.opcode else f.opcode;
                       v == if f.fin then Accepted(None, [Frame(opcode, grown)]) else Accepted(Some(Message(opcode, grown)), []))
  {
    hide Admissible;
  }

  // ----- after an error -----

  /** How many bytes of the buffer a failing iteration has taken: none when a header check fails. */
  function Taken(c: Config, p: Parser): nat
    requires Keyed(p) && StepOf(c, p).Fail?
  {
    match p.state
    case HEADER =>
      if HeaderError(c, ReadHeader(p.buffer[0], p.buffer[1]), p.fragmentedOpcode.Some?).Some? then 0 else 2
    case EXTENDED_LEN_16 => 2
    case EXTENDED_LEN_64 => 8
    case MASK_KEY => 4
    case PAYLOAD => p.payloadLength
  }

  /** Where an error leaves the parser: in the state that it was in, unless it was a whole payload, and with the
      fragments so far, whose total alone counts a fragment that was refused. */
  lemma ErrorLeaves(c: Config, p: Parser)
    requires Keyed(p) && StepOf(c, p).Fail?
    ensures var q, error := StepOf(c, p).stuck, StepOf(c, p).error;
            && Taken(c, p) <= |p.buffer| && q.buffer == p.buffer[Taken(c, p)..]
            && q.state == (if p.state == PAYLOAD then HEADER else p.state)
            && q.fragmentedOpcode == p.fragmentedOpcode && q.fragmentedBuffers == p.fragmentedBuffers
            && q.fragmentedLength == (if p.state == PAYLOAD && error.Oversized? then error.size else p.fragmentedLength)
  {
    hide ReadHeader;
    hide HeaderError;
    hide Mask;
    hide ReadBE;
    if p.state == PAYLOAD {
      hide StepHeader;
      hide StepLength16;
      hide StepLength64;
      hide WithLength;
    } else {
      hide StepPayload;
    }
  }

  // ----- the header checks suffice -----

  /** Past its header a data frame continues a message exactly when one is open. */
  predicate Vetted(p: Parser) {
    p.state != HEADER && !IsControl(p.opcode) ==> (p.opcode == CONTINUATION <==> p.fragmentedOpcode.Some?)
  }

  lemma StepKeepsVetted(c: Config, p: Parser)
    requires Keyed(p) && Vetted(p)
    ensures var s := StepOf(c, p);
            && (s.Go? ==> Vetted(s.next))
            && (s.Fail? ==> Vetted(s.stuck) && s.error != ProtocolError(NestedFragment) && (p.state == PAYLOAD ==> s.error.Oversized?))
  {
    hide ReadHeader;
    hide Mask;
    hide ReadBE;
  }

  /** The check of the fragments at delivery never fires, whatever is pushed: the header checks have caught it. */
  lemma {:induction false} NestedFragmentNeverFires(c: Config, p: Parser)
    requires Keyed(p) && Vetted(p)
    ensures Vetted(Drain(c, p).parser) && ProtocolError(NestedFragment) !in Drain(c, p).events
    decreases Measure(p)
  {
    hide StepOf;
    if p.buffer != [] {
      StepKeepsVetted(c, p);
      var s := StepOf(c, p);
      if s.Go? {
        NestedFragmentNeverFires(c, s.next);
        assert ErrorFree(s.out);
      }
    }
  }

  /** So over every run of pushes from a fresh parser, errors included. */
  lemma {:induction false} NoRunFiresIt(c: Config, p: Parser, chunks: seq<seq<byte>>)
    requires Keyed(p) && Vetted(p)
    ensures Vetted(FRESH) && ProtocolError(NestedFragment) !in PushAll(c, p, chunks).events
    decreases |chunks|
  {
    hide Drain;
    if chunks != [] {
      if chunks[0] != [] { NestedFragmentNeverFires(c, Feed(p, chunks[0])); }
      NoRunFiresIt(c, Push(c, p, chunks[0]).parser, chunks[1..]);
    }
  }
}
