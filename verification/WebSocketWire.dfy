/** Frames on the wire (section 5.2 of RFC 6455), a reference receiver, and the parser's agreement with it. */
module WebSocketWire {

  import opened Bytes
  import opened Wrappers
  import opened WebSocketFrames

  datatype WireFrame = WireFrame(fin: bool, rsv: nat, opcode: nat, mask: Option<seq<byte>>, payload: seq<byte>)

  predicate Representable(f: WireFrame) {
    && f.rsv < 8
    && f.opcode < 16
    && (f.mask.Some? ==> |f.mask.value| == 4)
    && |f.payload| < 0x8000_0000_0000_0000
  }

  // ----- the wire format -----

  function FirstByte(f: WireFrame): byte
    requires f.rsv < 8 && f.opcode < 16
  {
    (if f.fin then 0x80 else 0) | ((f.rsv as byte) << 4) | (f.opcode as byte)
  }

  function LengthIndicator(n: nat): (i: nat)
    ensures i < 128
  {
    if n > 65535 then 127 else if n > 125 then 126 else n
  }

  function SecondByte(f: WireFrame): byte {
    (if f.mask.Some? then 0x80 else 0) | (LengthIndicator(|f.payload|) as byte)
  }

  function ExtendedLength(n: nat): seq<byte> {
    if n > 65535 then WriteBE(n / 0x1_0000_0000, 4) + WriteBE(n % 0x1_0000_0000, 4)
    else if n > 125 then WriteBE(n, 2)
    else []
  }

  function KeyAndPayload(f: WireFrame): seq<byte>
    requires Representable(f)
  {
    if f.mask.Some? then f.mask.value + Mask(f.payload, f.mask.value) else f.payload
  }

  function Wire(f: WireFrame): seq<byte>
    requires Representable(f)
  {
    [FirstByte(f), SecondByte(f)] + (ExtendedLength(|f.payload|) + KeyAndPayload(f))
  }

  predicate AllRepresentable(frames: seq<WireFrame>) {
    forall f | f in frames :: Representable(f)
  }

  function WireAll(frames: seq<WireFrame>): seq<byte>
    requires AllRepresentable(frames)
  {
    if frames == [] then [] else Wire(frames[0]) + WireAll(frames[1..])
  }

  lemma HeaderIsRead(f: WireFrame)
    requires Representable(f)
    ensures ReadHeader(FirstByte(f), SecondByte(f))
         == Header(f.fin, f.rsv, f.opcode, f.mask.Some?, LengthIndicator(|f.payload|))
  {
    ByteRoundTrip(f.rsv);
    ByteRoundTrip(f.opcode);
    ByteRoundTrip(LengthIndicator(|f.payload|));
    BitFields(if f.fin then 0x80 else 0, f.rsv as byte, f.opcode as byte);
    LengthFields(if f.mask.Some? then 0x80 else 0, LengthIndicator(|f.payload|) as byte);
  }

  // ----- the reference receiver -----

  /** A fragmented message that is still incomplete. */
  datatype Message = Message(opcode: nat, received: seq<byte>)

  datatype Verdict =
    | Rejected(error: Event)
    | Accepted(open: Option<Message>, delivered: seq<Event>)

  /** The frames that a receiver of binary messages takes: no reserved bits (section 5.2), no text, control frames whole
      and at most 125 bytes long (section 5.5), continuations exactly inside a fragmented message (section 5.4), and
      the mask of a client (section 5.1). */
  predicate Admissible(c: Config, open: Option<Message>, f: WireFrame) {
    && f.rsv == 0
    && f.opcode != TEXT
    && (IsControl(f.opcode) ==> f.fin && |f.payload| <= 125)
    && (!IsControl(f.opcode) ==> (f.opcode == CONTINUATION <==> open.Some?))
    && (c.requireMask ==> f.mask.Some?)
  }

  /** The rule that a frame breaks first. */
  function BrokenRule(c: Config, open: Option<Message>, f: WireFrame): (error: Event)
    requires !Admissible(c, open, f)
    ensures !error.Frame?
  {
    if f.rsv != 0 then ProtocolError(RsvBitsSet)
    else if f.opcode == TEXT then TextRejected
    else if IsControl(f.opcode) && !(f.fin && |f.payload| <= 125) then
      ProtocolError(if f.fin then LongControl else FragmentedControl)
    else if !IsControl(f.opcode) && (f.opcode == CONTINUATION) != open.Some? then
      ProtocolError(if open.Some? then InterleavedData else UnexpectedContinuation)
    else ProtocolError(Unmasked)
  }

  /** The parser's checks of a header find what the rules say about the whole frame. */
  lemma HeaderChecksAgree(c: Config, open: Option<Message>, f: WireFrame)
    ensures HeaderError(c, Header(f.fin, f.rsv, f.opcode, f.mask.Some?, LengthIndicator(|f.payload|)), open.Some?)
         == if Admissible(c, open, f) then None else Some(BrokenRule(c, open, f))
  {}

  /** What a receiver makes of one whole frame. */
  function Receive(c: Config, open: Option<Message>, f: WireFrame): Verdict {
    if !Admissible(c, open, f) then Rejected(BrokenRule(c, open, f))
    else if |f.payload| > c.maxFrameBytes then Rejected(Oversized(|f.payload|, c.maxFrameBytes))
    else if IsControl(f.opcode) then Accepted(open, [Frame(f.opcode, f.payload)])
    else if open.Some? then
      var received := open.value.received + f.payload;
      if |received| > c.maxFrameBytes then Rejected(Oversized(|received|, c.maxFrameBytes))
      else if f.fin then Accepted(None, [Frame(open.value.opcode, received)])
      else Accepted(Some(Message(open.value.opcode, received)), [])
    else if f.fin then Accepted(None, [Frame(f.opcode, f.payload)])
    else Accepted(Some(Message(f.opcode, f.payload)), [])
  }

  /** The callbacks for a list of frames, up to and including the first error. */
  function ReceiveAll(c: Config, open: Option<Message>, frames: seq<WireFrame>): seq<Event>
    decreases |frames|
  {
    if frames == [] then []
    else
      match Receive(c, open, frames[0])
      case Rejected(error) => [error]
      case Accepted(next, delivered) => delivered + ReceiveAll(c, next, frames[1..])
  }

  /** The message left open by a list of frames that raises no error. */
  function OpenAfter(c: Config, open: Option<Message>, frames: seq<WireFrame>): Option<Message>
    decreases |frames|
  {
    if frames == [] then open
    else
      match Receive(c, open, frames[0])
      case Rejected(error) => open
      case Accepted(next, delivered) => OpenAfter(c, next, frames[1..])
  }

  // ----- the parser agrees with the reference receiver -----

  /** The parser is between two frames and has buffered the fragments of the open message. */
  predicate Between(p: Parser, open: Option<Message>) {
    && p.state == HEADER
    && p.maskKey.None?
    && p.fragmentedLength == TotalLength(p.fragmentedBuffers)
    && match open
       case None => p.fragmentedOpcode.None?
       case Some(m) => p.fragmentedOpcode == Some(m.opcode) && Flatten(p.fragmentedBuffers) == m.received
  }

  /** The parser after the header and the length of a frame. */
  function Sized(p: Parser, f: WireFrame, rest: seq<byte>): Parser {
    p.(state := if f.mask.Some? then MASK_KEY else PAYLOAD, buffer := rest, fin := f.fin, rsv := f.rsv,
       opcode := f.opcode, masked := f.mask.Some?, payloadLength := |f.payload|)
  }

  lemma {:induction false} FlattenAppend<T>(parts: seq<seq<T>>, part: seq<T>)
    ensures Flatten(parts + [part]) == Flatten(parts) + part
  {
    if parts == [] {
      assert parts + [part] == [part];
      assert Flatten([part]) == part + Flatten([]);
    } else {
      assert (parts + [part])[1..] == parts[1..] + [part];
      FlattenAppend(parts[1..], part);
    }
  }

  lemma {:induction false} FlattenLength(parts: seq<seq<byte>>)
    ensures |Flatten(parts)| == TotalLength(parts)
  {
    if parts != [] { FlattenLength(parts[1..]); }
  }

  /** The length field is read back in all three forms. */
  lemma LengthIsParsed(c: Config, p: Parser, f: WireFrame, rest: seq<byte>)
    requires Representable(f) && p.state == HEADER && Keyed(p)
    requires p.buffer == [FirstByte(f), SecondByte(f)] + (ExtendedLength(|f.payload|) + rest)
    requires HeaderError(c, ReadHeader(FirstByte(f), SecondByte(f)), p.fragmentedOpcode.Some?).None?
    ensures Drain(c, p).events ==
            if |f.payload| > c.maxFrameBytes then [Oversized(|f.payload|, c.maxFrameBytes)]
            else Drain(c, Sized(p, f, rest)).events
  {
    hide ReadHeader;
    hide HeaderError;
    HeaderIsRead(f);
    var n, ext := |f.payload|, ExtendedLength(|f.payload|) + rest;
    assert p.buffer[2..] == ext;
    var read := p.(fin := f.fin, rsv := f.rsv, opcode := f.opcode, masked := f.mask.Some?, buffer := ext);
    if n > 65535 {
      Length64IsParsed(c, read.(state := EXTENDED_LEN_64), n, rest);
    } else if n > 125 {
      Length16IsParsed(c, read.(state := EXTENDED_LEN_16), n, rest);
    } else {
      assert ext == rest;
    }
  }

  lemma Length16IsParsed(c: Config, p: Parser, n: nat, rest: seq<byte>)
    requires 125 < n <= 65535 && p.state == EXTENDED_LEN_16 && Keyed(p)
    requires p.buffer == ExtendedLength(n) + rest
    ensures Drain(c, p).events ==
            if n > c.maxFrameBytes then [Oversized(n, c.maxFrameBytes)]
            else Drain(c, p.(state := if p.masked then MASK_KEY else PAYLOAD, buffer := rest, payloadLength := n)).events
  {
    assert Pow256(2) == 65536;
    ReadWritten(n, 2);
    assert p.buffer[..2] == WriteBE(n, 2) && p.buffer[2..] == rest;
  }

  lemma FourBytes()
    ensures Pow256(4) == 0x1_0000_0000
  {
    assert Pow256(2) == 0x1_0000;
  }

  lemma Length64IsParsed(c: Config, p: Parser, n: nat, rest: seq<byte>)
    requires 65535 < n < 0x8000_0000_0000_0000 && p.state == EXTENDED_LEN_64 && Keyed(p)
    requires p.buffer == ExtendedLength(n) + rest
    ensures Drain(c, p).events ==
            if n > c.maxFrameBytes then [Oversized(n, c.maxFrameBytes)]
            else Drain(c, p.(state := if p.masked then MASK_KEY else PAYLOAD, buffer := rest, payloadLength := n)).events
  {
    hide StepLength64;
    Length64IsRead(c, p, n, rest);
    assert StepOf(c, p) == StepLength64(c, p);
  }

  lemma Length64IsRead(c: Config, p: Parser, n: nat, rest: seq<byte>)
    requires 65535 < n < 0x8000_0000_0000_0000 && p.state == EXTENDED_LEN_64
    requires p.buffer == ExtendedLength(n) + rest
    ensures |p.buffer| >= 8 && StepLength64(c, p) == WithLength(c, p.(buffer := rest), n)
  {
    hide ReadBE;
    hide WriteBE;
    hide WithLength;
    var high, low := n / 0x1_0000_0000, n % 0x1_0000_0000;
    FourBytes();
    ReadWritten(high, 4);
    ReadWritten(low, 4);
    assert p.buffer[..4] == WriteBE(high, 4) && p.buffer[4..8] == WriteBE(low, 4) && p.buffer[8..] == rest;
  }

  /** The parser state from which a complete payload is delivered. */
  function Reset(p: Parser, f: WireFrame, t: seq<byte>): Parser {
    p.(state := HEADER, buffer := t, fin := f.fin, rsv := f.rsv, opcode := f.opcode, masked := f.mask.Some?,
       payloadLength := 0, maskKey := None)
  }

  /** The callbacks made by an iteration and by the rest of the drain loop. */
  function Onwards(c: Config, s: Step): seq<Event>
    requires s.Go? ==> Keyed(s.next)
  {
    match s
    case Wait => []
    case Fail(_, error) => [error]
    case Go(next, out) => out + Drain(c, next).events
  }

  lemma DeliverKeepsKey(c: Config, p: Parser, f: WireFrame)
    ensures var s := Deliver(c, p, f.fin, f.opcode, f.payload);
            s.Go? ==> s.next.maskKey == p.maskKey
  {}

  lemma PayloadIsParsed(c: Config, p: Parser, f: WireFrame, t: seq<byte>)
    requires Representable(f) && p.state == HEADER && p.maskKey.None?
    requires f.payload != [] || t != []
    requires var s := Deliver(c, Reset(p, f, t), f.fin, f.opcode, f.payload); s.Go? ==> s.next.maskKey.None?
    ensures Drain(c, Sized(p, f, KeyAndPayload(f) + t)).events ==
            Onwards(c, Deliver(c, Reset(p, f, t), f.fin, f.opcode, f.payload))
  {
    hide Deliver;
    var sized := Sized(p, f, KeyAndPayload(f) + t);
    if f.mask.Some? {
      var key, masked := f.mask.value, Mask(f.payload, f.mask.value);
      assert sized.buffer[..4] == key && sized.buffer[4..] == masked + t;
      var keyed := sized.(state := PAYLOAD, maskKey := Some(key), buffer := masked + t);
      assert StepOf(c, sized) == Go(keyed, []);
      assert keyed.buffer[..|f.payload|] == masked && keyed.buffer[|f.payload|..] == t;
      MaskTwice(f.payload, key);
      assert StepOf(c, keyed) == Deliver(c, Reset(p, f, t), f.fin, f.opcode, f.payload);
      assert Drain(c, sized).events == [] + Drain(c, keyed).events;
    } else {
      assert sized.buffer[..|f.payload|] == f.payload && sized.buffer[|f.payload|..] == t;
      assert StepOf(c, sized) == Deliver(c, Reset(p, f, t), f.fin, f.opcode, f.payload);
    }
  }

  predicate Agrees(s: Step, v: Verdict, buffer: seq<byte>) {
    match s
    case Wait => false
    case Fail(_, error) => v == Rejected(error)
    case Go(after, out) => v.Accepted? && out == v.delivered && Between(after, v.open) && after.buffer == buffer
  }

  /** Delivering a parsed payload is what the reference receiver does with the frame. */
  lemma DeliverAgrees(c: Config, p: Parser, open: Option<Message>, f: WireFrame)
    requires Between(p, open)
    requires Receive(c, open, f).Accepted? || Receive(c, open, f).error.Oversized?
    requires |f.payload| <= c.maxFrameBytes
    ensures Agrees(Deliver(c, p, f.fin, f.opcode, f.payload), Receive(c, open, f), p.buffer)
  {
    FlattenAppend(p.fragmentedBuffers, f.payload);
    FlattenLength(p.fragmentedBuffers);
    TotalLengthAppend(p.fragmentedBuffers, f.payload);
    assert Flatten([f.payload]) == f.payload + Flatten([]);
    assert TotalLength([f.payload]) == |f.payload| + TotalLength([]);
  }

  /** The parser handles one whole frame as the reference receiver does. */
  lemma FrameIsParsed(c: Config, p: Parser, open: Option<Message>, f: WireFrame, t: seq<byte>) returns (next: Parser)
    requires Representable(f) && Between(p, open) && p.buffer == Wire(f) + t
    requires f.payload != [] || t != []
    ensures var v := Receive(c, open, f);
            if v.Rejected? then Drain(c, p).events == [v.error]
            else Between(next, v.open) && next.buffer == t && Drain(c, p).events == v.delivered + Drain(c, next).events
  {
    hide Deliver;
    hide ReadHeader;
    hide HeaderError;
    hide ExtendedLength;
    hide KeyAndPayload;
    hide Admissible;
    hide BrokenRule;
    HeaderIsRead(f);
    HeaderChecksAgree(c, open, f);
    next := p;
    var rest := KeyAndPayload(f) + t;
    assert p.buffer == [FirstByte(f), SecondByte(f)] + (ExtendedLength(|f.payload|) + rest);
    var h := ReadHeader(FirstByte(f), SecondByte(f));
    if HeaderError(c, h, open.Some?).None? {
      LengthIsParsed(c, p, f, rest);
      if |f.payload| <= c.maxFrameBytes {
        DeliverKeepsKey(c, Reset(p, f, t), f);
        PayloadIsParsed(c, p, f, t);
        var reset := Reset(p, f, t);
        DeliverAgrees(c, reset, open, f);
        var s := Deliver(c, reset, f.fin, f.opcode, f.payload);
        if s.Go? {
          next := s.next;
        }
      }
    }
  }

  /** The parser agrees with the reference receiver on every stream of whole frames, valid or not:
      it makes the same callbacks up to the first error, and goes on from between two frames. */
  lemma {:induction false} StreamMatchesReference(
    c: Config, p: Parser, open: Option<Message>, frames: seq<WireFrame>, t: seq<byte>) returns (next: Parser)
    requires AllRepresentable(frames) && Between(p, open) && p.buffer == WireAll(frames) + t
    requires t != [] || frames == [] || frames[|frames| - 1].payload != []
    ensures var expected := ReceiveAll(c, open, frames);
            if ErrorFree(expected) then
              Between(next, OpenAfter(c, open, frames)) && next.buffer == t
              && Drain(c, p).events == expected + Drain(c, next).events
            else Drain(c, p).events == expected
    decreases |frames|
  {
    hide Receive;
    hide Drain;
    hide Wire;
    next := p;
    if frames == [] {
      assert p.buffer == t;
      assert [] + Drain(c, p).events == Drain(c, p).events;
    } else {
      var f, later := frames[0], frames[1..];
      assert p.buffer == Wire(f) + (WireAll(later) + t);
      WireAllIsEmpty(later);
      var q := FrameIsParsed(c, p, open, f, WireAll(later) + t);
      var v := Receive(c, open, f);
      DeliversFrames(c, open, f);
      if v.Rejected? {
        assert v.error in ReceiveAll(c, open, frames);
      } else {
        next := StreamMatchesReference(c, q, v.open, later, t);
        ErrorFreeAppend(v.delivered, ReceiveAll(c, v.open, later));
      }
    }
  }

  lemma WireAllIsEmpty(frames: seq<WireFrame>)
    requires AllRepresentable(frames)
    ensures WireAll(frames) == [] <==> frames == []
  {}

  lemma DeliversFrames(c: Config, open: Option<Message>, f: WireFrame)
    ensures var v := Receive(c, open, f);
            if v.Rejected? then !v.error.Frame? else ErrorFree(v.delivered)
  {}

  /** A frame with an empty payload at the end of the stream is delivered only once a further byte arrives. */
  lemma EmptyPayloadIsDelayed(c: Config, p: Parser, open: Option<Message>, f: WireFrame)
    requires Representable(f) && Between(p, open) && p.buffer == Wire(f) && f.payload == []
    requires Receive(c, open, f).Accepted?
    ensures Drain(c, p).events == []
  {
    hide ReadHeader;
    hide HeaderError;
    HeaderIsRead(f);
    HeaderChecksAgree(c, open, f);
    var rest := KeyAndPayload(f);
    assert p.buffer == [FirstByte(f), SecondByte(f)] + (ExtendedLength(0) + rest);
    LengthIsParsed(c, p, f, rest);
    if f.mask.Some? {
      assert rest == f.mask.value;
      assert rest[4..] == [];
    }
  }
}
