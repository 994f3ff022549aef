/** The incremental WebSocket frame parser and the frame encoder of the LAN carrier
    (sections 5.2 to 5.5 of RFC 6455). */
module WebSocketFrames {

  import opened Bytes
  import opened Wrappers

  const CONTINUATION := 0x0
  const TEXT := 0x1
  const BINARY := 0x2

  datatype ParserState = HEADER | EXTENDED_LEN_16 | EXTENDED_LEN_64 | MASK_KEY | PAYLOAD

  datatype Reason =
    | RsvBitsSet
    | FragmentedControl
    | LongControl
    | InterleavedData
    | UnexpectedContinuation
    | Unmasked
    | NonMinimal16
    | MostSignificantBit
    | NonMinimal64
    | NestedFragment

  /** One callback invocation: onFrame, onTextFrameRejected, onOversizedFrame or onProtocolError. */
  datatype Event =
    | Frame(opcode: nat, payload: seq<byte>)
    | TextRejected
    | Oversized(size: nat, limit: nat)
    | ProtocolError(reason: Reason)

  datatype Config = Config(maxFrameBytes: nat, requireMask: bool)

  /** The fields of a parser between two iterations of its drain loop. */
  datatype Parser = Parser(
    state: ParserState,
    buffer: seq<byte>,
    fin: bool,
    rsv: nat,
    opcode: nat,
    masked: bool,
    payloadLength: nat,
    maskKey: Option<seq<byte>>,
    fragmentedOpcode: Option<nat>,
    fragmentedBuffers: seq<seq<byte>>,
    fragmentedLength: nat)

  const FRESH: Parser :=
    Parser(HEADER, [], true, 0, BINARY, false, 0, None, None, [], 0)

  /** The outcome of one iteration: not enough bytes, progress, or an error callback and a return. */
  datatype Step =
    | Wait
    | Go(next: Parser, out: seq<Event>)
    | Fail(stuck: Parser, error: Event)

  datatype Drained = Drained(parser: Parser, events: seq<Event>)

  // ----- byte-level helpers -----

  function Flatten<T>(parts: seq<seq<T>>): seq<T> {
    if parts == [] then [] else parts[0] + Flatten(parts[1..])
  }

  predicate IsControl(opcode: nat) {
    opcode >= 0x8
  }

  // ----- one iteration of the drain loop -----

  predicate ErrorFree(events: seq<Event>) {
    forall e | e in events :: e.Frame?
  }

  /** Progress makes frame callbacks only; a failing iteration makes an error callback. */
  predicate OnlyFramesInProgress(s: Step) {
    (s.Go? ==> ErrorFree(s.out)) && (s.Fail? ==> !s.error.Frame?)
  }

  /** The fields of the first two bytes of a frame. */
  datatype Header = Header(fin: bool, rsv: nat, opcode: nat, masked: bool, lenIndicator: nat)

  function ReadHeader(b0: byte, b1: byte): Header {
    Header(b0 & 0x80 != 0, ((b0 & 0x70) >> 4) as nat, (b0 & 0x0f) as nat, b1 & 0x80 != 0, (b1 & 0x7f) as nat)
  }

  /** The error raised by the header checks, in the order in which the parser makes them. */
  function HeaderError(c: Config, h: Header, fragmenting: bool): (error: Option<Event>)
    ensures error.Some? ==> !error.value.Frame?
  {
    if h.rsv != 0 then Some(ProtocolError(RsvBitsSet))
    else if h.opcode == TEXT then Some(TextRejected)
    else if IsControl(h.opcode) && !h.fin then Some(ProtocolError(FragmentedControl))
    else if IsControl(h.opcode) && h.lenIndicator > 125 then Some(ProtocolError(LongControl))
    else if !IsControl(h.opcode) && fragmenting && h.opcode != CONTINUATION then Some(ProtocolError(InterleavedData))
    else if !IsControl(h.opcode) && !fragmenting && h.opcode == CONTINUATION then Some(ProtocolError(UnexpectedContinuation))
    else if c.requireMask && !h.masked then Some(ProtocolError(Unmasked))
    else None
  }

  function StepHeader(c: Config, p: Parser): (s: Step)
    requires p.state == HEADER
    ensures OnlyFramesInProgress(s)
  {
    if |p.buffer| < 2 then Wait
    else
      var h := ReadHeader(p.buffer[0], p.buffer[1]);
      var read := p.(fin := h.fin, rsv := h.rsv, opcode := h.opcode, masked := h.masked);
      match HeaderError(c, h, p.fragmentedOpcode.Some?)
      case Some(error) => Fail(read, error)
      case None =>
        var rest := read.(buffer := p.buffer[2..]);
        if h.lenIndicator <= 125 then WithLength(c, rest, h.lenIndicator)
        else if h.lenIndicator == 126 then Go(rest.(state := EXTENDED_LEN_16), [])
        else Go(rest.(state := EXTENDED_LEN_64), [])
  }

  /** Stores a payload length, checks it before any payload is buffered and picks the next state. */
  function WithLength(c: Config, p: Parser, length: nat): (s: Step)
    ensures OnlyFramesInProgress(s)
  {
    var sized := p.(payloadLength := length);
    if length > c.maxFrameBytes then Fail(sized, Oversized(length, c.maxFrameBytes))
    else Go(sized.(state := if p.masked then MASK_KEY else PAYLOAD), [])
  }

  function StepLength16(c: Config, p: Parser): (s: Step)
    requires p.state == EXTENDED_LEN_16
    ensures OnlyFramesInProgress(s)
  {
    if |p.buffer| < 2 then Wait
    else
      var length := ReadBE(p.buffer[..2]);
      var rest := p.(buffer := p.buffer[2..]);
      if length < 126 then Fail(rest.(payloadLength := length), ProtocolError(NonMinimal16))
      else WithLength(c, rest, length)
  }

  function StepLength64(c: Config, p: Parser): (s: Step)
    requires p.state == EXTENDED_LEN_64
    ensures OnlyFramesInProgress(s)
  {
    if |p.buffer| < 8 then Wait
    else
      var high, low := ReadBE(p.buffer[..4]), ReadBE(p.buffer[4..8]);
      var rest := p.(buffer := p.buffer[8..]);
      if high >= 0x8000_0000 then Fail(rest, ProtocolError(MostSignificantBit))
      else
        var length := high * 0x1_0000_0000 + low;
        if length < 65536 then Fail(rest.(payloadLength := length), ProtocolError(NonMinimal64))
        else WithLength(c, rest, length)
  }

  function StepMaskKey(p: Parser): (s: Step)
    requires p.state == MASK_KEY
    ensures OnlyFramesInProgress(s)
  {
    if |p.buffer| < 4 then Wait
    else Go(p.(maskKey := Some(p.buffer[..4]), buffer := p.buffer[4..], state := PAYLOAD), [])
  }

  function StepPayload(c: Config, p: Parser): (s: Step)
    requires p.state == PAYLOAD
    requires p.maskKey.Some? ==> |p.maskKey.value| == 4
    ensures OnlyFramesInProgress(s)
  {
    if |p.buffer| < p.payloadLength then Wait
    else
      var raw := p.buffer[..p.payloadLength];
      var payload := if p.masked && p.maskKey.Some? then Mask(raw, p.maskKey.value) else raw;
      var reset := p.(buffer := p.buffer[p.payloadLength..], state := HEADER, maskKey := None, payloadLength := 0);
      Deliver(c, reset, p.fin, p.opcode, payload)
  }

  /** Fragmentation handling of a complete frame (section 5.4). */
  function Deliver(c: Config, p: Parser, fin: bool, opcode: nat, payload: seq<byte>): (s: Step)
    ensures OnlyFramesInProgress(s)
  {
    if IsControl(opcode) then Go(p, [Frame(opcode, payload)])
    else if opcode == CONTINUATION then
      if p.fragmentedOpcode.None? then Fail(p, ProtocolError(UnexpectedContinuation))
      else
        var grown := p.(fragmentedLength := p.fragmentedLength + |payload|);
        if grown.fragmentedLength > c.maxFrameBytes then
          Fail(grown, Oversized(grown.fragmentedLength, c.maxFrameBytes))
        else
          var buffers := p.fragmentedBuffers + [payload];
          if fin then
            Go(p.(fragmentedOpcode := None, fragmentedBuffers := [], fragmentedLength := 0),
               [Frame(p.fragmentedOpcode.value, Flatten(buffers))])
          else Go(grown.(fragmentedBuffers := buffers), [])
    else if fin then Go(p, [Frame(opcode, payload)])
    else if p.fragmentedOpcode.Some? then Fail(p, ProtocolError(NestedFragment))
    else Go(p.(fragmentedOpcode := Some(opcode), fragmentedBuffers := [payload], fragmentedLength := |payload|), [])
  }

  /** A mask key, when stored, has four bytes. */
  predicate Keyed(p: Parser) {
    p.maskKey.Some? ==> |p.maskKey.value| == 4
  }

  function StepOf(c: Config, p: Parser): (s: Step)
    requires Keyed(p)
    ensures s.Go? ==> Keyed(s.next) && Measure(s.next) < Measure(p)
    ensures s.Fail? ==> Keyed(s.stuck)
    ensures OnlyFramesInProgress(s)
  {
    match p.state
    case HEADER => StepHeader(c, p)
    case EXTENDED_LEN_16 => StepLength16(c, p)
    case EXTENDED_LEN_64 => StepLength64(c, p)
    case MASK_KEY => StepMaskKey(p)
    case PAYLOAD => StepPayload(c, p)
  }

  /** The variant of the drain loop: an empty payload consumes no byte but leaves PAYLOAD. */
  function Measure(p: Parser): nat {
    2 * |p.buffer| + (if p.state == PAYLOAD then 1 else 0)
  }

  /** The drain loop: it stops on an empty buffer, on a missing byte and after an error callback. */
  function Drain(c: Config, p: Parser): (d: Drained)
    requires Keyed(p)
    ensures Keyed(d.parser)
    decreases Measure(p)
  {
    if p.buffer == [] then Drained(p, [])
    else
      match StepOf(c, p)
      case Wait => Drained(p, [])
      case Fail(stuck, error) => Drained(stuck, [error])
      case Go(next, out) =>
        var rest := Drain(c, next);
        Drained(rest.parser, out + rest.events)
  }

  function Feed(p: Parser, chunk: seq<byte>): Parser {
    p.(buffer := p.buffer + chunk)
  }

  /** One call of push. */
  function Push(c: Config, p: Parser, chunk: seq<byte>): (d: Drained)
    requires Keyed(p)
    ensures Keyed(d.parser)
  {
    if chunk == [] then Drained(p, []) else Drain(c, Feed(p, chunk))
  }

  function PushAll(c: Config, p: Parser, chunks: seq<seq<byte>>): (d: Drained)
    requires Keyed(p)
    decreases |chunks|
  {
    if chunks == [] then Drained(p, [])
    else
      var first := Push(c, p, chunks[0]);
      var rest := PushAll(c, first.parser, chunks[1..]);
      Drained(rest.parser, first.events + rest.events)
  }

  // ----- chunking -----

  /** The callbacks up to and including the first error callback. */
  function UpToFirstError(events: seq<Event>): seq<Event> {
    if events == [] then []
    else if !events[0].Frame? then [events[0]]
    else [events[0]] + UpToFirstError(events[1..])
  }

  lemma {:induction false} UpToFirstErrorAppend(a: seq<Event>, b: seq<Event>)
    ensures UpToFirstError(a + b) == if ErrorFree(a) then a + UpToFirstError(b) else UpToFirstError(a)
  {
    if a == [] {
      assert a + b == b;
    } else {
      assert (a + b)[1..] == a[1..] + b;
      UpToFirstErrorAppend(a[1..], b);
      assert a == [a[0]] + a[1..];
      assert ErrorFree(a) <==> a[0].Frame? && ErrorFree(a[1..]);
    }
  }

  predicate IgnoresLaterBytes(early: Step, late: Step, later: seq<byte>) {
    match early
    case Wait => true
    case Go(next, out) => late == Go(Feed(next, later), out)
    case Fail(stuck, error) => late == Fail(Feed(stuck, later), error)
  }

  lemma HeaderIgnoresLaterBytes(c: Config, p: Parser, later: seq<byte>)
    requires p.state == HEADER
    ensures IgnoresLaterBytes(StepHeader(c, p), StepHeader(c, Feed(p, later)), later)
  {
    hide ReadHeader;
    hide HeaderError;
    if |p.buffer| >= 2 {
      var all := p.buffer + later;
      assert all[0] == p.buffer[0] && all[1] == p.buffer[1];
      assert all[2..] == p.buffer[2..] + later;
    }
  }

  lemma LengthIgnoresLaterBytes(c: Config, p: Parser, later: seq<byte>)
    ensures p.state == EXTENDED_LEN_16 ==>
              IgnoresLaterBytes(StepLength16(c, p), StepLength16(c, Feed(p, later)), later)
    ensures p.state == EXTENDED_LEN_64 ==>
              IgnoresLaterBytes(StepLength64(c, p), StepLength64(c, Feed(p, later)), later)
  {
    var all := p.buffer + later;
    if p.state == EXTENDED_LEN_16 && |p.buffer| >= 2 {
      assert all[2..] == p.buffer[2..] + later;
      assert all[..2] == p.buffer[..2];
    } else if p.state == EXTENDED_LEN_64 && |p.buffer| >= 8 {
      assert all[8..] == p.buffer[8..] + later;
      assert all[..4] == p.buffer[..4];
      assert all[4..8] == p.buffer[4..8];
    }
  }

  lemma PayloadIgnoresLaterBytes(c: Config, p: Parser, later: seq<byte>)
    requires Keyed(p)
    ensures p.state == MASK_KEY ==> IgnoresLaterBytes(StepMaskKey(p), StepMaskKey(Feed(p, later)), later)
    ensures p.state == PAYLOAD ==> IgnoresLaterBytes(StepPayload(c, p), StepPayload(c, Feed(p, later)), later)
  {
    var n := if p.state == MASK_KEY then 4 else p.payloadLength;
    if |p.buffer| >= n {
      assert (p.buffer + later)[n..] == p.buffer[n..] + later;
      assert (p.buffer + later)[..n] == p.buffer[..n];
    }
  }

  /** Bytes that have not arrived yet do not change an iteration that can already run. */
  lemma StepIgnoresLaterBytes(c: Config, p: Parser, later: seq<byte>)
    requires Keyed(p)
    ensures IgnoresLaterBytes(StepOf(c, p), StepOf(c, Feed(p, later)), later)
  {
    match p.state
    case HEADER => HeaderIgnoresLaterBytes(c, p, later);
    case EXTENDED_LEN_16 => LengthIgnoresLaterBytes(c, p, later);
    case EXTENDED_LEN_64 => LengthIgnoresLaterBytes(c, p, later);
    case MASK_KEY => PayloadIgnoresLaterBytes(c, p, later);
    case PAYLOAD => PayloadIgnoresLaterBytes(c, p, later);
  }

  lemma ErrorFreeAppend(a: seq<Event>, b: seq<Event>)
    ensures ErrorFree(a + b) <==> ErrorFree(a) && ErrorFree(b)
  {
    forall e | e in a ensures e in a + b {}
    forall e | e in b ensures e in a + b {}
  }

  /** A push stops at its first error callback, and an error-free push leaves nothing to do. */
  lemma {:induction false} DrainStops(c: Config, p: Parser)
    requires Keyed(p)
    ensures var d := Drain(c, p);
            UpToFirstError(d.events) == d.events
            && (ErrorFree(d.events) ==> Drain(c, d.parser) == Drained(d.parser, []))
    decreases Measure(p)
  {
    if p.buffer != [] {
      match StepOf(c, p) {
        case Wait =>
        case Fail(stuck, error) =>
          assert error in Drain(c, p).events;
        case Go(next, out) =>
          DrainStops(c, next);
          UpToFirstErrorAppend(out, Drain(c, next).events);
          ErrorFreeAppend(out, Drain(c, next).events);
      }
    }
  }

  /** What a second batch of bytes adds to a first one. */
  function Then(c: Config, early: Drained, later: seq<byte>): Drained
    requires Keyed(early.parser)
  {
    var late := Drain(c, Feed(early.parser, later));
    Drained(late.parser, early.events + late.events)
  }

  /** Draining early and feeding more bytes afterwards is draining everything at once,
      as long as no error callback was made. */
  lemma {:induction false} DrainInTwo(c: Config, p: Parser, later: seq<byte>)
    requires Keyed(p)
    ensures if ErrorFree(Drain(c, p).events) then Drain(c, Feed(p, later)) == Then(c, Drain(c, p), later)
            else Drain(c, Feed(p, later)).events == Drain(c, p).events
    decreases Measure(p)
  {
    hide StepOf;
    if p.buffer == [] {
      assert [] + Drain(c, Feed(p, later)).events == Drain(c, Feed(p, later)).events;
    } else {
      StepIgnoresLaterBytes(c, p, later);
      match StepOf(c, p) {
        case Wait =>
          assert [] + Drain(c, Feed(p, later)).events == Drain(c, Feed(p, later)).events;
        case Fail(stuck, error) =>
          assert error in Drain(c, p).events;
        case Go(next, out) =>
          DrainInTwo(c, next, later);
          var rest := Drain(c, next);
          ErrorFreeAppend(out, rest.events);
          if ErrorFree(rest.events) {
            var late := Drain(c, Feed(rest.parser, later));
            assert out + (rest.events + late.events) == (out + rest.events) + late.events;
          }
      }
    }
  }

  /** Chunking does not matter: however a byte stream is split into pushes, the callbacks up to and
      including the first error callback are those of a single push of the whole stream. */
  lemma {:induction false} ChunkingIsIrrelevant(c: Config, p: Parser, chunks: seq<seq<byte>>)
    requires Keyed(p) && Drain(c, p) == Drained(p, [])
    ensures UpToFirstError(PushAll(c, p, chunks).events) == Push(c, p, Flatten(chunks)).events
    ensures ErrorFree(PushAll(c, p, chunks).events) ==> PushAll(c, p, chunks) == Push(c, p, Flatten(chunks))
    decreases |chunks|
  {
    hide StepOf;
    if chunks != [] {
      var first := Push(c, p, chunks[0]);
      var later := Flatten(chunks[1..]);
      PushIsDrain(c, p, chunks[0]);
      PushIsDrain(c, p, chunks[0] + later);
      assert Feed(Feed(p, chunks[0]), later) == Feed(p, chunks[0] + later) by {
        assert (p.buffer + chunks[0]) + later == p.buffer + (chunks[0] + later);
      }
      DrainInTwo(c, Feed(p, chunks[0]), later);
      DrainStops(c, Feed(p, chunks[0]));
      var rest := PushAll(c, first.parser, chunks[1..]);
      UpToFirstErrorAppend(first.events, rest.events);
      ErrorFreeAppend(first.events, rest.events);
      if ErrorFree(first.events) {
        ChunkingIsIrrelevant(c, first.parser, chunks[1..]);
        PushIsDrain(c, first.parser, later);
      }
    }
  }

  lemma PushIsDrain(c: Config, p: Parser, chunk: seq<byte>)
    requires Keyed(p) && Drain(c, p) == Drained(p, [])
    ensures Push(c, p, chunk) == Drain(c, Feed(p, chunk))
  {
    hide StepOf;
    if chunk == [] {
      assert Feed(p, chunk) == p by { assert p.buffer + [] == p.buffer; }
    }
  }

  // ----- bounded memory -----

  function TotalLength(parts: seq<seq<byte>>): nat {
    if parts == [] then 0 else |parts[0]| + TotalLength(parts[1..])
  }

  /** What the parser has admitted so far is within the frame limit. */
  predicate Admitted(c: Config, p: Parser) {
    && Keyed(p)
    && (p.state in {MASK_KEY, PAYLOAD} ==> p.payloadLength <= c.maxFrameBytes)
    && TotalLength(p.fragmentedBuffers) == p.fragmentedLength <= c.maxFrameBytes
    && (p.fragmentedOpcode.None? ==> p.fragmentedBuffers == [])
  }

  /** The unread bytes that an idle parser may hold: an incomplete length, key or payload. */
  function MaxUnread(c: Config): nat {
    if c.maxFrameBytes > 8 then c.maxFrameBytes - 1 else 7
  }

  lemma {:induction false} TotalLengthAppend(parts: seq<seq<byte>>, part: seq<byte>)
    ensures TotalLength(parts + [part]) == TotalLength(parts) + |part|
  {
    if parts == [] {
      assert parts + [part] == [part];
    } else {
      assert (parts + [part])[1..] == parts[1..] + [part];
      TotalLengthAppend(parts[1..], part);
    }
  }

  lemma PayloadAdmits(c: Config, p: Parser)
    requires Admitted(c, p) && p.state == PAYLOAD
    ensures StepPayload(c, p).Go? ==> Admitted(c, StepPayload(c, p).next)
    ensures StepPayload(c, p).Wait? ==> |p.buffer| < p.payloadLength
  {
    if |p.buffer| >= p.payloadLength {
      var raw := p.buffer[..p.payloadLength];
      var payload := if p.masked && p.maskKey.Some? then Mask(raw, p.maskKey.value) else raw;
      TotalLengthAppend(p.fragmentedBuffers, payload);
      assert TotalLength([payload]) == |payload| + TotalLength([]);
    }
  }

  lemma StepAdmits(c: Config, p: Parser)
    requires Admitted(c, p)
    ensures StepOf(c, p).Go? ==> Admitted(c, StepOf(c, p).next)
    ensures StepOf(c, p).Wait? ==> |p.buffer| <= MaxUnread(c)
  {
    hide ReadHeader;
    hide HeaderError;
    hide Deliver;
    hide ReadBE;
    if p.state == PAYLOAD {
      PayloadAdmits(c, p);
    }
  }

  /** Bounded memory: an error-free push leaves at most max(7, maxFrameBytes - 1) unread bytes, and
      the buffered fragments add up to fragmentedLength, which is within the frame limit. */
  lemma {:induction false} DrainBoundsMemory(c: Config, p: Parser)
    requires Admitted(c, p)
    ensures ErrorFree(Drain(c, p).events) ==>
              Admitted(c, Drain(c, p).parser) && |Drain(c, p).parser.buffer| <= MaxUnread(c)
    decreases Measure(p)
  {
    hide StepOf;
    if p.buffer != [] {
      StepAdmits(c, p);
      match StepOf(c, p) {
        case Wait =>
        case Fail(stuck, error) =>
          assert error in Drain(c, p).events;
        case Go(next, out) =>
          DrainBoundsMemory(c, next);
          ErrorFreeAppend(out, Drain(c, next).events);
      }
    }
  }

  /** What the properties above do not reach: the parser is not latched by an error, so that one byte more raises the
      error of a text frame again, while one push of the same bytes raises it once. */
  lemma ErrorsAreNotLatched(c: Config)
    ensures PushAll(c, FRESH, [[0x81, 0x80], [0x00]]).events == [TextRejected, TextRejected]
    ensures Push(c, FRESH, [0x81, 0x80, 0x00]).events == [TextRejected]
  {}
}
