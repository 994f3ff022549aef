/** The parser object: its fields are updated in place by the drain loop, state by state. */
module WebSocketParser {

  import opened Bytes
  import opened Wrappers
  import opened WebSocketFrames

  class WebSocketFrameParser {
    const config: Config

    var state: ParserState
    var buffer: seq<byte>
    var fin: bool
    var rsv: nat
    var opcode: nat
    var masked: bool
    var payloadLength: nat
    var maskKey: Option<seq<byte>>
    var fragmentedOpcode: Option<nat>
    var fragmentedBuffers: seq<seq<byte>>
    var fragmentedLength: nat

    /** The callback invocations made so far, in order. */
    var callbacks: seq<Event>

    function View(): Parser
      reads this
    {
      Parser(state, buffer, fin, rsv, opcode, masked, payloadLength, maskKey,
             fragmentedOpcode, fragmentedBuffers, fragmentedLength)
    }

    ghost predicate Valid()
      reads this
    {
      Keyed(View())
    }

    /** What one iteration of the drain loop does to the fields and to the callbacks. */
    static predicate Took(s: Step, before: Parser, after: Parser, was: seq<Event>, now: seq<Event>, again: bool) {
      match s
      case Wait => after == before && now == was && !again
      case Go(next, out) => after == next && now == was + out && again
      case Fail(stuck, error) => after == stuck && now == was + [error] && !again
    }

    /** The callbacks made so far and those still to come are those of the specification. */
    static ghost predicate OnTrack(c: Config, target: Drained, p: Parser, was: seq<Event>, now: seq<Event>)
    {
      && Keyed(p)
      && was <= now
      && target == Drained(Drain(c, p).parser, now[|was|..] + Drain(c, p).events)
    }

    static lemma AfterIteration(c: Config, target: Drained, was: seq<Event>,
                                before: Parser, mid: seq<Event>, after: Parser, now: seq<Event>, again: bool)
      requires OnTrack(c, target, before, was, mid) && before.buffer != []
      requires Took(StepOf(c, before), before, after, mid, now, again)
      ensures Keyed(after)
      ensures again ==> OnTrack(c, target, after, was, now) && Measure(after) < Measure(before)
      ensures !again ==> target.parser == after && now == was + target.events
    {
      hide StepOf;
      var made := now[|mid|..];
      if again {
        assert now[|was|..] + Drain(c, after).events == mid[|was|..] + (made + Drain(c, after).events);
      }
    }

    constructor (maxFrameBytes: nat, requireMask: bool)
      ensures Valid() && View() == FRESH && callbacks == []
      ensures config == Config(maxFrameBytes, requireMask)
    {
      config := Config(maxFrameBytes, requireMask);
      state, buffer := HEADER, [];
      fin, rsv, opcode, masked := true, 0, BINARY, false;
      payloadLength, maskKey := 0, None;
      fragmentedOpcode, fragmentedBuffers, fragmentedLength := None, [], 0;
      callbacks := [];
    }

    /** One call of push, whose callbacks and final state are those of the specification. */
    method Push(chunk: seq<byte>)
      requires Valid()
      modifies this
      ensures Valid()
      ensures var d := WebSocketFrames.Push(config, old(View()), chunk);
              View() == d.parser && callbacks == old(callbacks) + d.events
    {
      if chunk == [] {
        return;
      }
      buffer := buffer + chunk;
      assert View() == Feed(old(View()), chunk);
      DrainBuffer();
    }

    method DrainBuffer()
      requires Valid()
      modifies this
      ensures Valid()
      ensures var d := Drain(config, old(View()));
              View() == d.parser && callbacks == old(callbacks) + d.events
    {
      hide StepOf;
      hide StepHeader;
      hide StepLength16;
      hide StepLength64;
      hide StepMaskKey;
      hide StepPayload;
      hide Drain;
      hide Took;
      hide OnTrack;
      ghost var target, was := Drain(config, View()), callbacks;
      NothingDone(config, View(), was);
      while buffer != []
        invariant OnTrack(config, target, View(), was, callbacks) && Valid()
        decreases Measure(View())
      {
        ghost var before, mid := View(), callbacks;
        StepByState(config, before);
        var again;
        match state {
          case HEADER => again := ReadFrameHeader();
          case EXTENDED_LEN_16 => again := ReadLength16();
          case EXTENDED_LEN_64 => again := ReadLength64();
          case MASK_KEY => again := ReadMaskKey();
          case PAYLOAD => again := ReadPayload();
        }
        AfterIteration(config, target, was, before, mid, View(), callbacks, again);
        if !again {
          return;
        }
      }
      NothingLeft(config, target, View(), was, callbacks);
    }

    static lemma NothingDone(c: Config, p: Parser, was: seq<Event>)
      requires Keyed(p)
      ensures OnTrack(c, Drain(c, p), p, was, was)
    {
      assert was[|was|..] + Drain(c, p).events == Drain(c, p).events;
    }

    static lemma NothingLeft(c: Config, target: Drained, p: Parser, was: seq<Event>, now: seq<Event>)
      requires OnTrack(c, target, p, was, now) && p.buffer == []
      ensures target.parser == p && now == was + target.events
    {}

    static lemma StepByState(c: Config, p: Parser)
      requires Keyed(p)
      ensures p.state == HEADER ==> StepOf(c, p) == StepHeader(c, p)
      ensures p.state == EXTENDED_LEN_16 ==> StepOf(c, p) == StepLength16(c, p)
      ensures p.state == EXTENDED_LEN_64 ==> StepOf(c, p) == StepLength64(c, p)
      ensures p.state == MASK_KEY ==> StepOf(c, p) == StepMaskKey(p)
      ensures p.state == PAYLOAD ==> StepOf(c, p) == StepPayload(c, p)
    {}

    method Callback(e: Event)
      modifies this`callbacks
      ensures callbacks == old(callbacks) + [e]
    {
      callbacks := callbacks + [e];
    }

    /** The header checks, in order, with at most one error callback. */
    method CheckHeader(lenIndicator: nat) returns (ok: bool)
      modifies this`callbacks
      ensures var error := HeaderError(config, Header(fin, rsv, opcode, masked, lenIndicator), fragmentedOpcode.Some?);
              ok == error.None? && callbacks == old(callbacks) + (if error.Some? then [error.value] else [])
    {
      ok := false;
      if rsv != 0 {
        Callback(ProtocolError(RsvBitsSet));
        return;
      }
      if opcode == TEXT {
        Callback(TextRejected);
        return;
      }
      if IsControl(opcode) {
        if !fin {
          Callback(ProtocolError(FragmentedControl));
          return;
        }
        if lenIndicator > 125 {
          Callback(ProtocolError(LongControl));
          return;
        }
      } else if fragmentedOpcode.Some? {
        if opcode != CONTINUATION {
          Callback(ProtocolError(InterleavedData));
          return;
        }
      } else if opcode == CONTINUATION {
        Callback(ProtocolError(UnexpectedContinuation));
        return;
      }
      if config.requireMask && !masked {
        Callback(ProtocolError(Unmasked));
        return;
      }
      ok := true;
    }

    method ReadFrameHeader() returns (again: bool)
      requires Valid() && state == HEADER
      modifies this
      ensures Took(StepHeader(config, old(View())), old(View()), View(), old(callbacks), callbacks, again)
    {
      hide ReadHeader;
      hide HeaderError;
      hide Keyed;
      if |buffer| < 2 { return false; }
      var h := ReadHeader(buffer[0], buffer[1]);
      fin, rsv, opcode, masked := h.fin, h.rsv, h.opcode, h.masked;
      var ok := CheckHeader(h.lenIndicator);
      if !ok { return false; }
      buffer := buffer[2..];
      if h.lenIndicator <= 125 {
        again := AcceptLength(h.lenIndicator);
      } else {
        state := if h.lenIndicator == 126 then EXTENDED_LEN_16 else EXTENDED_LEN_64;
        again := true;
      }
    }

    method AcceptLength(length: nat) returns (again: bool)
      modifies this
      ensures Took(WithLength(config, old(View()), length), old(View()), View(), old(callbacks), callbacks, again)
    {
      payloadLength := length;
      if payloadLength > config.maxFrameBytes {
        Callback(Oversized(payloadLength, config.maxFrameBytes));
        return false;
      }
      state := if masked then MASK_KEY else PAYLOAD;
      again := true;
    }

    method ReadLength16() returns (again: bool)
      requires Valid() && state == EXTENDED_LEN_16
      modifies this
      ensures Took(StepLength16(config, old(View())), old(View()), View(), old(callbacks), callbacks, again)
    {
      if |buffer| < 2 { return false; }
      var length := ReadBE(buffer[..2]);
      buffer := buffer[2..];
      if length < 126 {
        payloadLength := length;
        Callback(ProtocolError(NonMinimal16));
        return false;
      }
      again := AcceptLength(length);
    }

    method ReadLength64() returns (again: bool)
      requires Valid() && state == EXTENDED_LEN_64
      modifies this
      ensures Took(StepLength64(config, old(View())), old(View()), View(), old(callbacks), callbacks, again)
    {
      if |buffer| < 8 { return false; }
      var high, low := ReadBE(buffer[..4]), ReadBE(buffer[4..8]);
      buffer := buffer[8..];
      if high >= 0x8000_0000 {
        Callback(ProtocolError(MostSignificantBit));
        return false;
      }
      var length := high * 0x1_0000_0000 + low;
      if length < 65536 {
        payloadLength := length;
        Callback(ProtocolError(NonMinimal64));
        return false;
      }
      again := AcceptLength(length);
    }

    method ReadMaskKey() returns (again: bool)
      requires Valid() && state == MASK_KEY
      modifies this
      ensures Took(StepMaskKey(old(View())), old(View()), View(), old(callbacks), callbacks, again)
    {
      if |buffer| < 4 { return false; }
      maskKey := Some(buffer[..4]);
      buffer := buffer[4..];
      state := PAYLOAD;
      again := true;
    }

    method ReadPayload() returns (again: bool)
      requires Valid() && state == PAYLOAD
      modifies this
      ensures Took(StepPayload(config, old(View())), old(View()), View(), old(callbacks), callbacks, again)
    {
      if |buffer| < payloadLength { return false; }
      var payload := buffer[..payloadLength];
      buffer := buffer[payloadLength..];
      if masked && maskKey.Some? {
        payload := Unmask(payload, maskKey.value);
      }
      state, maskKey, payloadLength := HEADER, None, 0;
      again := DeliverPayload(payload);
    }

    /** Undoes the mask byte by byte in a buffer of its own. */
    static method Unmask(raw: seq<byte>, key: seq<byte>) returns (payload: seq<byte>)
      requires |key| == 4
      ensures payload == Mask(raw, key)
    {
      var payloadBuf := new byte[|raw|](i requires 0 <= i < |raw| => raw[i]);
      for i := 0 to |raw|
        invariant payloadBuf[..i] == Mask(raw, key)[..i]
        invariant payloadBuf[i..] == raw[i..]
      {
        payloadBuf[i] := payloadBuf[i] ^ key[i % 4];
      }
      payload := payloadBuf[..];
    }

    method DeliverPayload(payload: seq<byte>) returns (again: bool)
      modifies this
      ensures Took(Deliver(config, old(View()), fin, opcode, payload), old(View()), View(), old(callbacks), callbacks, again)
      ensures fin == old(fin) && opcode == old(opcode)
    {
      again := true;
      if IsControl(opcode) {
        Callback(Frame(opcode, payload));
      } else if opcode == CONTINUATION {
        if fragmentedOpcode.None? {
          Callback(ProtocolError(UnexpectedContinuation));
          return false;
        }
        fragmentedLength := fragmentedLength + |payload|;
        if fragmentedLength > config.maxFrameBytes {
          Callback(Oversized(fragmentedLength, config.maxFrameBytes));
          return false;
        }
        fragmentedBuffers := fragmentedBuffers + [payload];
        if fin {
          var full, assembledOpcode := Flatten(fragmentedBuffers), fragmentedOpcode.value;
          fragmentedBuffers, fragmentedLength, fragmentedOpcode := [], 0, None;
          Callback(Frame(assembledOpcode, full));
        }
      } else if !fin {
        if fragmentedOpcode.Some? {
          Callback(ProtocolError(NestedFragment));
          return false;
        }
        fragmentedOpcode, fragmentedBuffers, fragmentedLength := Some(opcode), [payload], |payload|;
      } else {
        Callback(Frame(opcode, payload));
      }
    }
  }
}
