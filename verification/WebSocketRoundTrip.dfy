/** What a sender puts on the wire reaches the receiver: whole frames and fragmented messages. */
module WebSocketRoundTrip {

  import opened Bytes
  import opened Wrappers
  import opened WebSocketFrames
  import opened WebSocketWire

  /** The frame that the encoder writes: FIN set, no RSV bit. */
  function Encoded(payload: seq<byte>, opcode: nat, maskKey: Option<seq<byte>>): WireFrame {
    WireFrame(true, 0, opcode, maskKey, payload)
  }

  /** A frame within the limits of the receiver, apart from the FIN bit. */
  predicate WithinLimits(c: Config, f: WireFrame) {
    && Representable(f)
    && f.rsv == 0
    && f.opcode != TEXT
    && |f.payload| <= c.maxFrameBytes
    && (IsControl(f.opcode) ==> f.fin && |f.payload| <= 125)
    && (c.requireMask ==> f.mask.Some?)
  }

  predicate Sendable(c: Config, f: WireFrame) {
    WithinLimits(c, f) && f.fin && f.opcode != CONTINUATION
  }

  predicate AllSendable(c: Config, frames: seq<WireFrame>)
    ensures AllSendable(c, frames) ==> AllRepresentable(frames)
  {
    forall f | f in frames :: Sendable(c, f)
  }

  function Frames(frames: seq<WireFrame>): (events: seq<Event>)
    ensures |events| == |frames|
    ensures ErrorFree(events)
  {
    seq(|frames|, i requires 0 <= i < |frames| => Frame(frames[i].opcode, frames[i].payload))
  }

  lemma SendableIsAccepted(c: Config, f: WireFrame)
    requires Sendable(c, f)
    ensures Receive(c, None, f) == Accepted(None, [Frame(f.opcode, f.payload)])
  {}

  lemma {:induction false} SendableFramesAreReceived(c: Config, frames: seq<WireFrame>)
    requires AllSendable(c, frames)
    ensures ReceiveAll(c, None, frames) == Frames(frames)
    ensures OpenAfter(c, None, frames) == None
    decreases |frames|
  {
    if frames != [] {
      assert Sendable(c, frames[0]);
      SendableFramesAreReceived(c, frames[1..]);
      SendableIsAccepted(c, frames[0]);
    }
  }

  /** A byte after whole frames leaves the parser waiting for the rest of a header. */
  lemma OneByteWaits(c: Config, p: Parser)
    requires p.state == HEADER && Keyed(p) && |p.buffer| <= 1
    ensures Drain(c, p).events == []
  {}

  /** Frame round trip: parsing the concatenated encodings of a list of binary and control frames emits
      exactly that list, in all three length forms and with any masks; a last frame with an empty
      payload is emitted once a further byte arrives. */
  lemma RoundTrip(c: Config, frames: seq<WireFrame>, next: byte)
    requires AllSendable(c, frames)
    ensures Push(c, FRESH, WireAll(frames) + [next]).events == Frames(frames)
    ensures Push(c, FRESH, WireAll(frames)).events ==
            if frames != [] && frames[|frames| - 1].payload == [] then Frames(frames[..|frames| - 1]) else Frames(frames)
  {
    hide Drain;
    hide Wire;
    hide Receive;
    hide ReceiveAll;
    hide Frames;
    hide Sendable;
    WireAllIsEmpty(frames);
    SendableFramesAreReceived(c, frames);
    var p := Feed(FRESH, WireAll(frames) + [next]);
    var q := StreamMatchesReference(c, p, None, frames, [next]);
    OneByteWaits(c, q);
    if frames != [] {
      if frames[|frames| - 1].payload == [] {
        TrailingEmptyFrame(c, frames);
      } else {
        var r := StreamMatchesReference(c, Feed(FRESH, WireAll(frames)), None, frames, []);
        OneByteWaits(c, r);
      }
    }
  }

  lemma {:induction false} WireAllAppend(a: seq<WireFrame>, b: seq<WireFrame>)
    requires AllRepresentable(a) && AllRepresentable(b)
    ensures AllRepresentable(a + b) && WireAll(a + b) == WireAll(a) + WireAll(b)
  {
    hide Wire;
    hide Representable;
    if a == [] {
      assert a + b == b;
    } else {
      assert (a + b)[1..] == a[1..] + b;
      WireAllAppend(a[1..], b);
      assert Wire(a[0]) + (WireAll(a[1..]) + WireAll(b)) == (Wire(a[0]) + WireAll(a[1..])) + WireAll(b);
    }
  }

  lemma TrailingEmptyFrame(c: Config, frames: seq<WireFrame>)
    requires AllSendable(c, frames)
    requires frames != [] && frames[|frames| - 1].payload == []
    ensures Drain(c, Feed(FRESH, WireAll(frames))).events == Frames(frames[..|frames| - 1])
  {
    hide Drain;
    hide Wire;
    hide ReceiveAll;
    hide OpenAfter;
    hide Frames;
    hide Sendable;
    var init, last := frames[..|frames| - 1], frames[|frames| - 1];
    assert frames == init + [last];
    WireAllAppend(init, [last]);
    WireAllIsEmpty([last]);
    assert WireAll([last]) == Wire(last) by {
      assert [last][1..] == [];
      assert Wire(last) + [] == Wire(last);
    }
    SendableFramesAreReceived(c, init);
    SendableIsAccepted(c, last);
    var q := StreamMatchesReference(c, Feed(FRESH, WireAll(frames)), None, init, Wire(last));
    EmptyPayloadIsDelayed(c, q, None, last);
  }

  // ----- fragmented messages -----

  /** The continuation frames of a message, each preceded by a group of control frames. */
  function Continuations(parts: seq<seq<byte>>, masks: seq<Option<seq<byte>>>, controls: seq<seq<WireFrame>>): seq<WireFrame>
    requires |parts| == |masks| == |controls|
  {
    if parts == [] then []
    else controls[0] + [WireFrame(|parts| == 1, 0, CONTINUATION, masks[0], parts[0])]
         + Continuations(parts[1..], masks[1..], controls[1..])
  }

  /** A first fragment followed by continuations, with control frames anywhere in between. */
  function Fragmented(
    opcode: nat, parts: seq<seq<byte>>, masks: seq<Option<seq<byte>>>, controls: seq<seq<WireFrame>>): seq<WireFrame>
    requires |parts| == |masks| == |controls| + 1 && |parts| > 1
  {
    [WireFrame(false, 0, opcode, masks[0], parts[0])] + Continuations(parts[1..], masks[1..], controls)
  }

  predicate ControlFrames(c: Config, controls: seq<WireFrame>) {
    forall f | f in controls :: WithinLimits(c, f) && IsControl(f.opcode)
  }

  lemma {:induction false} ControlsAreDelivered(c: Config, open: Option<Message>, controls: seq<WireFrame>, later: seq<WireFrame>)
    requires ControlFrames(c, controls)
    ensures ReceiveAll(c, open, controls + later) == Frames(controls) + ReceiveAll(c, open, later)
    decreases |controls|
  {
    if controls == [] {
      assert controls + later == later;
    } else {
      var f := controls[0];
      assert (controls + later)[1..] == controls[1..] + later;
      ControlsAreDelivered(c, open, controls[1..], later);
      assert Receive(c, open, f) == Accepted(open, [Frame(f.opcode, f.payload)]);
      assert Frames(controls) == [Frame(f.opcode, f.payload)] + Frames(controls[1..]);
    }
  }

  predicate ValidMasks(c: Config, masks: seq<Option<seq<byte>>>) {
    forall m | m in masks :: (m.Some? ==> |m.value| == 4) && (c.requireMask ==> m.Some?)
  }

  lemma OneFrame(c: Config, open: Option<Message>, f: WireFrame, later: seq<WireFrame>)
    requires Receive(c, open, f).Accepted?
    ensures ReceiveAll(c, open, [f] + later)
         == Receive(c, open, f).delivered + ReceiveAll(c, Receive(c, open, f).open, later)
  {
    hide Receive;
    assert ([f] + later)[1..] == later;
  }

  lemma ContinuationIsReceived(c: Config, m: Message, fin: bool, mask: Option<seq<byte>>, part: seq<byte>)
    requires (mask.Some? ==> |mask.value| == 4) && (c.requireMask ==> mask.Some?)
    requires |m.received| + |part| <= c.maxFrameBytes
    ensures Receive(c, Some(m), WireFrame(fin, 0, CONTINUATION, mask, part)) ==
            if fin then Accepted(None, [Frame(m.opcode, m.received + part)])
            else Accepted(Some(Message(m.opcode, m.received + part)), [])
  {}

  lemma {:induction false} ContinuationsAreAssembled(
    c: Config, m: Message, parts: seq<seq<byte>>, masks: seq<Option<seq<byte>>>, controls: seq<seq<WireFrame>>)
    requires |parts| == |masks| == |controls| > 0
    requires ValidMasks(c, masks)
    requires forall g | g in controls :: ControlFrames(c, g)
    requires |m.received| + TotalLength(parts) <= c.maxFrameBytes
    ensures ReceiveAll(c, Some(m), Continuations(parts, masks, controls))
         == Frames(Flatten(controls)) + [Frame(m.opcode, m.received + Flatten(parts))]
    decreases |parts|
  {
    hide Receive;
    hide ReceiveAll;
    hide Frames;
    hide Flatten;
    hide WithinLimits;
    var last := |parts| == 1;
    var rest := Continuations(parts[1..], masks[1..], controls[1..]);
    FirstContinuation(c, m, parts[0], masks[0], controls[0], last, rest);
    assert Continuations(parts, masks, controls)
        == controls[0] + ([WireFrame(last, 0, CONTINUATION, masks[0], parts[0])] + rest);
    if last {
      NothingIsReceived(c);
      FlattenOne(parts);
      FlattenOne(controls);
    } else {
      ContinuationsAreAssembled(c, Message(m.opcode, m.received + parts[0]), parts[1..], masks[1..], controls[1..]);
      AssembleMore(m, parts, controls);
    }
  }

  /** A group of control frames and the continuation that follows it. */
  lemma FirstContinuation(c: Config, m: Message, part: seq<byte>, mask: Option<seq<byte>>,
                          controls: seq<WireFrame>, fin: bool, rest: seq<WireFrame>)
    requires (mask.Some? ==> |mask.value| == 4) && (c.requireMask ==> mask.Some?)
    requires ControlFrames(c, controls)
    requires |m.received| + |part| <= c.maxFrameBytes
    ensures ReceiveAll(c, Some(m), controls + ([WireFrame(fin, 0, CONTINUATION, mask, part)] + rest))
         == Frames(controls) + if fin then [Frame(m.opcode, m.received + part)] + ReceiveAll(c, None, rest)
                               else ReceiveAll(c, Some(Message(m.opcode, m.received + part)), rest)
  {
    hide Receive;
    hide ReceiveAll;
    hide Frames;
    var f := WireFrame(fin, 0, CONTINUATION, mask, part);
    ControlsAreDelivered(c, Some(m), controls, [f] + rest);
    ContinuationIsReceived(c, m, fin, mask, part);
    OneFrame(c, Some(m), f, rest);
    var later := ReceiveAll(c, Some(Message(m.opcode, m.received + part)), rest);
    assert [] + later == later;
  }

  lemma AssembleMore(m: Message, parts: seq<seq<byte>>, controls: seq<seq<WireFrame>>)
    requires parts != [] && controls != []
    ensures Frames(controls[0]) + (Frames(Flatten(controls[1..])) + [Frame(m.opcode, m.received + parts[0] + Flatten(parts[1..]))])
         == Frames(Flatten(controls)) + [Frame(m.opcode, m.received + Flatten(parts))]
  {
    assert m.received + parts[0] + Flatten(parts[1..]) == m.received + Flatten(parts);
    assert Frames(Flatten(controls)) == Frames(controls[0]) + Frames(Flatten(controls[1..]));
  }

  lemma NothingIsReceived(c: Config)
    ensures ReceiveAll(c, None, []) == []
  {}

  lemma FlattenOne<T>(parts: seq<seq<T>>)
    requires |parts| == 1
    ensures Flatten(parts) == parts[0]
  {
    assert parts[1..] == [];
  }

  /** Fragment reassembly: however a binary message within the size limit is split, the parser emits the
      interleaved control frames in place and then one frame with the whole message. */
  lemma FragmentsAreReassembled(
    c: Config, opcode: nat, parts: seq<seq<byte>>, masks: seq<Option<seq<byte>>>, controls: seq<seq<WireFrame>>, next: byte)
    requires |parts| == |masks| == |controls| + 1 && |parts| > 1
    requires TEXT < opcode < 8
    requires ValidMasks(c, masks)
    requires forall g | g in controls :: ControlFrames(c, g)
    requires TotalLength(parts) <= c.maxFrameBytes < 0x8000_0000_0000_0000
    ensures AllRepresentable(Fragmented(opcode, parts, masks, controls))
    ensures Push(c, FRESH, WireAll(Fragmented(opcode, parts, masks, controls)) + [next]).events
         == Frames(Flatten(controls)) + [Frame(opcode, Flatten(parts))]
  {
    hide Drain;
    hide Wire;
    hide ReceiveAll;
    hide Frames;
    hide Flatten;
    hide WithinLimits;
    var frames := Fragmented(opcode, parts, masks, controls);
    FragmentsAreRepresentable(c, parts[1..], masks[1..], controls);
    var first, rest := WireFrame(false, 0, opcode, masks[0], parts[0]), Continuations(parts[1..], masks[1..], controls);
    var m := Message(opcode, parts[0]);
    assert masks[0] in masks;
    assert Receive(c, None, first) == Accepted(Some(m), []);
    assert ValidMasks(c, masks[1..]);
    ContinuationsAreAssembled(c, m, parts[1..], masks[1..], controls);
    OneFrame(c, None, first, rest);
    assert [] + ReceiveAll(c, Some(m), rest) == ReceiveAll(c, Some(m), rest);
    FlattenUnfolds(parts);
    var q := StreamMatchesReference(c, Feed(FRESH, WireAll(frames) + [next]), None, frames, [next]);
    OneByteWaits(c, q);
  }

  lemma FlattenUnfolds<T>(parts: seq<seq<T>>)
    requires parts != []
    ensures Flatten(parts) == parts[0] + Flatten(parts[1..])
  {}

  lemma {:induction false} FragmentsAreRepresentable(
    c: Config, parts: seq<seq<byte>>, masks: seq<Option<seq<byte>>>, controls: seq<seq<WireFrame>>)
    requires |parts| == |masks| == |controls|
    requires ValidMasks(c, masks)
    requires forall g | g in controls :: ControlFrames(c, g)
    requires TotalLength(parts) < 0x8000_0000_0000_0000
    ensures AllRepresentable(Continuations(parts, masks, controls))
    decreases |parts|
  {
    if parts != [] {
      FragmentsAreRepresentable(c, parts[1..], masks[1..], controls[1..]);
      var f := WireFrame(|parts| == 1, 0, CONTINUATION, masks[0], parts[0]);
      assert Representable(f);
      forall g | g in Continuations(parts, masks, controls) ensures Representable(g) {
        assert g in controls[0] || g == f || g in Continuations(parts[1..], masks[1..], controls[1..]);
        assert controls[0] in controls;
      }
    }
  }

  // ----- the encoder -----

  /** Writes one frame into a new buffer, field by field, with a moving offset. */
  method EncodeWebSocketFrame(payload: seq<byte>, opcode: nat, maskKey: Option<seq<byte>>) returns (frame: array<byte>)
    requires opcode < 16 && |payload| < 0x8000_0000_0000_0000
    requires maskKey.Some? ==> |maskKey.value| == 4
    ensures frame[..] == Wire(Encoded(payload, opcode, maskKey))
  {
    hide FirstByte;
    hide SecondByte;
    hide ExtendedLength;
    hide Mask;
    hide Wire;
    ghost var f := Encoded(payload, opcode, maskKey);
    var len := |payload|;
    var headerLen := if maskKey.Some? then 6 else 2;
    var extLenBytes, lenIndicator := 0, len;
    if len > 65535 {
      lenIndicator, extLenBytes := 127, 8;
    } else if len > 125 {
      lenIndicator, extLenBytes := 126, 2;
    }
    EncodedHeader(f, lenIndicator);
    assert KeyAndPayload(f) == if maskKey.Some? then maskKey.value + Mask(payload, maskKey.value) else payload;
    hide KeyAndPayload;
    frame := new byte[headerLen + extLenBytes + len];
    frame[0] := 0x80 | (opcode as byte & 0x0f);
    frame[1] := (if maskKey.Some? then 0x80 else 0x00) | (lenIndicator as byte);
    assert frame[..2] == [FirstByte(f), SecondByte(f)];
    WriteLength(frame, len, extLenBytes);
    WritePayload(frame, 2 + extLenBytes, payload, maskKey);
    WireParts(f);
  }

  /** The length after the two header bytes, if it is extended. */
  method WriteLength(frame: array<byte>, len: nat, extLenBytes: nat)
    requires extLenBytes == (if len > 65535 then 8 else if len > 125 then 2 else 0) && 2 + extLenBytes <= frame.Length
    requires len < 0x8000_0000_0000_0000
    modifies frame
    ensures frame[..2 + extLenBytes] == old(frame[..2]) + ExtendedLength(len)
  {
    hide WriteBE;
    WrittenLength(len, 2);
    WrittenLength(len / 0x1_0000_0000, 4);
    WrittenLength(len % 0x1_0000_0000, 4);
    if extLenBytes == 2 {
      WriteAt(frame, 2, WriteBE(len, 2));
    } else if extLenBytes == 8 {
      WriteAt(frame, 2, WriteBE(len / 0x1_0000_0000, 4) + WriteBE(len % 0x1_0000_0000, 4));
    }
  }

  /** The key, if there is one, and the payload under it, up to the end of the buffer. */
  method WritePayload(frame: array<byte>, offset: nat, payload: seq<byte>, maskKey: Option<seq<byte>>)
    requires maskKey.Some? ==> |maskKey.value| == 4
    requires offset + (if maskKey.Some? then 4 else 0) + |payload| == frame.Length
    modifies frame
    ensures frame[..] == old(frame[..offset]) + (if maskKey.Some? then maskKey.value + Mask(payload, maskKey.value) else payload)
  {
    hide Mask;
    if maskKey.Some? {
      WriteAt(frame, offset, maskKey.value);
      WriteMasked(frame, offset + 4, payload, maskKey.value);
    } else {
      WriteAt(frame, offset, payload);
    }
    assert frame[..frame.Length] == frame[..];
  }

  lemma WireParts(f: WireFrame)
    requires Representable(f)
    ensures Wire(f) == [FirstByte(f), SecondByte(f)] + ExtendedLength(|f.payload|) + KeyAndPayload(f)
  {}

  lemma EncodedHeader(f: WireFrame, lenIndicator: nat)
    requires f.fin && Representable(f) && f.rsv == 0
    requires lenIndicator == if |f.payload| > 65535 then 127 else if |f.payload| > 125 then 126 else |f.payload|
    ensures FirstByte(f) == 0x80 | (f.opcode as byte & 0x0f)
    ensures SecondByte(f) == (if f.mask.Some? then 0x80 else 0x00) | (lenIndicator as byte)
  {
    LowNibble(f.opcode as byte);
  }

  /** Copies bytes into a buffer at an offset and keeps what was written before. */
  method WriteAt(frame: array<byte>, offset: nat, bytes: seq<byte>)
    requires offset + |bytes| <= frame.Length
    modifies frame
    ensures frame[..offset + |bytes|] == old(frame[..offset]) + bytes
  {
    for i := 0 to |bytes|
      invariant frame[..offset] == old(frame[..offset])
      invariant frame[offset..offset + i] == bytes[..i]
    {
      frame[offset + i] := bytes[i];
    }
    var end := offset + |bytes|;
    assert frame[..end] == frame[..offset] + frame[offset..end];
  }

  method WriteMasked(frame: array<byte>, offset: nat, payload: seq<byte>, maskKey: seq<byte>)
    requires offset + |payload| <= frame.Length && |maskKey| == 4
    modifies frame
    ensures frame[..offset + |payload|] == old(frame[..offset]) + Mask(payload, maskKey)
  {
    for i := 0 to |payload|
      invariant frame[..offset] == old(frame[..offset])
      invariant frame[offset..offset + i] == Mask(payload, maskKey)[..i]
    {
      frame[offset + i] := payload[i] ^ maskKey[i % 4];
    }
    var end := offset + |payload|;
    assert frame[offset..end] == Mask(payload, maskKey);
    assert frame[..end] == frame[..offset] + frame[offset..end];
  }
}
