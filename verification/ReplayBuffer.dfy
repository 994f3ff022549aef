/** The bounded replay buffer of one session: it holds the longest suffix of the appended events that fits. */
module ReplayBuffers {

  import opened Wrappers

  datatype OfficialSessionEvent = OfficialSessionEvent(seqNo: int, kind: string, data: Option<string>)

  /** The length in bytes of the serialized event. */
  type SizeFn = OfficialSessionEvent -> nat

  datatype Limits = Limits(capacity: nat, byteCapacity: nat, sizeOf: SizeFn)

  datatype Buffer = Buffer(entries: seq<OfficialSessionEvent>, totalBytes: int, latestSeq: int, minimumResumeSeq: int)

  datatype ReplayResult =
    | Events(events: seq<OfficialSessionEvent>)
    | WindowExceeded(oldestSeq: int, latestSeq: int)
    | WindowUnavailable

  datatype AppendError = BadSequence | NotIncreasing

  const EMPTY_BUFFER := Buffer([], 0, 0, 0)

  const MAX_SAFE_INTEGER := 9007199254740991

  function Max(a: int, b: int): int {
    if a < b then b else a
  }

  // ----- the steps of the source -----

  function Bytes(limits: Limits, events: seq<OfficialSessionEvent>): nat {
    if events == [] then 0 else Bytes(limits, events[..|events| - 1]) + limits.sizeOf(events[|events| - 1])
  }

  predicate Fits(limits: Limits, events: seq<OfficialSessionEvent>) {
    |events| <= limits.capacity && Bytes(limits, events) <= limits.byteCapacity
  }

  lemma {:induction false} BytesSplit(limits: Limits, a: seq<OfficialSessionEvent>, b: seq<OfficialSessionEvent>)
    ensures Bytes(limits, a + b) == Bytes(limits, a) + Bytes(limits, b)
  {
    if b == [] {
      assert a + b == a;
    } else {
      var init, last := b[..|b| - 1], b[|b| - 1];
      BytesSplit(limits, a, init);
      assert (a + b)[..|a + b| - 1] == a + init;
    }
  }

  lemma BytesSnoc(limits: Limits, events: seq<OfficialSessionEvent>, e: OfficialSessionEvent)
    ensures Bytes(limits, events + [e]) == Bytes(limits, events) + limits.sizeOf(e)
  {
    assert (events + [e])[..|events|] == events;
  }

  lemma BytesOfFirst(limits: Limits, events: seq<OfficialSessionEvent>)
    requires events != []
    ensures Bytes(limits, events) == limits.sizeOf(events[0]) + Bytes(limits, events[1..])
  {
    assert events == events[..1] + events[1..];
    BytesSplit(limits, events[..1], events[1..]);
    assert events[..1][..0] == [];
  }

  /** Drop events from the front until the rest fits. */
  function Evict(limits: Limits, b: Buffer): Buffer
    decreases |b.entries|
  {
    if |b.entries| > limits.capacity || b.totalBytes > limits.byteCapacity then
      if b.entries == [] then b
      else
        Evict(limits, Buffer(b.entries[1..], b.totalBytes - limits.sizeOf(b.entries[0]), b.latestSeq,
                             Max(b.minimumResumeSeq, b.entries[0].seqNo)))
    else b
  }

  /** The buffer with one more event, before anything is evicted. */
  function Pushed(limits: Limits, b: Buffer, e: OfficialSessionEvent): Buffer {
    Buffer(b.entries + [e], b.totalBytes + limits.sizeOf(e), e.seqNo,
           if b.latestSeq == 0 then Max(0, e.seqNo - 1) else b.minimumResumeSeq)
  }

  function AppendTo(limits: Limits, b: Buffer, e: OfficialSessionEvent): Result<Buffer, AppendError> {
    if e.seqNo < 1 || e.seqNo > MAX_SAFE_INTEGER then Err(BadSequence)
    else if b.latestSeq != 0 && e.seqNo <= b.latestSeq then Err(NotIncreasing)
    else if limits.sizeOf(e) > limits.byteCapacity then Ok(Buffer([], 0, e.seqNo, e.seqNo))
    else Ok(Evict(limits, Pushed(limits, b, e)))
  }

  function Newer(events: seq<OfficialSessionEvent>, after: int): seq<OfficialSessionEvent> {
    if events == [] then []
    else
      var rest := Newer(events[..|events| - 1], after);
      if events[|events| - 1].seqNo > after then rest + [events[|events| - 1]] else rest
  }

  function ResumeFrom(b: Buffer, after: Option<nat>): ReplayResult {
    match after
    case None => Events(b.entries)
    case Some(a) =>
      if a < b.minimumResumeSeq then
        WindowExceeded(if b.entries == [] then b.latestSeq else b.entries[0].seqNo, b.latestSeq)
      else Events(Newer(b.entries, a))
  }

  // ----- what the buffer holds, said about the whole history -----

  /** How many events the longest fitting suffix leaves out. */
  function Dropped(limits: Limits, history: seq<OfficialSessionEvent>): (k: nat)
    ensures k <= |history| && Fits(limits, history[k..])
    ensures forall j | 0 <= j < k :: !Fits(limits, history[j..])
    decreases |history|
  {
    if Fits(limits, history) then 0
    else
      var k := Dropped(limits, history[1..]);
      assert forall j | 0 < j <= |history| :: history[j..] == history[1..][j - 1..];
      assert history[0..] == history;
      k + 1
  }

  predicate Increasing(events: seq<OfficialSessionEvent>) {
    && (forall i | 0 <= i < |events| :: events[i].seqNo >= 1)
    && forall i, j | 0 <= i < j < |events| :: events[i].seqNo < events[j].seqNo
  }

  /** The smallest position that can be resumed once k events are dropped: just before the first event, or at
      the last dropped one. */
  function MinimumAfter(history: seq<OfficialSessionEvent>, k: nat): int
    requires history != [] && k <= |history|
  {
    Max(history[0].seqNo - 1, if k == 0 then 0 else history[k - 1].seqNo)
  }

  function MinimumResume(limits: Limits, history: seq<OfficialSessionEvent>): int {
    if history == [] then 0 else MinimumAfter(history, Dropped(limits, history))
  }

  /** The buffer after this history: the retention is optimal. */
  function BufferOf(limits: Limits, history: seq<OfficialSessionEvent>): Buffer {
    var retained := history[Dropped(limits, history)..];
    Buffer(retained, Bytes(limits, retained), if history == [] then 0 else history[|history| - 1].seqNo,
           MinimumResume(limits, history))
  }

  lemma {:induction false} EvictKeepsLongest(limits: Limits, history: seq<OfficialSessionEvent>, k: nat, b: Buffer)
    requires Increasing(history) && history != [] && k <= Dropped(limits, history)
    requires b.entries == history[k..] && b.totalBytes == Bytes(limits, b.entries)
    requires b.latestSeq == history[|history| - 1].seqNo
    requires b.minimumResumeSeq == MinimumAfter(history, k)
    ensures Evict(limits, b) == BufferOf(limits, history)
    decreases |history| - k
  {
    hide Bytes;
    hide Dropped;
    var d := Dropped(limits, history);
    if k < d {
      BytesOfFirst(limits, b.entries);
      hide Increasing;
      assert !Fits(limits, b.entries) && b.entries[1..] == history[k + 1..];
      var rest := Buffer(b.entries[1..], b.totalBytes - limits.sizeOf(b.entries[0]), b.latestSeq, Max(b.minimumResumeSeq, b.entries[0].seqNo));
      assert Evict(limits, b) == Evict(limits, rest);
      MinimumGrows(history, k);
      EvictKeepsLongest(limits, history, k + 1, rest);
    } else {
      assert Fits(limits, b.entries);
    }
  }

  lemma MinimumGrows(history: seq<OfficialSessionEvent>, k: nat)
    requires Increasing(history) && k < |history|
    ensures MinimumAfter(history, k + 1) == Max(MinimumAfter(history, k), history[k].seqNo)
  {}

  lemma LongerDoesNotFit(limits: Limits, history: seq<OfficialSessionEvent>, e: OfficialSessionEvent)
    ensures Dropped(limits, history) <= Dropped(limits, history + [e])
  {
    hide Bytes;
    var longer := history + [e];
    forall j | 0 <= j < Dropped(limits, history) ensures !Fits(limits, longer[j..]) {
      assert longer[j..] == history[j..] + [e];
      BytesSnoc(limits, history[j..], e);
    }
  }

  /** Retention is optimal after any history: an append keeps exactly the longest suffix that fits both limits,
      and knows the smallest position that can still be resumed. */
  lemma AppendRetainsLongest(limits: Limits, history: seq<OfficialSessionEvent>, e: OfficialSessionEvent)
    requires Increasing(history + [e]) && e.seqNo <= MAX_SAFE_INTEGER
    ensures AppendTo(limits, BufferOf(limits, history), e) == Ok(BufferOf(limits, history + [e]))
  {
    hide BufferOf;
    LatestIsSmaller(limits, history, e);
    if limits.sizeOf(e) > limits.byteCapacity {
      OversizedIsEmpty(limits, history, e);
    } else {
      PushThenEvict(limits, history, e);
    }
  }

  lemma LatestIsSmaller(limits: Limits, history: seq<OfficialSessionEvent>, e: OfficialSessionEvent)
    requires Increasing(history + [e])
    ensures e.seqNo >= 1 && BufferOf(limits, history).latestSeq < e.seqNo
    ensures BufferOf(limits, history).latestSeq == 0 <==> history == []
  {
    var longer := history + [e];
    assert longer[|history|] == e;
    if history != [] { assert longer[|history| - 1] == history[|history| - 1]; }
  }

  lemma PushThenEvict(limits: Limits, history: seq<OfficialSessionEvent>, e: OfficialSessionEvent)
    requires Increasing(history + [e])
    ensures Evict(limits, Pushed(limits, BufferOf(limits, history), e)) == BufferOf(limits, history + [e])
  {
    hide Evict;
    hide Fits;
    hide Bytes;
    hide Dropped;
    var longer, k := history + [e], Dropped(limits, history);
    BytesSnoc(limits, history[k..], e);
    LongerDoesNotFit(limits, history, e);
    LatestIsSmaller(limits, history, e);
    assert longer[|history|] == e && longer[k..] == history[k..] + [e];
    if history != [] { assert longer[0] == history[0]; }
    if k > 0 { assert longer[k - 1] == history[k - 1]; }
    EvictKeepsLongest(limits, longer, k, Pushed(limits, BufferOf(limits, history), e));
  }

  lemma OversizedIsEmpty(limits: Limits, history: seq<OfficialSessionEvent>, e: OfficialSessionEvent)
    requires Increasing(history + [e]) && limits.sizeOf(e) > limits.byteCapacity
    ensures BufferOf(limits, history + [e]) == Buffer([], 0, e.seqNo, e.seqNo)
  {
    var longer := history + [e];
    OversizedDropsAll(limits, history, e);
    assert longer[|longer| - 1] == e && longer[0].seqNo <= e.seqNo;
    assert longer[|longer|..] == [];
  }

  lemma OversizedDropsAll(limits: Limits, history: seq<OfficialSessionEvent>, e: OfficialSessionEvent)
    requires limits.sizeOf(e) > limits.byteCapacity
    ensures Dropped(limits, history + [e]) == |history| + 1
  {
    hide Bytes;
    var longer := history + [e];
    forall j | 0 <= j <= |history| ensures !Fits(limits, longer[j..]) {
      assert longer[j..] == history[j..] + [e];
      BytesSnoc(limits, history[j..], e);
    }
  }

  lemma AppendRejects(limits: Limits, history: seq<OfficialSessionEvent>, e: OfficialSessionEvent)
    requires Increasing(history)
    ensures AppendTo(limits, BufferOf(limits, history), e).Ok? <==> Increasing(history + [e]) && e.seqNo <= MAX_SAFE_INTEGER
    ensures AppendTo(limits, BufferOf(limits, history), e) == Err(BadSequence) <==> !(0 < e.seqNo <= MAX_SAFE_INTEGER)
  {
    var longer := history + [e];
    if history != [] {
      var last := history[|history| - 1];
      assert longer[|history| - 1] == last && longer[|history|] == e;
    } else {
      assert longer[0] == e;
    }
  }

  // ----- resume -----

  lemma {:induction false} NewerSplit(a: seq<OfficialSessionEvent>, b: seq<OfficialSessionEvent>, after: int)
    ensures Newer(a + b, after) == Newer(a, after) + Newer(b, after)
  {
    if b == [] {
      assert a + b == a;
    } else {
      NewerSplit(a, b[..|b| - 1], after);
      assert (a + b)[..|a + b| - 1] == a + b[..|b| - 1];
    }
  }

  lemma {:induction false} NothingNewer(events: seq<OfficialSessionEvent>, after: int)
    requires forall i | 0 <= i < |events| :: events[i].seqNo <= after
    ensures Newer(events, after) == []
  {
    if events != [] { NothingNewer(events[..|events| - 1], after); }
  }

  /** The position is before the first event, so earlier events may be missing, or before a dropped event. */
  ghost predicate Missed(limits: Limits, history: seq<OfficialSessionEvent>, after: int)
    requires history != []
  {
    || after < history[0].seqNo - 1
    || exists i | 0 <= i < Dropped(limits, history) :: history[i].seqNo > after
  }

  lemma MissedBelowMinimum(limits: Limits, history: seq<OfficialSessionEvent>, after: nat)
    requires Increasing(history) && history != []
    ensures Missed(limits, history, after) <==> after < MinimumResume(limits, history)
  {
    hide Dropped;
    hide Fits;
    var k := Dropped(limits, history);
    if k > 0 && after < history[k - 1].seqNo { assert Missed(limits, history, after); }
  }

  /** The longest part of the history, to its end, that fits both limits. */
  function Retained(limits: Limits, history: seq<OfficialSessionEvent>): (r: seq<OfficialSessionEvent>)
    ensures Fits(limits, r) && |r| <= |history| && r == history[|history| - |r|..]
    ensures forall j | 0 <= j < |history| - |r| :: !Fits(limits, history[j..])
  {
    history[Dropped(limits, history)..]
  }

  /** Without a position, the answer is all that the limits allow to keep. */
  lemma ResumeFromStart(limits: Limits, history: seq<OfficialSessionEvent>)
    ensures ResumeFrom(BufferOf(limits, history), None) == Events(Retained(limits, history))
  {
    hide Dropped;
  }

  /** A reset is given exactly when something was missed, with the first retained number and the last one; otherwise the
      answer is exactly the newer events. */
  lemma ResumeIsExact(limits: Limits, history: seq<OfficialSessionEvent>, after: nat)
    requires Increasing(history) && history != []
    ensures var answer := ResumeFrom(BufferOf(limits, history), Some(after));
            && (answer.Events? <==> !Missed(limits, history, after))
            && (answer.Events? ==> answer.events == Newer(history, after))
            && (!answer.Events? ==>
                  var kept, last := Retained(limits, history), history[|history| - 1].seqNo;
                  answer == WindowExceeded(if kept == [] then last else kept[0].seqNo, last))
  {
    hide Dropped;
    hide Fits;
    hide Bytes;
    hide Missed;
    hide Newer;
    var k := Dropped(limits, history);
    MissedBelowMinimum(limits, history, after);
    if after >= MinimumResume(limits, history) {
      NothingNewer(history[..k], after);
      assert history == history[..k] + history[k..];
      NewerSplit(history[..k], history[k..], after);
    }
  }

  // ----- the object -----

  class BoundedReplayBuffer {
    const limits: Limits
    var entries: seq<OfficialSessionEvent>
    var totalBytes: int
    var latestSeq: int
    var minimumResumeSeq: int
    ghost var history: seq<OfficialSessionEvent>

    function View(): Buffer
      reads this
    {
      Buffer(entries, totalBytes, latestSeq, minimumResumeSeq)
    }

    /** The fields hold the longest fitting suffix of everything that was appended. */
    ghost predicate Valid()
      reads this
    {
      Increasing(history) && View() == BufferOf(limits, history)
    }

    constructor (limits: Limits)
      ensures Valid() && this.limits == limits && history == [] && View() == EMPTY_BUFFER
    {
      this.limits := limits;
      entries, totalBytes, latestSeq, minimumResumeSeq, history := [], 0, 0, 0, [];
    }

    method Append(e: OfficialSessionEvent) returns (r: Result<(), AppendError>)
      requires Valid()
      modifies this
      ensures Valid()
      ensures r.Ok? <==> Increasing(old(history) + [e]) && e.seqNo <= MAX_SAFE_INTEGER
      ensures history == if r.Ok? then old(history) + [e] else old(history)
      ensures AppendTo(limits, old(View()), e) == if r.Ok? then Ok(View()) else Err(r.error)
      ensures if r.Ok? then r == Ok(()) else View() == old(View())
    {
      hide BufferOf;
      hide Evict;
      AppendRejects(limits, history, e);
      if e.seqNo < 1 || e.seqNo > MAX_SAFE_INTEGER { return Err(BadSequence); }
      if latestSeq != 0 && e.seqNo <= latestSeq { return Err(NotIncreasing); }
      AppendRetainsLongest(limits, history, e);
      history := history + [e];
      var bytes := limits.sizeOf(e);
      if latestSeq == 0 {
        minimumResumeSeq := Max(0, e.seqNo - 1);
      }
      latestSeq := e.seqNo;
      if bytes > limits.byteCapacity {
        entries, totalBytes, minimumResumeSeq := [], 0, e.seqNo;
        return Ok(());
      }
      entries, totalBytes := entries + [e], totalBytes + bytes;
      assert View() == Pushed(limits, old(View()), e);
      EvictOldest();
      return Ok(());
    }

    method EvictOldest()
      modifies this`entries, this`totalBytes, this`minimumResumeSeq
      ensures View() == Evict(limits, old(View()))
    {
      while |entries| > limits.capacity || totalBytes > limits.byteCapacity
        invariant Evict(limits, View()) == Evict(limits, old(View()))
        decreases |entries|
      {
        if entries == [] { break; }
        var removed := entries[0];
        entries, totalBytes := entries[1..], totalBytes - limits.sizeOf(removed);
        minimumResumeSeq := Max(minimumResumeSeq, removed.seqNo);
      }
    }

    /** The answer is exact about everything that was ever appended. */
    method Resume(after: Option<nat>) returns (r: ReplayResult)
      requires Valid()
      ensures r == ResumeFrom(View(), after)
      ensures after.None? ==> r == Events(Retained(limits, history))
      ensures after.Some? && history == [] ==> r == Events([])
      ensures after.Some? && history != [] ==>
                && (r.Events? <==> !Missed(limits, history, after.value))
                && (r.Events? ==> r.events == Newer(history, after.value))
    {
      ResumeFromStart(limits, history);
      if after.None? { return Events(entries); }
      if history != [] { ResumeIsExact(limits, history, after.value); }
      if after.value < minimumResumeSeq {
        return WindowExceeded(if entries == [] then latestSeq else entries[0].seqNo, latestSeq);
      }
      return Events(Newer(entries, after.value));
    }
  }
}
