/** The sessions' replay buffers behind the deduplicating bridge: a resumed session gets exactly the events that
    it has not seen, or a reset. */
module SessionEvents {

  import opened Wrappers
  import opened ReplayBuffers

  datatype Slot = Slot(sessionId: string, buffer: Buffer)

  /** The buffers in insertion order, least recently used first. */
  type Table = seq<Slot>

  datatype Config = Config(limits: Limits, maxSessions: nat)

  // ----- the table of the core -----

  function SlotIndex(table: Table, id: string): (i: nat)
    ensures i <= |table|
    ensures i < |table| ==> table[i].sessionId == id
    ensures forall j | 0 <= j < i :: table[j].sessionId != id
  {
    if table == [] then 0 else if table[0].sessionId == id then 0 else 1 + SlotIndex(table[1..], id)
  }

  predicate HasSlot(table: Table, id: string) {
    SlotIndex(table, id) < |table|
  }

  function Without(table: Table, id: string): Table {
    var i := SlotIndex(table, id);
    if i < |table| then table[..i] + table[i + 1..] else table
  }

  function Evicted(config: Config, table: Table): Table {
    if |table| > 0 && |table| >= config.maxSessions then table[1..] else table
  }

  /** The buffer that the next event of a session goes to. */
  function BufferFor(table: Table, id: string): Buffer {
    var i := SlotIndex(table, id);
    if i < |table| then table[i].buffer else EMPTY_BUFFER
  }

  /** The other sessions, after the one in question was taken out or made room for. */
  function Others(config: Config, table: Table, id: string): Table {
    if HasSlot(table, id) then Without(table, id) else Evicted(config, table)
  }

  /** An event refreshes its session even when the buffer refuses it. */
  function OnOfficialEvent(config: Config, table: Table, id: string, e: OfficialSessionEvent): (Table, Result<(), AppendError>) {
    match AppendTo(config.limits, BufferFor(table, id), e)
    case Ok(b) => (Others(config, table, id) + [Slot(id, b)], Ok(()))
    case Err(error) => (Others(config, table, id) + [Slot(id, BufferFor(table, id))], Err(error))
  }

  function Attach(table: Table, id: string, after: Option<nat>): (Table, ReplayResult) {
    if !HasSlot(table, id) then (table, if after.Some? then WindowUnavailable else Events([]))
    else
      var b := BufferFor(table, id);
      (Without(table, id) + [Slot(id, b)], ResumeFrom(b, after))
  }

  // ----- the bridge -----

  /** One item of a log; a field is None when it is missing or of the wrong type. */
  datatype LogItem = NotAnObject | Item(seqNo: Option<int>, kind: Option<string>, data: Option<string>)

  datatype IngestError = BadEnvelope | BadItem | Refused(error: AppendError)

  predicate WellFormed(item: LogItem) {
    && item.Item?
    && item.seqNo.Some? && 1 <= item.seqNo.value <= MAX_SAFE_INTEGER
    && item.kind.Some? && item.kind.value != ""
  }

  function EventOf(item: LogItem): OfficialSessionEvent
    requires WellFormed(item)
  {
    OfficialSessionEvent(item.seqNo.value, item.kind.value, item.data)
  }

  /** The local state of one ingestion. */
  datatype Progress = Progress(table: Table, accepted: seq<OfficialSessionEvent>, lastSeq: int, error: Option<IngestError>)

  function IngestItem(config: Config, id: string, p: Progress, item: LogItem): Progress {
    if p.error.Some? then p
    else if !WellFormed(item) then p.(error := Some(BadItem))
    else
      var e := EventOf(item);
      if e.seqNo <= p.lastSeq then p
      else
        match OnOfficialEvent(config, p.table, id, e)
        case (table, Ok(_)) => Progress(table, p.accepted + [e], e.seqNo, None)
        case (table, Err(error)) => p.(table := table, error := Some(Refused(error)))
  }

  function IngestItems(config: Config, id: string, start: Progress, items: seq<LogItem>): Progress {
    if items == [] then start
    else IngestItem(config, id, IngestItems(config, id, start, items[..|items| - 1]), items[|items| - 1])
  }

  /** The core's buffers, the bridge's positions, and the events accepted since each session was last forgotten. */
  datatype State = State(table: Table, lastSeqBySession: map<string, int>, logs: map<string, seq<OfficialSessionEvent>>)

  function LastSeq(s: State, id: string): int {
    if id in s.lastSeqBySession then s.lastSeqBySession[id] else 0
  }

  function LogOf(s: State, id: string): seq<OfficialSessionEvent> {
    if id in s.logs then s.logs[id] else []
  }

  function IngestProgress(config: Config, s: State, id: string, items: seq<LogItem>): Progress {
    IngestItems(config, id, Progress(s.table, [], LastSeq(s, id), None), items)
  }

  /** The position of the session is stored only when the whole payload went through. */
  function Ingest(config: Config, s: State, id: string, payload: Option<seq<LogItem>>): (State, Result<nat, IngestError>) {
    if id == "" || payload.None? then (s, Err(BadEnvelope))
    else
      var p := IngestProgress(config, s, id, payload.value);
      var logs := s.logs[id := LogOf(s, id) + p.accepted];
      if p.error.Some? then (State(p.table, s.lastSeqBySession, logs), Err(p.error.value))
      else (State(p.table, s.lastSeqBySession[id := p.lastSeq], logs), Ok(|p.accepted|))
  }

  function Forget(s: State, id: string): State {
    State(Without(s.table, id), s.lastSeqBySession - {id}, s.logs - {id})
  }

  // ----- what every run keeps -----

  function LastOf(log: seq<OfficialSessionEvent>): int {
    if log == [] then 0 else log[|log| - 1].seqNo
  }

  /** A buffer that holds what its limits allow of some last part of the log. */
  ghost predicate BuffersTailOf(limits: Limits, b: Buffer, log: seq<OfficialSessionEvent>) {
    exists k | 0 <= k < |log| :: b == BufferOf(limits, log[k..])
  }

  predicate Legal(log: seq<OfficialSessionEvent>) {
    Increasing(log) && forall i | 0 <= i < |log| :: log[i].seqNo <= MAX_SAFE_INTEGER
  }

  ghost predicate Buffered(config: Config, table: Table, logs: map<string, seq<OfficialSessionEvent>>) {
    && (forall i, j | 0 <= i < j < |table| :: table[i].sessionId != table[j].sessionId)
    && (forall id | id in logs :: Legal(logs[id]))
    && forall i | 0 <= i < |table| ::
         table[i].sessionId in logs && BuffersTailOf(config.limits, table[i].buffer, logs[table[i].sessionId])
  }

  ghost predicate Synced(config: Config, s: State) {
    && Buffered(config, s.table, s.logs)
    && forall id :: LastSeq(s, id) == LastOf(LogOf(s, id))
  }

  lemma OthersAreBuffered(config: Config, table: Table, logs: map<string, seq<OfficialSessionEvent>>, id: string)
    requires Buffered(config, table, logs)
    ensures Buffered(config, Others(config, table, id), logs) && Buffered(config, Without(table, id), logs)
    ensures forall i | 0 <= i < |Others(config, table, id)| :: Others(config, table, id)[i].sessionId != id
    ensures forall i | 0 <= i < |Without(table, id)| :: Without(table, id)[i].sessionId != id
  {
    hide BuffersTailOf;
    hide Legal;
    var i := SlotIndex(table, id);
    if i < |table| {
      var w := Without(table, id);
      forall j | 0 <= j < |w| ensures w[j] == table[if j < i then j else j + 1] {}
    }
  }

  lemma BuffersRefreshed(config: Config, others: Table, logs: map<string, seq<OfficialSessionEvent>>, id: string,
                         b: Buffer, log: seq<OfficialSessionEvent>)
    requires Buffered(config, others, logs) && (forall i | 0 <= i < |others| :: others[i].sessionId != id)
    requires Legal(log) && BuffersTailOf(config.limits, b, log)
    ensures Buffered(config, others + [Slot(id, b)], logs[id := log])
  {
    hide BuffersTailOf;
    hide Legal;
  }

  /** One more event: the buffer of a tail becomes the buffer of the longer tail. */
  lemma TailAppend(limits: Limits, b: Buffer, log: seq<OfficialSessionEvent>, e: OfficialSessionEvent)
    requires BuffersTailOf(limits, b, log) || b == EMPTY_BUFFER
    requires Legal(log + [e])
    ensures var r := AppendTo(limits, b, e); r.Ok? && BuffersTailOf(limits, r.value, log + [e])
  {
    hide BufferOf;
    hide AppendTo;
    var longer, k := log + [e], |log|;
    EmptyHistory(limits);
    if BuffersTailOf(limits, b, log) {
      k :| 0 <= k < |log| && b == BufferOf(limits, log[k..]);
    } else {
      assert log[k..] == [];
    }
    assert longer[k..] == log[k..] + [e] && longer[|log|] == e;
    TailIncreases(longer, k);
    AppendRetainsLongest(limits, log[k..], e);
    assert BufferOf(limits, longer[k..]) == AppendTo(limits, b, e).value;
  }

  /** An accepted event extends the buffered part of the log, or starts a new one. */
  lemma EventExtendsTail(config: Config, table: Table, logs: map<string, seq<OfficialSessionEvent>>, id: string, e: OfficialSessionEvent)
    requires Buffered(config, table, logs)
    requires var log := if id in logs then logs[id] else []; Legal(log + [e])
    ensures var log := if id in logs then logs[id] else [];
            var (after, r) := OnOfficialEvent(config, table, id, e);
            r.Ok? && Buffered(config, after, logs[id := log + [e]])
  {
    hide BuffersTailOf;
    hide AppendTo;
    hide Legal;
    var log := if id in logs then logs[id] else [];
    TailAppend(config.limits, BufferFor(table, id), log, e);
    OthersAreBuffered(config, table, logs, id);
    BuffersRefreshed(config, Others(config, table, id), logs, id, AppendTo(config.limits, BufferFor(table, id), e).value, log + [e]);
  }

  lemma EmptyHistory(limits: Limits)
    ensures BufferOf(limits, []) == EMPTY_BUFFER
  {}

  lemma TailIncreases(log: seq<OfficialSessionEvent>, k: nat)
    requires Legal(log) && k <= |log|
    ensures Increasing(log[k..])
  {}

  /** What holds while a payload is being ingested. */
  ghost predicate InStep(config: Config, s: State, id: string, p: Progress) {
    && p.lastSeq == LastOf(LogOf(s, id) + p.accepted)
    && Buffered(config, p.table, s.logs[id := LogOf(s, id) + p.accepted])
    && p.error in {None, Some(BadItem)}
  }

  lemma StepKeepsStep(config: Config, s: State, id: string, p: Progress, item: LogItem)
    requires InStep(config, s, id, p)
    ensures InStep(config, s, id, IngestItem(config, id, p, item))
  {
    hide Buffered;
    hide OnOfficialEvent;
    if p.error.None? && WellFormed(item) && item.seqNo.value > p.lastSeq {
      var e, log := EventOf(item), LogOf(s, id) + p.accepted;
      var logs := s.logs[id := log];
      assert log + [e] == LogOf(s, id) + (p.accepted + [e]);
      LogGrows(config, p.table, logs, id, e);
      EventExtendsTail(config, p.table, logs, id, e);
      assert logs[id := log + [e]] == s.logs[id := log + [e]];
    }
  }

  lemma LogGrows(config: Config, table: Table, logs: map<string, seq<OfficialSessionEvent>>, id: string, e: OfficialSessionEvent)
    requires Buffered(config, table, logs) && id in logs
    requires LastOf(logs[id]) < e.seqNo && 1 <= e.seqNo <= MAX_SAFE_INTEGER
    ensures Legal(logs[id] + [e])
  {
    var log := logs[id];
    assert Legal(log);
    forall i | 0 <= i < |log| ensures log[i].seqNo < e.seqNo {
      assert log[i].seqNo <= log[|log| - 1].seqNo;
    }
  }

  lemma StartIsInStep(config: Config, s: State, id: string)
    requires Synced(config, s)
    ensures InStep(config, s, id, Progress(s.table, [], LastSeq(s, id), None))
  {
    hide BuffersTailOf;
    assert LogOf(s, id) + [] == LogOf(s, id);
  }

  lemma {:induction false} IngestInStep(config: Config, s: State, id: string, items: seq<LogItem>)
    requires Synced(config, s)
    ensures InStep(config, s, id, IngestProgress(config, s, id, items))
  {
    hide InStep;
    hide IngestItem;
    hide Synced;
    if items == [] {
      StartIsInStep(config, s, id);
    } else {
      IngestInStep(config, s, id, items[..|items| - 1]);
      StepKeepsStep(config, s, id, IngestProgress(config, s, id, items[..|items| - 1]), items[|items| - 1]);
    }
  }

  /** How many items come before the first malformed one. */
  function FirstMalformed(items: seq<LogItem>): (m: nat)
    ensures m <= |items| && (m < |items| ==> !WellFormed(items[m]))
    ensures forall i | 0 <= i < m :: WellFormed(items[i])
  {
    if items == [] || !WellFormed(items[0]) then 0 else 1 + FirstMalformed(items[1..])
  }

  /** None of the first n items is newer than the position. */
  predicate NothingNew(items: seq<LogItem>, n: nat, position: int)
    requires n <= |items| && forall i | 0 <= i < n :: WellFormed(items[i])
  {
    forall i | 0 <= i < n :: EventOf(items[i]).seqNo <= position
  }

  /** A payload of well-formed items, or one with nothing new before its first malformed item. */
  predicate Harmless(s: State, id: string, payload: Option<seq<LogItem>>) {
    id != "" && payload.Some? ==>
      var m := FirstMalformed(payload.value);
      m == |payload.value| || NothingNew(payload.value, m, LastSeq(s, id))
  }

  /** What an ingestion of the first n items comes to, from the items alone; m is the place of the first malformed one. */
  predicate ComesTo(p: Progress, items: seq<LogItem>, n: nat, m: nat, position: int)
    requires n <= |items| && m <= |items| && forall i | 0 <= i < m :: WellFormed(items[i])
  {
    && (p.error.None? <==> n <= m)
    && p.lastSeq >= position
    && (forall i | 0 <= i < n && i < m :: EventOf(items[i]).seqNo <= p.lastSeq)
    && (p.accepted == [] <==> NothingNew(items, if n <= m then n else m, position))
    && (p.accepted == [] ==> p.lastSeq == position)
  }

  lemma {:induction false} IngestedUpTo(config: Config, s: State, id: string, items: seq<LogItem>, n: nat)
    requires Synced(config, s) && n <= |items|
    ensures ComesTo(IngestProgress(config, s, id, items[..n]), items, n, FirstMalformed(items), LastSeq(s, id))
    decreases n
  {
    hide Synced;
    hide IngestItem;
    if n > 0 {
      hide ComesTo;
      IngestedUpTo(config, s, id, items, n - 1);
      assert items[..n][..n - 1] == items[..n - 1] && items[..n][n - 1] == items[n - 1];
      IngestInStep(config, s, id, items[..n]);
      OneMoreItem(config, id, IngestProgress(config, s, id, items[..n - 1]), items, n, FirstMalformed(items), LastSeq(s, id));
    }
  }

  lemma OneMoreItem(config: Config, id: string, p: Progress, items: seq<LogItem>, n: nat, m: nat, position: int)
    requires 0 < n <= |items| && m <= |items| && (m < |items| ==> !WellFormed(items[m]))
    requires forall i | 0 <= i < m :: WellFormed(items[i])
    requires ComesTo(p, items, n - 1, m, position)
    requires IngestItem(config, id, p, items[n - 1]).error in {None, Some(BadItem)}
    ensures ComesTo(IngestItem(config, id, p, items[n - 1]), items, n, m, position)
  {
    hide OnOfficialEvent;
    if n <= m {
      assert NothingNew(items, n, position) <==> NothingNew(items, n - 1, position) && EventOf(items[n - 1]).seqNo <= position;
    }
  }

  /** The exact condition, on the payload alone: the bridge and the buffers stay in step if and only if every item is
      well-formed, or nothing before the first malformed item is new. */
  lemma IngestKeepsSync(config: Config, s: State, id: string, payload: Option<seq<LogItem>>)
    requires Synced(config, s)
    ensures var (after, r) := Ingest(config, s, id, payload);
            && (Synced(config, after) <==> Harmless(s, id, payload))
            && (r.Ok? <==> id != "" && payload.Some? && forall i | 0 <= i < |payload.value| :: WellFormed(payload.value[i]))
            && (r.Err? ==> r.error in {BadEnvelope, BadItem})
  {
    hide Buffered;
    if id != "" && payload.Some? {
      IngestInStep(config, s, id, payload.value);
      IngestedUpTo(config, s, id, payload.value, |payload.value|);
      assert payload.value[..|payload.value|] == payload.value;
      var p := IngestProgress(config, s, id, payload.value);
      hide IngestProgress;
      var (after, r) := Ingest(config, s, id, payload);
      if p.accepted == [] { assert LogOf(s, id) + [] == LogOf(s, id); }
      forall other | other != id ensures LastSeq(after, other) == LastOf(LogOf(after, other)) {
        assert LastSeq(s, other) == LastOf(LogOf(s, other));
      }
      if p.error.Some? && p.accepted != [] {
        AcceptedIsNewer(config, s, id, payload.value);
        assert LastSeq(after, id) == LastSeq(s, id) < LastOf(LogOf(after, id));
      }
    }
  }

  lemma AcceptedIsNewer(config: Config, s: State, id: string, items: seq<LogItem>)
    requires Synced(config, s)
    requires IngestProgress(config, s, id, items).accepted != []
    ensures IngestProgress(config, s, id, items).lastSeq > LastSeq(s, id)
  {
    IngestInStep(config, s, id, items);
    var p := IngestProgress(config, s, id, items);
    var log := LogOf(s, id) + p.accepted;
    assert Legal(s.logs[id := log][id]);
    assert LastSeq(s, id) == LastOf(LogOf(s, id));
    if LogOf(s, id) != [] { assert log[|LogOf(s, id)| - 1] == LogOf(s, id)[|LogOf(s, id)| - 1]; }
  }

  /** After a malformed item that follows something new, the bridge has lost step: a payload that starts again
      with events it has already passed on is refused, and nothing of it is accepted. */
  lemma ResendIsRefused(config: Config, s: State, id: string, items: seq<LogItem>, resent: seq<LogItem>)
    requires Synced(config, s) && id != "" && FirstMalformed(items) < |items|
    requires resent != [] && WellFormed(resent[0]) && LastSeq(s, id) < EventOf(resent[0]).seqNo
    requires exists i | 0 <= i < FirstMalformed(items) :: EventOf(resent[0]).seqNo <= EventOf(items[i]).seqNo
    ensures var (torn, _) := Ingest(config, s, id, Some(items));
            var (after, r) := Ingest(config, torn, id, Some(resent));
            && r == Err(Refused(NotIncreasing)) && LogOf(after, id) == LogOf(torn, id)
  {
    hide Synced;
    hide Ingest;
    hide IngestProgress;
    IngestedUpTo(config, s, id, items, |items|);
    assert items[..|items|] == items;
    RefusedWhereBrokenOff(config, s, id, items, resent);
  }

  lemma RefusedWhereBrokenOff(config: Config, s: State, id: string, items: seq<LogItem>, resent: seq<LogItem>)
    requires Synced(config, s) && id != ""
    requires IngestProgress(config, s, id, items).error.Some?
    requires resent != [] && WellFormed(resent[0])
    requires LastSeq(s, id) < resent[0].seqNo.value <= IngestProgress(config, s, id, items).lastSeq
    ensures var (torn, _) := Ingest(config, s, id, Some(items));
            var (after, r) := Ingest(config, torn, id, Some(resent));
            && r == Err(Refused(NotIncreasing)) && LogOf(after, id) == LogOf(torn, id)
  {
    hide BuffersTailOf;
    hide BufferOf;
    var (torn, _) := Ingest(config, s, id, Some(items));
    var p := IngestProgress(config, s, id, items);
    IngestInStep(config, s, id, items);
    var start := Progress(torn.table, [], LastSeq(torn, id), None);
    assert p.accepted != [];
    TornBuffer(config, s, id, items);
    FirstItem(config, id, start, resent, 1);
    FirstItem(config, id, start, resent, |resent|);
    assert LogOf(torn, id) + [] == LogOf(torn, id);
  }

  /** The buffer of the session ends where the ingestion stopped. */
  lemma TornBuffer(config: Config, s: State, id: string, items: seq<LogItem>)
    requires Synced(config, s)
    requires IngestProgress(config, s, id, items).lastSeq > LastSeq(s, id)
    ensures BufferFor(IngestProgress(config, s, id, items).table, id).latestSeq == IngestProgress(config, s, id, items).lastSeq
  {
    StartIsInStep(config, s, id);
    LastSlotIsLatest(config, s, id, items);
  }

  lemma {:induction false} LastSlotIsLatest(config: Config, s: State, id: string, items: seq<LogItem>)
    requires Synced(config, s)
    ensures var p := IngestProgress(config, s, id, items);
            p.accepted != [] || p.lastSeq == LastSeq(s, id)
    ensures var p := IngestProgress(config, s, id, items);
            p.accepted != [] ==> BufferFor(p.table, id).latestSeq == p.lastSeq
    decreases |items|
  {
    hide Synced;
    hide AppendTo;
    if items != [] {
      var init, item := items[..|items| - 1], items[|items| - 1];
      LastSlotIsLatest(config, s, id, init);
      var p, q := IngestProgress(config, s, id, init), IngestProgress(config, s, id, items);
      IngestInStep(config, s, id, init);
      if q != p && q.error.None? {
        var e := EventOf(item);
        AppendedIsLatest(config.limits, BufferFor(p.table, id), e);
        NewSlotIsFound(config, s, id, p, e);
      } else if q.table != p.table {
        assert q.error.value.Refused?;
        IngestInStep(config, s, id, items);
        assert false;
      }
    }
  }

  lemma AppendedIsLatest(limits: Limits, b: Buffer, e: OfficialSessionEvent)
    ensures AppendTo(limits, b, e).Ok? ==> AppendTo(limits, b, e).value.latestSeq == e.seqNo
  {
    EvictKeepsLatest(limits, Pushed(limits, b, e));
  }

  lemma {:induction false} EvictKeepsLatest(limits: Limits, b: Buffer)
    ensures Evict(limits, b).latestSeq == b.latestSeq
    decreases |b.entries|
  {
    if b.entries != [] {
      EvictKeepsLatest(limits, Buffer(b.entries[1..], b.totalBytes - limits.sizeOf(b.entries[0]), b.latestSeq,
                                      Max(b.minimumResumeSeq, b.entries[0].seqNo)));
    }
  }

  lemma NewSlotIsFound(config: Config, s: State, id: string, p: Progress, e: OfficialSessionEvent)
    requires InStep(config, s, id, p) && AppendTo(config.limits, BufferFor(p.table, id), e).Ok?
    ensures var (table, _) := OnOfficialEvent(config, p.table, id, e);
            BufferFor(table, id) == AppendTo(config.limits, BufferFor(p.table, id), e).value
  {
    hide BuffersTailOf;
    hide AppendTo;
    OthersAreBuffered(config, p.table, s.logs[id := LogOf(s, id) + p.accepted], id);
    var (table, _) := OnOfficialEvent(config, p.table, id, e);
    assert table[|table| - 1].sessionId == id;
  }

  lemma {:induction false} FirstItem(config: Config, id: string, start: Progress, items: seq<LogItem>, n: nat)
    requires 0 < n <= |items| && start.error.None? && WellFormed(items[0])
    requires start.lastSeq < items[0].seqNo.value <= BufferFor(start.table, id).latestSeq
    ensures var p := IngestItems(config, id, start, items[..n]);
            p.error == Some(Refused(NotIncreasing)) && p.accepted == start.accepted
    ensures n == |items| ==> items[..n] == items
    decreases n
  {
    var init := items[..n][..n - 1];
    if n > 1 {
      assert init == items[..n - 1];
      FirstItem(config, id, start, items, n - 1);
    } else {
      assert init == [];
    }
  }

  // ----- whole runs -----

  datatype Event =
    | IngestPayload(id: string, payload: Option<seq<LogItem>>)
    | AttachTo(id: string, after: Option<nat>)
    | ForgetSession(id: string)

  function Step(config: Config, s: State, ev: Event): State {
    match ev
    case IngestPayload(id, payload) => Ingest(config, s, id, payload).0
    case AttachTo(id, after) => s.(table := Attach(s.table, id, after).0)
    case ForgetSession(id) => Forget(s, id)
  }

  lemma ForgetKeepsSync(config: Config, s: State, id: string)
    requires Synced(config, s)
    ensures Synced(config, Forget(s, id))
  {
    hide BuffersTailOf;
    hide Legal;
    OthersAreBuffered(config, s.table, s.logs, id);
    var after := Forget(s, id);
    forall other ensures LastSeq(after, other) == LastOf(LogOf(after, other)) {
      assert LastSeq(s, other) == LastOf(LogOf(s, other));
    }
  }

  lemma AttachKeepsSync(config: Config, s: State, id: string, after: Option<nat>)
    requires Synced(config, s)
    ensures Synced(config, s.(table := Attach(s.table, id, after).0))
  {
    hide BuffersTailOf;
    hide Legal;
    if HasSlot(s.table, id) {
      OthersAreBuffered(config, s.table, s.logs, id);
      BuffersRefreshed(config, Without(s.table, id), s.logs, id, BufferFor(s.table, id), s.logs[id]);
      assert s.logs[id := s.logs[id]] == s.logs;
      var next := s.(table := Attach(s.table, id, after).0);
      forall other ensures LastSeq(next, other) == LastOf(LogOf(next, other)) {
        assert LastSeq(s, other) == LastOf(LogOf(s, other));
      }
    }
  }

  /** The buffer of the session holds what its limits allow of the log from this place on. */
  predicate StartsAt(config: Config, s: State, id: string, start: nat) {
    start < |LogOf(s, id)| && BufferFor(s.table, id) == BufferOf(config.limits, LogOf(s, id)[start..])
  }

  /** An answer with events is exactly the accepted events after the position, in order; a reset is given exactly when
      the session has no buffer, or when the position is before the events that its buffer has been through, or
      before one that it has dropped. */
  lemma AttachIsExact(config: Config, s: State, id: string, after: nat, start: nat)
    requires Synced(config, s) && (HasSlot(s.table, id) ==> StartsAt(config, s, id, start))
    ensures var (_, answer) := Attach(s.table, id, Some(after));
            && (answer.Events? ==> answer.events == Newer(LogOf(s, id), after))
            && (answer.WindowUnavailable? <==> !HasSlot(s.table, id))
            && (answer.WindowExceeded? <==> HasSlot(s.table, id) && Missed(config.limits, LogOf(s, id)[start..], after))
  {
    hide ResumeFrom;
    hide BufferOf;
    hide Missed;
    hide Newer;
    if HasSlot(s.table, id) {
      LogIsLegal(config, s, id);
      TailAnswers(config.limits, LogOf(s, id), start, after);
    }
  }

  /** The buffer of a last part of the log answers for the whole log. */
  lemma TailAnswers(limits: Limits, log: seq<OfficialSessionEvent>, start: nat, after: nat)
    requires Legal(log) && start < |log|
    ensures var answer := ResumeFrom(BufferOf(limits, log[start..]), Some(after));
            && (answer.Events? ==> answer.events == Newer(log, after))
            && !answer.WindowUnavailable?
            && (answer.WindowExceeded? <==> Missed(limits, log[start..], after))
  {
    hide BufferOf;
    hide Missed;
    hide Newer;
    TailIncreases(log, start);
    ResumeIsExact(limits, log[start..], after);
    if ResumeFrom(BufferOf(limits, log[start..]), Some(after)).Events? {
      NothingBefore(limits, log, start, after);
      NothingNewer(log[..start], after);
      assert log == log[..start] + log[start..];
      NewerSplit(log[..start], log[start..], after);
    }
  }

  /** An attach without a position answers with all that the limits allow to keep of the buffered part, or with nothing
      when the session has no buffer. */
  lemma FirstAttachIsExact(config: Config, s: State, id: string, start: nat)
    requires Synced(config, s) && (HasSlot(s.table, id) ==> StartsAt(config, s, id, start))
    ensures Attach(s.table, id, None).1
         == Events(if HasSlot(s.table, id) then Retained(config.limits, LogOf(s, id)[start..]) else [])
  {
    hide BufferOf;
    hide Synced;
    if HasSlot(s.table, id) { ResumeFromStart(config.limits, LogOf(s, id)[start..]); }
  }

  lemma LogIsLegal(config: Config, s: State, id: string)
    requires Synced(config, s)
    ensures Legal(LogOf(s, id))
  {}

  lemma SomeStart(config: Config, s: State, id: string) returns (start: nat)
    requires Synced(config, s)
    ensures HasSlot(s.table, id) ==> StartsAt(config, s, id, start)
  {
    start := 0;
    if HasSlot(s.table, id) {
      assert BuffersTailOf(config.limits, BufferFor(s.table, id), LogOf(s, id));
      start :| 0 <= start < |LogOf(s, id)| && BufferFor(s.table, id) == BufferOf(config.limits, LogOf(s, id)[start..]);
    }
  }

  lemma NothingBefore(limits: Limits, log: seq<OfficialSessionEvent>, k: nat, after: nat)
    requires Legal(log) && k < |log| && !Missed(limits, log[k..], after)
    ensures forall i | 0 <= i < k :: log[i].seqNo <= after
  {
    assert log[k..][0] == log[k];
  }

  /** A run of payloads, attaches and forgets; the payloads are those that keep the bridge in step. */
  ghost predicate RunOf(config: Config, states: seq<State>, events: seq<Event>) {
    && |states| == |events| + 1 && states[0] == State([], map[], map[])
    && forall i | 0 <= i < |events| ::
         (events[i].IngestPayload? ==> Harmless(states[i], events[i].id, events[i].payload)) && states[i + 1] == Step(config, states[i], events[i])
  }

  /** End-to-end exactness: over any run of overlapping payloads, evictions, attaches and forgets, every answer
      with events is exactly what the session accepted after that position since it was last forgotten. */
  lemma {:induction false} EveryResumeIsExact(config: Config, states: seq<State>, events: seq<Event>, i: nat, id: string, after: nat)
    requires RunOf(config, states, events) && i < |states|
    ensures Synced(config, states[i])
    ensures var (_, answer) := Attach(states[i].table, id, Some(after));
            answer.Events? ==> answer.events == Newer(LogOf(states[i], id), after)
    decreases i
  {
    hide Synced;
    hide Attach;
    hide Ingest;
    hide Forget;
    hide Harmless;
    hide StartsAt;
    if i == 0 {
      EmptyIsSynced(config);
    } else {
      EveryResumeIsExact(config, states, events, i - 1, id, after);
      StepKeepsSync(config, states[i - 1], events[i - 1]);
    }
    var start := SomeStart(config, states[i], id);
    AttachIsExact(config, states[i], id, after, start);
  }

  lemma EmptyIsSynced(config: Config)
    ensures Synced(config, State([], map[], map[]))
  {}

  lemma StepKeepsSync(config: Config, s: State, ev: Event)
    requires Synced(config, s) && (ev.IngestPayload? ==> Harmless(s, ev.id, ev.payload))
    ensures Synced(config, Step(config, s, ev))
  {
    hide Synced;
    hide Harmless;
    match ev
    case IngestPayload(id, payload) => IngestKeepsSync(config, s, id, payload);
    case AttachTo(id, after) => AttachKeepsSync(config, s, id, after);
    case ForgetSession(id) => ForgetKeepsSync(config, s, id);
  }
}
