/** Resets over whole runs: where the buffered part of a session's log starts, and exactly when an attach is told to
    reset, needless resets included. */
module SessionResets {

  import opened Wrappers
  import opened ReplayBuffers
  import opened SessionEvents

  // ----- slots of other sessions -----

  predicate Distinct(table: Table) {
    forall i, j | 0 <= i < j < |table| :: table[i].sessionId != table[j].sessionId
  }

  /** A session that still has a slot kept its buffer. */
  predicate Carries(before: Table, after: Table, x: string) {
    HasSlot(after, x) ==> HasSlot(before, x) && BufferFor(after, x) == BufferFor(before, x)
  }

  lemma SlotIs(table: Table, x: string, i: nat)
    requires Distinct(table) && i < |table| && table[i].sessionId == x
    ensures SlotIndex(table, x) == i
  {}

  lemma WithoutCarries(table: Table, id: string, x: string)
    requires Distinct(table) && x != id
    ensures Distinct(Without(table, id))
    ensures HasSlot(table, x) <==> HasSlot(Without(table, id), x)
    ensures Carries(table, Without(table, id), x)
  {
    var w, i := Without(table, id), SlotIndex(table, id);
    assert forall j | 0 <= j < |w| :: w[j] == table[if j < i then j else j + 1];
    var h, j := SlotIndex(table, x), SlotIndex(w, x);
    if h < |table| { assert w[if h < i then h else h - 1].sessionId == x; }
    if j < |w| { SlotIs(table, x, if j < i then j else j + 1); }
  }

  lemma EvictionCarries(config: Config, table: Table, x: string)
    requires Distinct(table)
    ensures Distinct(Evicted(config, table)) && Carries(table, Evicted(config, table), x)
  {
    var o := Evicted(config, table);
    var j := SlotIndex(o, x);
    if j < |o| { SlotIs(table, x, if o == table then j else j + 1); }
  }

  lemma OthersCarry(config: Config, table: Table, id: string, x: string)
    requires Distinct(table)
    ensures Distinct(Others(config, table, id)) && (x != id ==> Carries(table, Others(config, table, id), x))
  {
    hide Without;
    hide Evicted;
    EvictionCarries(config, table, x);
    WithoutCarries(table, id, if x != id then x else id + "x");
  }

  lemma AbsentFromOthers(config: Config, table: Table, id: string)
    requires Distinct(table)
    ensures !HasSlot(Others(config, table, id), id) && !HasSlot(Without(table, id), id)
  {
    var w, i := Without(table, id), SlotIndex(table, id);
    if i < |table| {
      assert forall j | 0 <= j < |w| :: w[j] == table[if j < i then j else j + 1];
      assert forall j | 0 <= j < |w| :: w[j].sessionId != id;
    }
  }

  lemma PutLast(others: Table, id: string, b: Buffer, x: string)
    requires Distinct(others) && !HasSlot(others, id)
    ensures Distinct(others + [Slot(id, b)])
    ensures HasSlot(others + [Slot(id, b)], id) && BufferFor(others + [Slot(id, b)], id) == b
    ensures x != id ==> (HasSlot(others, x) <==> HasSlot(others + [Slot(id, b)], x)) && Carries(others, others + [Slot(id, b)], x)
  {
    var t := others + [Slot(id, b)];
    SlotIs(t, id, |others|);
    var i := SlotIndex(t, x);
    if x != id && i < |t| { SlotIs(others, x, i); }
    var j := SlotIndex(others, x);
    if j < |others| { assert t[j].sessionId == x; }
  }

  lemma EventCarries(config: Config, table: Table, id: string, e: OfficialSessionEvent, x: string)
    requires Distinct(table)
    ensures var (after, r) := OnOfficialEvent(config, table, id, e);
            && Distinct(after) && HasSlot(after, id)
            && BufferFor(after, id) == (if r.Ok? then AppendTo(config.limits, BufferFor(table, id), e).value else BufferFor(table, id))
            && (x != id ==> Carries(table, after, x))
  {
    hide AppendTo;
    hide Others;
    var b := match AppendTo(config.limits, BufferFor(table, id), e) case Ok(b) => b case Err(_) => BufferFor(table, id);
    OthersCarry(config, table, id, x);
    AbsentFromOthers(config, table, id);
    PutLast(Others(config, table, id), id, b, x);
  }

  // ----- one payload -----

  /** No other session's buffer has changed, though it may be evicted; its own buffer goes on where it started. */
  ghost predicate Carried(config: Config, s: State, id: string, p: Progress, start: nat, x: string) {
    && Distinct(p.table) && (x != id ==> Carries(s.table, p.table, x))
    && (HasSlot(p.table, id) <==> HasSlot(s.table, id) || p.accepted != [])
    && var log := LogOf(s, id) + p.accepted;
       if HasSlot(p.table, id) then start < |log| && BufferFor(p.table, id) == BufferOf(config.limits, log[start..])
       else start == |log|
  }

  lemma {:induction false} ItemsCarry(config: Config, s: State, id: string, items: seq<LogItem>, start: nat, x: string)
    requires Synced(config, s)
    requires if HasSlot(s.table, id) then StartsAt(config, s, id, start) else start == |LogOf(s, id)|
    ensures Carried(config, s, id, IngestProgress(config, s, id, items), start, x)
    decreases |items|
  {
    hide Carried;
    hide StartsAt;
    hide IngestItem;
    hide Synced;
    hide InStep;
    if items == [] {
      StartIsCarried(config, s, id, start, x);
    } else {
      ItemsCarry(config, s, id, items[..|items| - 1], start, x);
      IngestInStep(config, s, id, items[..|items| - 1]);
      ItemCarries(config, s, id, IngestProgress(config, s, id, items[..|items| - 1]), items[|items| - 1], start, x);
    }
  }

  lemma StartIsCarried(config: Config, s: State, id: string, start: nat, x: string)
    requires Synced(config, s)
    requires if HasSlot(s.table, id) then StartsAt(config, s, id, start) else start == |LogOf(s, id)|
    ensures Carried(config, s, id, Progress(s.table, [], LastSeq(s, id), None), start, x)
  {
    hide BufferOf;
    assert LogOf(s, id) + [] == LogOf(s, id);
  }

  lemma ItemCarries(config: Config, s: State, id: string, p: Progress, item: LogItem, start: nat, x: string)
    requires InStep(config, s, id, p) && Carried(config, s, id, p, start, x)
    ensures Carried(config, s, id, IngestItem(config, id, p, item), start, x)
  {
    hide BufferOf;
    hide OnOfficialEvent;
    hide AppendTo;
    hide HasSlot;
    hide BufferFor;
    hide Distinct;
    StepKeepsStep(config, s, id, p, item);
    var q := IngestItem(config, id, p, item);
    if p.error.None? && WellFormed(item) && item.seqNo.value > p.lastSeq {
      var e := EventOf(item);
      EventCarries(config, p.table, id, e, x);
      BufferGoesOn(config, s, id, p, e, start);
      hide InStep;
      CarriesChain(s.table, p.table, q.table, x);
      assert LogOf(s, id) + (p.accepted + [e]) == LogOf(s, id) + p.accepted + [e];
    }
  }

  lemma CarriesChain(a: Table, b: Table, c: Table, x: string)
    ensures Carries(a, b, x) && Carries(b, c, x) ==> Carries(a, c, x)
  {}

  lemma BufferGoesOn(config: Config, s: State, id: string, p: Progress, e: OfficialSessionEvent, start: nat)
    requires InStep(config, s, id, p) && p.lastSeq < e.seqNo && 1 <= e.seqNo <= MAX_SAFE_INTEGER
    requires var log := LogOf(s, id) + p.accepted;
             if HasSlot(p.table, id) then start < |log| && BufferFor(p.table, id) == BufferOf(config.limits, log[start..])
             else start == |log|
    ensures var log := LogOf(s, id) + p.accepted + [e];
            AppendTo(config.limits, BufferFor(p.table, id), e) == Ok(BufferOf(config.limits, log[start..]))
  {
    hide BufferOf;
    hide AppendTo;
    var log := LogOf(s, id) + p.accepted;
    LogGrows(config, p.table, s.logs[id := log], id, e);
    hide InStep;
    EmptyHistory(config.limits);
    assert (log + [e])[start..] == log[start..] + [e];
    TailIncreases(log + [e], start);
    AppendRetainsLongest(config.limits, log[start..], e);
  }

  // ----- where the buffered part starts, over a run -----

  /** The place in the log at which the buffer of the session was created. */
  function TailStart(states: seq<State>, i: nat, id: string): nat
    requires i < |states|
  {
    if i == 0 then 0
    else if HasSlot(states[i - 1].table, id) && HasSlot(states[i].table, id) then TailStart(states, i - 1, id)
    else |LogOf(states[i - 1], id)|
  }

  lemma IngestMovesStart(config: Config, s: State, ev: Event, id: string, start: nat)
    requires Synced(config, s) && ev.IngestPayload? && Harmless(s, ev.id, ev.payload)
    requires if HasSlot(s.table, id) then StartsAt(config, s, id, start) else start == |LogOf(s, id)|
    ensures var t := Step(config, s, ev);
            HasSlot(t.table, id) ==>
              StartsAt(config, t, id, start) && (HasSlot(s.table, id) || |LogOf(t, id)| > |LogOf(s, id)|)
    ensures var t := Step(config, s, ev);
            !HasSlot(t.table, id) ==> LogOf(t, id) == LogOf(s, id)
  {
    hide StartsAt;
    hide Harmless;
    hide Synced;
    if ev.id != "" && ev.payload.Some? {
      if ev.id == id {
        OwnIngest(config, s, id, ev.payload.value, start);
      } else {
        OtherIngest(config, s, ev.id, ev.payload.value, id);
        if HasSlot(Step(config, s, ev).table, id) { SameStart(config, s, Step(config, s, ev), id, start); }
      }
    }
  }

  lemma IngestShape(config: Config, s: State, id: string, items: seq<LogItem>)
    requires id != ""
    ensures var t, p := Ingest(config, s, id, Some(items)).0, IngestProgress(config, s, id, items);
            && t.table == p.table && LogOf(t, id) == LogOf(s, id) + p.accepted
            && forall x | x != id :: LogOf(t, x) == LogOf(s, x)
  {
    hide IngestProgress;
  }

  lemma OwnIngest(config: Config, s: State, id: string, items: seq<LogItem>, start: nat)
    requires Synced(config, s) && id != ""
    requires if HasSlot(s.table, id) then StartsAt(config, s, id, start) else start == |LogOf(s, id)|
    ensures var t := Ingest(config, s, id, Some(items)).0;
            && (HasSlot(t.table, id) ==> StartsAt(config, t, id, start) && (HasSlot(s.table, id) || |LogOf(t, id)| > |LogOf(s, id)|))
            && (!HasSlot(t.table, id) ==> LogOf(t, id) == LogOf(s, id))
  {
    hide Synced;
    hide Ingest;
    hide IngestProgress;
    hide HasSlot;
    hide StartsAt;
    hide Carried;
    ItemsCarry(config, s, id, items, start, id);
    IngestShape(config, s, id, items);
    CarriedStart(config, s, Ingest(config, s, id, Some(items)).0, id, IngestProgress(config, s, id, items), start);
  }

  lemma CarriedStart(config: Config, s: State, t: State, id: string, p: Progress, start: nat)
    requires Carried(config, s, id, p, start, id)
    requires t.table == p.table && LogOf(t, id) == LogOf(s, id) + p.accepted
    ensures HasSlot(t.table, id) ==> StartsAt(config, t, id, start) && (HasSlot(s.table, id) || |LogOf(t, id)| > |LogOf(s, id)|)
    ensures !HasSlot(t.table, id) ==> LogOf(t, id) == LogOf(s, id)
  {
    hide BufferOf;
    hide LogOf;
    hide HasSlot;
    hide BufferFor;
  }

  lemma OtherIngest(config: Config, s: State, id: string, items: seq<LogItem>, x: string)
    requires Synced(config, s) && id != "" && x != id
    ensures var t := Ingest(config, s, id, Some(items)).0; Carries(s.table, t.table, x) && LogOf(t, x) == LogOf(s, x)
  {
    hide Synced;
    hide Ingest;
    hide IngestProgress;
    hide HasSlot;
    hide StartsAt;
    hide Carries;
    hide LogOf;
    hide Carried;
    var own := SomeStart(config, s, id);
    if !HasSlot(s.table, id) { own := |LogOf(s, id)|; }
    ItemsCarry(config, s, id, items, own, x);
    IngestShape(config, s, id, items);
    CarriedOther(config, s, id, IngestProgress(config, s, id, items), own, x);
  }

  lemma CarriedOther(config: Config, s: State, id: string, p: Progress, start: nat, x: string)
    requires Carried(config, s, id, p, start, x) && x != id
    ensures Carries(s.table, p.table, x)
  {}

  lemma SameStart(config: Config, s: State, t: State, id: string, start: nat)
    requires StartsAt(config, s, id, start) && LogOf(t, id) == LogOf(s, id) && BufferFor(t.table, id) == BufferFor(s.table, id)
    ensures StartsAt(config, t, id, start)
  {}

  lemma AttachMovesNothing(config: Config, s: State, x: string, after: Option<nat>, id: string)
    requires Synced(config, s)
    ensures var t := s.(table := Attach(s.table, x, after).0);
            && (HasSlot(t.table, id) <==> HasSlot(s.table, id)) && BufferFor(t.table, id) == BufferFor(s.table, id)
  {
    if HasSlot(s.table, x) {
      WithoutCarries(s.table, x, if id == x then x + "x" else id);
      AbsentFromOthers(config, s.table, x);
      PutLast(Without(s.table, x), x, BufferFor(s.table, x), id);
    }
  }

  lemma ForgetMovesNothing(config: Config, s: State, x: string, id: string)
    requires Synced(config, s)
    ensures var t := Forget(s, x);
            if id == x then !HasSlot(t.table, id) && LogOf(t, id) == []
            else Carries(s.table, t.table, id) && LogOf(t, id) == LogOf(s, id)
  {
    hide BuffersTailOf;
    hide Legal;
    hide Carries;
    hide HasSlot;
    hide Without;
    if id != x { WithoutCarries(s.table, x, id); }
    AbsentFromOthers(config, s.table, x);
  }

  lemma StepMovesStart(config: Config, s: State, ev: Event, id: string, start: nat)
    requires Synced(config, s) && (ev.IngestPayload? ==> Harmless(s, ev.id, ev.payload))
    requires if HasSlot(s.table, id) then StartsAt(config, s, id, start) else start == |LogOf(s, id)|
    ensures HasSlot(Step(config, s, ev).table, id) ==> StartsAt(config, Step(config, s, ev), id, start)
    ensures !HasSlot(s.table, id) && !HasSlot(Step(config, s, ev).table, id) ==> |LogOf(Step(config, s, ev), id)| <= |LogOf(s, id)|
  {
    hide StartsAt;
    hide Harmless;
    hide Attach;
    hide Forget;
    match ev
    case IngestPayload(_, _) => IngestMovesStart(config, s, ev, id, start);
    case AttachTo(x, after) =>
      AttachMovesNothing(config, s, x, after, id);
      if HasSlot(s.table, id) { SameStart(config, s, Step(config, s, ev), id, start); }
    case ForgetSession(x) =>
      ForgetMovesNothing(config, s, x, id);
      if HasSlot(Step(config, s, ev).table, id) { SameStart(config, s, Step(config, s, ev), id, start); }
  }

  lemma {:induction false} TailStartsThere(config: Config, states: seq<State>, events: seq<Event>, i: nat, id: string)
    requires RunOf(config, states, events) && i < |states|
    ensures Synced(config, states[i])
    ensures HasSlot(states[i].table, id) ==> StartsAt(config, states[i], id, TailStart(states, i, id))
    decreases i
  {
    hide Synced;
    hide StartsAt;
    hide Step;
    hide Harmless;
    EveryResumeIsExact(config, states, events, i, id, 0);
    if i > 0 {
      TailStartsThere(config, states, events, i - 1, id);
      var s := states[i - 1];
      StepMovesStart(config, s, events[i - 1], id, if HasSlot(s.table, id) then TailStart(states, i - 1, id) else |LogOf(s, id)|);
    }
  }

  /** Every answer to an attach, over any run: the exact condition for each of them. */
  lemma EveryAnswerIsExact(config: Config, states: seq<State>, events: seq<Event>, i: nat, id: string, after: nat)
    requires RunOf(config, states, events) && i < |states|
    ensures HasSlot(states[i].table, id) ==> TailStart(states, i, id) < |LogOf(states[i], id)|
    ensures var (_, answer) := Attach(states[i].table, id, Some(after));
            var log := LogOf(states[i], id);
            && (answer.Events? ==> answer.events == Newer(log, after))
            && (answer.WindowUnavailable? <==> !HasSlot(states[i].table, id))
            && (answer.WindowExceeded? <==>
                  HasSlot(states[i].table, id) && Missed(config.limits, log[TailStart(states, i, id)..], after))
  {
    hide Synced;
    hide Attach;
    TailStartsThere(config, states, events, i, id);
    AttachIsExact(config, states[i], id, after, TailStart(states, i, id));
  }

  /** The first attach of a client, over any run: all that the limits allow to keep of the buffered part of the log. */
  lemma EveryFirstAttachIsExact(config: Config, states: seq<State>, events: seq<Event>, i: nat, id: string)
    requires RunOf(config, states, events) && i < |states|
    ensures HasSlot(states[i].table, id) ==> TailStart(states, i, id) < |LogOf(states[i], id)|
    ensures Attach(states[i].table, id, None).1
         == Events(if HasSlot(states[i].table, id) then Retained(config.limits, LogOf(states[i], id)[TailStart(states, i, id)..]) else [])
  {
    hide Synced;
    hide Attach;
    hide Retained;
    TailStartsThere(config, states, events, i, id);
    FirstAttachIsExact(config, states[i], id, TailStart(states, i, id));
  }

  // ----- sessions that were never evicted -----

  /** From state f on, the session never loses the buffer that it has. */
  predicate KeepsSlot(states: seq<State>, f: nat, i: nat, id: string)
    requires f <= i < |states|
  {
    forall j | f <= j < i :: HasSlot(states[j].table, id) ==> HasSlot(states[j + 1].table, id)
  }

  /** The state in which the session has no history: at the beginning, or just forgotten. */
  predicate Begins(states: seq<State>, events: seq<Event>, f: nat, id: string)
    requires f < |states| == |events| + 1
  {
    f == 0 || events[f - 1] == ForgetSession(id)
  }

  lemma {:induction false} NeverEvictedStartsAtZero(config: Config, states: seq<State>, events: seq<Event>, f: nat, i: nat, id: string)
    requires RunOf(config, states, events) && f <= i < |states|
    requires Begins(states, events, f, id) && KeepsSlot(states, f, i, id)
    ensures if HasSlot(states[i].table, id) then TailStart(states, i, id) == 0 else LogOf(states[i], id) == []
    decreases i
  {
    hide Synced;
    hide StartsAt;
    hide Step;
    hide Harmless;
    if i == f {
      if f > 0 {
        TailStartsThere(config, states, events, f - 1, id);
        ForgottenIsEmpty(config, states[f - 1], id);
      }
    } else {
      NeverEvictedStartsAtZero(config, states, events, f, i - 1, id);
      TailStartsThere(config, states, events, i - 1, id);
      var s := states[i - 1];
      assert states[i] == Step(config, s, events[i - 1]);
      StepMovesStart(config, s, events[i - 1], id, if HasSlot(s.table, id) then TailStart(states, i - 1, id) else |LogOf(s, id)|);
    }
  }

  lemma ForgottenIsEmpty(config: Config, s: State, id: string)
    requires Synced(config, s)
    ensures var t := Step(config, s, ForgetSession(id)); !HasSlot(t.table, id) && LogOf(t, id) == []
  {
    hide Synced;
    ForgetMovesNothing(config, s, id, id);
  }

  /** A session that was never evicted since it was last forgotten is told to reset exactly when the position is before
      its first event, by more than one, or before an event that its whole log no longer fits. */
  lemma NeverEvictedIsExact(config: Config, states: seq<State>, events: seq<Event>, f: nat, i: nat, id: string, after: nat)
    requires RunOf(config, states, events) && f <= i < |states|
    requires Begins(states, events, f, id) && KeepsSlot(states, f, i, id)
    ensures HasSlot(states[i].table, id) ==> LogOf(states[i], id) != []
    ensures var (_, answer) := Attach(states[i].table, id, Some(after));
            answer.WindowExceeded? <==> HasSlot(states[i].table, id) && Missed(config.limits, LogOf(states[i], id), after)
  {
    hide Attach;
    hide Missed;
    NeverEvictedStartsAtZero(config, states, events, f, i, id);
    EveryAnswerIsExact(config, states, events, i, id, after);
    assert LogOf(states[i], id)[0..] == LogOf(states[i], id);
  }

  // ----- needless resets -----

  /** Something that the client has not seen is no longer in the buffer. */
  ghost predicate Lost(limits: Limits, log: seq<OfficialSessionEvent>, start: nat, after: nat)
    requires start < |log|
  {
    exists i | 0 <= i < start + Dropped(limits, log[start..]) :: log[i].seqNo > after
  }

  /** Numbers are missing between the position and the first event that the buffer went through. */
  predicate Gap(log: seq<OfficialSessionEvent>, start: nat, after: nat)
    requires start < |log|
  {
    after + 1 < log[start].seqNo
  }

  /** A reset is needless, as nothing is lost, exactly when it is given for a gap in the numbers alone. */
  lemma ResetIsLossOrGap(limits: Limits, log: seq<OfficialSessionEvent>, start: nat, after: nat)
    requires Legal(log) && start < |log|
    ensures Missed(limits, log[start..], after) <==> Lost(limits, log, start, after) || Gap(log, start, after)
  {
    hide Dropped;
    hide Fits;
    var tail := log[start..];
    var d := Dropped(limits, tail);
    assert tail[0] == log[start];
    if i :| 0 <= i < d && tail[i].seqNo > after { assert log[start + i].seqNo > after; }
    if i :| 0 <= i < start + d && log[i].seqNo > after {
      if i >= start { assert tail[i - start] == log[i]; } else { assert log[i].seqNo < log[start].seqNo; }
    }
  }

  /** Without gaps in the numbers no reset is needless. */
  lemma GaplessResetsAreNeeded(limits: Limits, log: seq<OfficialSessionEvent>, start: nat, after: nat)
    requires Legal(log) && start < |log| && forall i | 0 <= i < |log| :: log[i].seqNo == i + 1
    ensures Missed(limits, log[start..], after) <==> Lost(limits, log, start, after)
  {
    hide Dropped;
    ResetIsLossOrGap(limits, log, start, after);
    if Gap(log, start, after) { assert log[after].seqNo > after; }
  }
}
