/** Which sessions keep a buffer: the table holds the most recently used ones, and a session loses its buffer only when
    it is forgotten, or is the least recently used one when a full table takes a new session. */
module SessionRecency {

  import opened Wrappers
  import opened ReplayBuffers
  import opened SessionEvents
  import opened SessionResets

  function Ids(table: Table): (ids: seq<string>)
    ensures |ids| == |table| && forall i | 0 <= i < |table| :: ids[i] == table[i].sessionId
  {
    seq(|table|, i requires 0 <= i < |table| => table[i].sessionId)
  }

  /** A list without an element. */
  function Except(ids: seq<string>, id: string): (r: seq<string>)
    ensures id !in r && (forall x | x != id :: x in r <==> x in ids) && |r| <= |ids|
    ensures id !in ids ==> r == ids
  {
    if ids == [] then []
    else if ids[0] == id then Except(ids[1..], id)
    else [ids[0]] + Except(ids[1..], id)
  }

  predicate NoTwice(ids: seq<string>) {
    forall i, j | 0 <= i < j < |ids| :: ids[i] != ids[j]
  }

  /** A use moves a session to the end; a new session takes the place of the first one when the table is full. */
  function AfterUse(maxSessions: nat, ids: seq<string>, id: string): seq<string> {
    (if id in ids then Except(ids, id) else if |ids| > 0 && |ids| >= maxSessions then ids[1..] else ids) + [id]
  }

  // ----- lists -----

  lemma {:induction false} ExceptAppend(a: seq<string>, b: seq<string>, id: string)
    ensures Except(a + b, id) == Except(a, id) + Except(b, id)
    decreases |a|
  {
    if a == [] {
      assert a + b == b;
    } else {
      assert (a + b)[1..] == a[1..] + b;
      ExceptAppend(a[1..], b, id);
    }
  }

  lemma {:induction false} ExceptOne(ids: seq<string>, i: nat)
    requires NoTwice(ids) && i < |ids|
    ensures Except(ids, ids[i]) == ids[..i] + ids[i + 1..]
  {
    var a, b := ids[..i], ids[i + 1..];
    assert ids == a + ([ids[i]] + b);
    ExceptAppend(a, [ids[i]] + b, ids[i]);
    ExceptAppend([ids[i]], b, ids[i]);
    assert ids[i] !in a && ids[i] !in b;
  }

  lemma {:induction false} ExceptNoTwice(ids: seq<string>, id: string)
    requires NoTwice(ids)
    ensures NoTwice(Except(ids, id))
  {
    if id in ids {
      var i :| 0 <= i < |ids| && ids[i] == id;
      ExceptOne(ids, i);
    }
  }

  lemma UseAgain(maxSessions: nat, ids: seq<string>, id: string)
    requires NoTwice(ids)
    ensures AfterUse(maxSessions, AfterUse(maxSessions, ids, id), id) == AfterUse(maxSessions, ids, id)
    ensures NoTwice(AfterUse(maxSessions, ids, id))
  {
    var used := AfterUse(maxSessions, ids, id);
    ExceptNoTwice(ids, id);
    assert NoTwice(used);
    ExceptOne(used, |used| - 1);
  }

  // ----- the table -----

  lemma DistinctIsNoTwice(table: Table)
    ensures Distinct(table) <==> NoTwice(Ids(table))
  {
    var ids := Ids(table);
    forall i, j | 0 <= i < j < |table| ensures table[i].sessionId == table[j].sessionId <==> ids[i] == ids[j] {}
  }

  lemma SlotMeansListed(table: Table, id: string)
    ensures HasSlot(table, id) <==> id in Ids(table)
  {
    var i := SlotIndex(table, id);
    if i < |table| { assert Ids(table)[i] == id; }
  }

  lemma WithoutIds(table: Table, id: string)
    requires Distinct(table)
    ensures Ids(Without(table, id)) == Except(Ids(table), id)
  {
    var i := SlotIndex(table, id);
    DistinctIsNoTwice(table);
    SlotMeansListed(table, id);
    if i < |table| {
      ExceptOne(Ids(table), i);
      assert Ids(Without(table, id)) == Ids(table)[..i] + Ids(table)[i + 1..];
    }
  }

  lemma EventIds(config: Config, table: Table, id: string, e: OfficialSessionEvent)
    requires Distinct(table)
    ensures Ids(OnOfficialEvent(config, table, id, e).0) == AfterUse(config.maxSessions, Ids(table), id)
  {
    hide AppendTo;
    hide Except;
    SlotMeansListed(table, id);
    WithoutIds(table, id);
    var others := Others(config, table, id);
    assert Ids(Evicted(config, table)) == if |table| > 0 && |table| >= config.maxSessions then Ids(table)[1..] else Ids(table);
    assert Ids(OnOfficialEvent(config, table, id, e).0) == Ids(others) + [id];
  }

  lemma {:induction false} ItemsIds(config: Config, id: string, start: Progress, items: seq<LogItem>)
    requires Distinct(start.table) && start.accepted == [] && start.error.None?
    requires forall n | 0 <= n <= |items| :: var e := IngestItems(config, id, start, items[..n]).error; e in {None, Some(BadItem)}
    ensures var p := IngestItems(config, id, start, items);
            Distinct(p.table) && Ids(p.table) == if p.accepted == [] then Ids(start.table) else AfterUse(config.maxSessions, Ids(start.table), id)
    decreases |items|
  {
    hide OnOfficialEvent;
    hide AfterUse;
    if items != [] {
      var init, item := items[..|items| - 1], items[|items| - 1];
      forall n | 0 <= n <= |init| ensures IngestItems(config, id, start, init[..n]).error in {None, Some(BadItem)} {
        assert init[..n] == items[..n];
      }
      ItemsIds(config, id, start, init);
      var p := IngestItems(config, id, start, init);
      assert items[..|items|] == items;
      ItemIds(config, id, p, item, Ids(start.table));
    }
  }

  lemma ItemIds(config: Config, id: string, p: Progress, item: LogItem, before: seq<string>)
    requires Distinct(p.table)
    requires Ids(p.table) == if p.accepted == [] then before else AfterUse(config.maxSessions, before, id)
    requires IngestItem(config, id, p, item).error in {None, Some(BadItem)}
    ensures var q := IngestItem(config, id, p, item);
            Distinct(q.table) && Ids(q.table) == if q.accepted == [] then before else AfterUse(config.maxSessions, before, id)
  {
    hide OnOfficialEvent;
    hide AfterUse;
    if p.error.None? && WellFormed(item) && item.seqNo.value > p.lastSeq {
      var e := EventOf(item);
      EventIds(config, p.table, id, e);
      DistinctIsNoTwice(p.table);
      UseAgain(config.maxSessions, Ids(p.table), id);
      DistinctIsNoTwice(OnOfficialEvent(config, p.table, id, e).0);
      if p.accepted != [] { UsedTwice(config.maxSessions, before, id); }
    }
  }

  lemma UsedTwice(maxSessions: nat, before: seq<string>, id: string)
    requires NoTwice(AfterUse(maxSessions, before, id))
    ensures AfterUse(maxSessions, AfterUse(maxSessions, before, id), id) == AfterUse(maxSessions, before, id)
  {
    var used := AfterUse(maxSessions, before, id);
    ExceptOne(used, |used| - 1);
  }

  // ----- one step -----

  /** The session that a step uses: it accepted an event, or was attached while it had a buffer. */
  function UsedBy(config: Config, s: State, ev: Event): Option<string> {
    match ev
    case IngestPayload(id, _) => if |LogOf(Step(config, s, ev), id)| > |LogOf(s, id)| then Some(id) else None
    case AttachTo(id, _) => if HasSlot(s.table, id) then Some(id) else None
    case ForgetSession(_) => None
  }

  /** What a step does to the list of sessions. */
  lemma StepIds(config: Config, s: State, ev: Event)
    requires Synced(config, s)
    ensures Distinct(Step(config, s, ev).table)
    ensures var used, after := UsedBy(config, s, ev), Ids(Step(config, s, ev).table);
            after == if ev.ForgetSession? then Except(Ids(s.table), ev.id)
                     else if used.Some? then AfterUse(config.maxSessions, Ids(s.table), used.value)
                     else Ids(s.table)
  {
    hide AfterUse;
    hide Except;
    TableIsDistinct(config, s);
    match ev
    case IngestPayload(id, payload) => PayloadIds(config, s, id, payload);
    case AttachTo(id, after) => AttachIds(config, s.table, id, after, config.maxSessions);
    case ForgetSession(id) =>
      WithoutIds(s.table, id);
      WithoutCarries(s.table, id, id + "x");
  }

  lemma TableIsDistinct(config: Config, s: State)
    requires Synced(config, s)
    ensures Distinct(s.table)
  {}

  lemma PayloadIds(config: Config, s: State, id: string, payload: Option<seq<LogItem>>)
    requires Synced(config, s)
    ensures var t := Ingest(config, s, id, payload).0;
            && Distinct(t.table)
            && Ids(t.table) == if |LogOf(t, id)| > |LogOf(s, id)| then AfterUse(config.maxSessions, Ids(s.table), id) else Ids(s.table)
  {
    hide AfterUse;
    hide IngestItem;
    TableIsDistinct(config, s);
    if id != "" && payload.Some? {
      var items := payload.value;
      forall n | 0 <= n <= |items| ensures IngestProgress(config, s, id, items[..n]).error in {None, Some(BadItem)} {
        IngestInStep(config, s, id, items[..n]);
        StepError(config, s, id, IngestProgress(config, s, id, items[..n]));
      }
      hide Synced;
      ItemsIds(config, id, Progress(s.table, [], LastSeq(s, id), None), items);
      IngestShape(config, s, id, items);
    }
  }

  lemma StepError(config: Config, s: State, id: string, p: Progress)
    requires InStep(config, s, id, p)
    ensures p.error in {None, Some(BadItem)}
  {}

  lemma AttachIds(config: Config, table: Table, id: string, after: Option<nat>, maxSessions: nat)
    requires Distinct(table)
    ensures var t := Attach(table, id, after).0;
            Distinct(t) && Ids(t) == if HasSlot(table, id) then AfterUse(maxSessions, Ids(table), id) else Ids(table)
  {
    hide Except;
    hide ResumeFrom;
    if HasSlot(table, id) {
      SlotMeansListed(table, id);
      WithoutIds(table, id);
      DistinctIsNoTwice(table);
      UseAgain(maxSessions, Ids(table), id);
      assert Ids(Attach(table, id, after).0) == Ids(Without(table, id)) + [id];
      DistinctIsNoTwice(Attach(table, id, after).0);
    }
  }

  /** The exact condition: a session loses its buffer in a step if and only if it is forgotten, or a session without a
      buffer is used while the table is full and this one is the least recently used. */
  lemma StepEvicts(config: Config, s: State, ev: Event, id: string)
    requires Synced(config, s) && HasSlot(s.table, id)
    ensures var used := UsedBy(config, s, ev);
            !HasSlot(Step(config, s, ev).table, id)
            <==> ev == ForgetSession(id)
                 || (used.Some? && !HasSlot(s.table, used.value) && |s.table| >= config.maxSessions && s.table[0].sessionId == id)
  {
    hide Synced;
    hide Step;
    hide UsedBy;
    StepIds(config, s, ev);
    TableIsDistinct(config, s);
    DistinctIsNoTwice(s.table);
    SlotMeansListed(s.table, id);
    SlotMeansListed(Step(config, s, ev).table, id);
    var used := UsedBy(config, s, ev);
    UsedIsNoForget(config, s, ev);
    if used.Some? { SlotMeansListed(s.table, used.value); }
  }

  lemma UsedIsNoForget(config: Config, s: State, ev: Event)
    ensures ev.ForgetSession? ==> UsedBy(config, s, ev).None?
  {}

  // ----- whole runs -----

  /** All sessions that were used and not forgotten since, the most recently used one last. */
  function Recency(config: Config, states: seq<State>, events: seq<Event>, i: nat): seq<string>
    requires i <= |events| <= |states|
  {
    if i == 0 then []
    else
      var before, ev := Recency(config, states, events, i - 1), events[i - 1];
      if ev.ForgetSession? then Except(before, ev.id)
      else
        var used := UsedBy(config, states[i - 1], ev);
        if used.Some? then Except(before, used.value) + [used.value] else before
  }

  predicate IsSuffix(a: seq<string>, b: seq<string>) {
    |a| <= |b| && a == b[|b| - |a|..]
  }

  lemma SuffixExcept(a: seq<string>, b: seq<string>, id: string)
    requires IsSuffix(a, b)
    ensures IsSuffix(Except(a, id), Except(b, id))
  {
    var p := b[..|b| - |a|];
    assert b == p + a;
    ExceptAppend(p, a, id);
  }

  lemma SuffixUse(maxSessions: nat, a: seq<string>, b: seq<string>, id: string)
    requires IsSuffix(a, b)
    ensures IsSuffix(AfterUse(maxSessions, a, id), Except(b, id) + [id])
  {
    SuffixExcept(a, b, id);
    hide Except;
    hide IsSuffix;
    var kept := if id in a then Except(a, id) else if |a| > 0 && |a| >= maxSessions then a[1..] else a;
    if id !in a && |a| > 0 { SuffixDrops(Except(a, id), Except(b, id)); }
    assert IsSuffix(kept, Except(b, id));
    SuffixGrows(kept, Except(b, id), id);
  }

  lemma SuffixDrops(a: seq<string>, b: seq<string>)
    requires IsSuffix(a, b) && a != []
    ensures IsSuffix(a[1..], b)
  {}

  lemma SuffixGrows(a: seq<string>, b: seq<string>, id: string)
    requires IsSuffix(a, b)
    ensures IsSuffix(a + [id], b + [id])
  {}

  /** Over every run the table holds the most recently used sessions, and never more than it may. */
  lemma {:induction false} TableHoldsMostRecent(config: Config, states: seq<State>, events: seq<Event>, i: nat)
    requires RunOf(config, states, events) && i < |states|
    ensures IsSuffix(Ids(states[i].table), Recency(config, states, events, i))
    ensures |states[i].table| <= if config.maxSessions == 0 then 1 else config.maxSessions
    decreases i
  {
    hide Synced;
    hide Step;
    hide Harmless;
    hide UsedBy;
    hide IsSuffix;
    hide AfterUse;
    hide Except;
    if i == 0 {
      NothingIsSuffix();
      assert Ids(states[0].table) == [];
    } else {
      TableHoldsMostRecent(config, states, events, i - 1);
      EveryResumeIsExact(config, states, events, i - 1, "", 0);
      var s, ev, before := states[i - 1], events[i - 1], Recency(config, states, events, i - 1);
      StepIds(config, s, ev);
      var used := UsedBy(config, s, ev);
      if ev.ForgetSession? {
        SuffixExcept(Ids(s.table), before, ev.id);
      } else if used.Some? {
        SuffixUse(config.maxSessions, Ids(s.table), before, used.value);
        UseFits(config.maxSessions, Ids(s.table), used.value);
      }
    }
  }

  lemma NothingIsSuffix()
    ensures IsSuffix([], [])
  {}

  lemma {:induction false} ExceptIsShorter(ids: seq<string>, id: string)
    requires id in ids
    ensures |Except(ids, id)| < |ids|
  {
    if ids[0] != id { ExceptIsShorter(ids[1..], id); }
  }

  lemma UseFits(maxSessions: nat, ids: seq<string>, id: string)
    requires |ids| <= if maxSessions == 0 then 1 else maxSessions
    ensures |AfterUse(maxSessions, ids, id)| <= if maxSessions == 0 then 1 else maxSessions
  {
    if id in ids { ExceptIsShorter(ids, id); }
  }
}
