/** What one payload adds to a session, read off the payload alone: of the items before the first malformed one, in order,
    those whose number is above the recorded position and above every earlier number, each with its own fields. */
module SessionIngestion {

  import opened Wrappers
  import opened ReplayBuffers
  import opened SessionEvents

  /** The event is the item: its number, its kind and its data, if it has any. */
  predicate Says(item: LogItem, e: OfficialSessionEvent) {
    && item == Item(Some(e.seqNo), Some(e.kind), e.data)
    && 0 < e.seqNo <= 9007199254740991 && |e.kind| > 0
  }

  /** An item is well-formed exactly when it says an event. */
  lemma WellFormedSays(item: LogItem)
    ensures WellFormed(item) <==> exists e :: Says(item, e)
    ensures WellFormed(item) ==> Says(item, EventOf(item))
  {
    if WellFormed(item) { assert Says(item, EventOf(item)); }
  }

  predicate IsNew(items: seq<LogItem>, k: nat, position: int)
    requires k < |items| && forall i | 0 <= i <= k :: WellFormed(items[i])
  {
    && EventOf(items[k]).seqNo > position
    && forall i | 0 <= i < k :: EventOf(items[i]).seqNo < EventOf(items[k]).seqNo
  }

  /** The places of the new ones among the first n items. */
  predicate Picks(items: seq<LogItem>, places: seq<nat>, n: nat, position: int)
    requires n <= |items| && forall i | 0 <= i < n :: WellFormed(items[i])
  {
    && (forall j | 0 <= j < |places| :: places[j] < n)
    && (forall j, k | 0 <= j < k < |places| :: places[j] < places[k])
    && forall k | 0 <= k < n :: k in places <==> IsNew(items, k, position)
  }

  predicate EventsAt(items: seq<LogItem>, places: seq<nat>, news: seq<OfficialSessionEvent>) {
    |places| == |news| && forall j | 0 <= j < |places| :: places[j] < |items| && Says(items[places[j]], news[j])
  }

  /** An ingestion of the first n items has accepted the new ones. */
  predicate HasPicked(p: Progress, items: seq<LogItem>, places: seq<nat>, n: nat, position: int)
    requires n <= |items| && forall i | 0 <= i < n :: WellFormed(items[i])
  {
    && p.error.None?
    && Picks(items, places, n, position) && EventsAt(items, places, p.accepted)
    && p.lastSeq == if places == [] then position else EventOf(items[places[|places| - 1]]).seqNo
  }

  lemma {:induction false} PicksUpTo(config: Config, s: State, id: string, items: seq<LogItem>, n: nat) returns (places: seq<nat>)
    requires Synced(config, s) && n <= FirstMalformed(items)
    ensures HasPicked(IngestProgress(config, s, id, items[..n]), items, places, n, LastSeq(s, id))
    decreases n
  {
    hide Synced;
    hide OnOfficialEvent;
    if n == 0 {
      places := [];
    } else {
      hide HasPicked;
      hide IngestItem;
      hide WellFormed;
      var init := PicksUpTo(config, s, id, items, n - 1);
      assert items[..n][..n - 1] == items[..n - 1] && items[..n][n - 1] == items[n - 1];
      IngestedUpTo(config, s, id, items, n - 1);
      IngestInStep(config, s, id, items[..n]);
      places := OneMorePlace(config, id, IngestProgress(config, s, id, items[..n - 1]), items, init, n, LastSeq(s, id));
    }
  }

  lemma OneMorePlace(config: Config, id: string, p: Progress, items: seq<LogItem>, init: seq<nat>, n: nat, position: int)
    returns (places: seq<nat>)
    requires 0 < n <= FirstMalformed(items) && HasPicked(p, items, init, n - 1, position)
    requires ComesTo(p, items, n - 1, FirstMalformed(items), position)
    requires IngestItem(config, id, p, items[n - 1]).error in {None, Some(BadItem)}
    ensures HasPicked(IngestItem(config, id, p, items[n - 1]), items, places, n, position)
  {
    hide OnOfficialEvent;
    hide Picks;
    hide IsNew;
    hide WellFormed;
    hide EventsAt;
    hide NothingNew;
    var e := EventOf(items[n - 1]);
    NewestIsNew(p, items, init, n, position);
    places := if IsNew(items, n - 1, position) then init + [n - 1] else init;
    PlacesGrow(items, init, n, position);
    EventsGrow(items, init, p.accepted, n - 1, e);
  }

  lemma NewestIsNew(p: Progress, items: seq<LogItem>, init: seq<nat>, n: nat, position: int)
    requires 0 < n <= FirstMalformed(items) && HasPicked(p, items, init, n - 1, position)
    requires ComesTo(p, items, n - 1, FirstMalformed(items), position)
    ensures IsNew(items, n - 1, position) <==> EventOf(items[n - 1]).seqNo > p.lastSeq
  {
    hide WellFormed;
    hide EventsAt;
    hide NothingNew;
  }

  lemma EventsGrow(items: seq<LogItem>, init: seq<nat>, news: seq<OfficialSessionEvent>, k: nat, e: OfficialSessionEvent)
    requires EventsAt(items, init, news) && k < |items| && WellFormed(items[k]) && e == EventOf(items[k])
    ensures EventsAt(items, init + [k], news + [e])
  {
    WellFormedSays(items[k]);
    hide WellFormed;
    hide Says;
  }

  lemma PlacesGrow(items: seq<LogItem>, init: seq<nat>, n: nat, position: int)
    requires 0 < n <= |items| && (forall i | 0 <= i < n :: WellFormed(items[i])) && Picks(items, init, n - 1, position)
    ensures Picks(items, if IsNew(items, n - 1, position) then init + [n - 1] else init, n, position)
  {}

  lemma {:induction false} NothingAfterMalformed(config: Config, s: State, id: string, items: seq<LogItem>, n: nat)
    requires Synced(config, s) && FirstMalformed(items) < n <= |items|
    ensures var p := IngestProgress(config, s, id, items[..FirstMalformed(items)]);
            p.error.None? ==> IngestProgress(config, s, id, items[..n]) == p.(error := Some(BadItem))
    decreases n
  {
    hide Synced;
    hide OnOfficialEvent;
    assert items[..n][..n - 1] == items[..n - 1] && items[..n][n - 1] == items[n - 1];
    if n - 1 > FirstMalformed(items) { NothingAfterMalformed(config, s, id, items, n - 1); }
  }

  lemma IngestGoes(config: Config, s: State, id: string, items: seq<LogItem>)
    requires id != ""
    ensures var (after, r) := Ingest(config, s, id, Some(items));
            var p := IngestProgress(config, s, id, items);
            && LogOf(after, id) == LogOf(s, id) + p.accepted
            && r == (if p.error.Some? then Err(p.error.value) else Ok(|p.accepted|))
            && LastSeq(after, id) == (if p.error.Some? then LastSeq(s, id) else p.lastSeq)
            && forall other | other != id :: LogOf(after, other) == LogOf(s, other) && LastSeq(after, other) == LastSeq(s, other)
  {
    hide IngestProgress;
  }

  /** One ingestion, exactly: what it adds to the log, what it answers, and the position it records. */
  lemma IngestOutcome(config: Config, s: State, id: string, items: seq<LogItem>) returns (places: seq<nat>)
    requires Synced(config, s) && id != ""
    ensures var (after, r) := Ingest(config, s, id, Some(items));
            var m := FirstMalformed(items);
            && Picks(items, places, m, LastSeq(s, id))
            && LogOf(s, id) <= LogOf(after, id) && EventsAt(items, places, LogOf(after, id)[|LogOf(s, id)|..])
            && r == (if m == |items| then Ok(|places|) else Err(BadItem))
            && LastSeq(after, id) == (if m < |items| || places == [] then LastSeq(s, id) else EventOf(items[places[|places| - 1]]).seqNo)
            && forall other | other != id :: LogOf(after, other) == LogOf(s, other) && LastSeq(after, other) == LastSeq(s, other)
  {
    var m := FirstMalformed(items);
    places := PicksUpTo(config, s, id, items, m);
    if m < |items| { NothingAfterMalformed(config, s, id, items, |items|); }
    assert items[..|items|] == items;
    assert |places| == |IngestProgress(config, s, id, items[..m]).accepted|;
    hide Synced;
    hide IngestProgress;
    hide Ingest;
    hide LogOf;
    hide LastSeq;
    hide Picks;
    hide WellFormed;
    hide FirstMalformed;
    hide EventsAt;
    hide EventOf;
    IngestGoes(config, s, id, items);
    var p, log := IngestProgress(config, s, id, items), LogOf(s, id);
    assert (log + p.accepted)[|log|..] == p.accepted;
  }

  /** A payload that is no envelope, or that comes without a session id, changes nothing. */
  lemma NoEnvelope(config: Config, s: State, id: string, payload: Option<seq<LogItem>>)
    requires id == "" || payload.None?
    ensures Ingest(config, s, id, payload) == (s, Err(BadEnvelope))
  {}
}
