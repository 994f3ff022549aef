/** Which key pair the host identity store hands out, over every run of its calls and of power losses. */
module HostIdentityKeys {

  import opened Wrappers
  import opened DurableDisk
  import opened StoreFiles
  import opened TrustJournal
  import opened TrustJournalCommit
  import opened TrustStoreMemory
  import opened HostIdentityJournal
  import opened HostIdentities

  /** A pair that a call commits carries the secret and the time that the call drew. */
  lemma CommitIsDrawn(s: IdentityState, call: Call, pair: HostKeyPair)
    requires CommitsPair(s, call, pair)
    ensures pair.secretKeyHex == call.draw.secretKeyHex && pair.createdAt == call.draw.now
  {
    hide AnswersAtOnce;
    hide AfterRecovery;
    hide ReadExisting;
  }

  /** A rotation that is answered hands out the key pair that it drew. */
  lemma RotationIsFresh(s: IdentityState, draw: Draw)
    ensures var r := Serve(s, Rotate(draw)).1;
            r.Ok? ==> r.value.secretKeyHex == draw.secretKeyHex && r.value.createdAt == draw.now
  {
    hide Run;
    hide OpsOf;
    hide AfterRecovery;
    hide ReadExisting;
    hide Stuck;
  }

  /** The state that a call leaves: a pair that is answered is cached, a store is poisoned exactly when it was or when
      it meets a journal that it cannot read, and an error keeps what was cached. */
  lemma ServeOutcome(s: IdentityState, call: Call)
    ensures var (after, r) := Serve(s, call);
            var again := call.LoadOrCreate? && s.cached.Some?;
            && (r == Err(Poisoned) <==> s.poisoned || (!again && Stuck(Live(s.disk), s.disk.nodes)))
            && (after.poisoned <==> r == Err(Poisoned))
            && (r.Ok? ==> after.cached == Some(r.value))
            && (r.Err? ==> after.cached == s.cached)
            && (!s.poisoned && again ==> r == Ok(s.cached.value) && after == s)
            && (r == Err(Unreadable) <==> !s.poisoned && !again && !Stuck(Live(s.disk), s.disk.nodes) && s.cached.None?
                                          && ReadExisting(AfterRecovery(s.disk)).Err?)
  {
    hide Run;
    hide OpsOf;
    hide AfterRecovery;
    hide Stuck;
    hide Live;
  }

  /** What a recovery leaves of any directory that does not stick: neither journal nor backup, and in the target what was
      there, or the backup, or nothing, as the journal says. */
  lemma RecoveredIdentity(d: Disk<Text>)
    requires Journal in Live(d) && !Stuck(Live(d), d.nodes)
    ensures var dir, e := Live(d), AfterRecovery(d);
            && Journal !in Live(e) && Backup !in Live(e)
            && OutcomeAt(Live(e), e.nodes, Target)
            == (if SaysCommitted(dir, d.nodes) then OutcomeAt(dir, d.nodes, Target)
                else if SaysNoPrior(dir, d.nodes) then Missing
                else OutcomeAt(dir, d.nodes, if Backup in dir then Backup else Target))
  {
    var dir, n, ops := Live(d), |d.nodes|, RecoverIdentity(d);
    hide Live;
    hide SaysCommitted;
    hide SaysNoPrior;
    hide Stuck;
    hide Run;
    assert KeepsContents(ops);
    RunKeepsContents(d, ops);
    TwoSteps(dir, n, ops);
    if |ops| > 3 {
      TwoSteps(LiveAfter(LiveAfter(dir, n, ops[0]), n, ops[1]), n, ops[2..]);
      assert ops[2..][2..] == ops[4..];
    }
  }

  // ----- whole runs -----

  /** The identities on disk along a run: each is the one before it, or the next generation, committed by that call. */
  ghost predicate Lineage(states: seq<IdentityState>, events: seq<Event>, stores: seq<Option<StoreImage>>, i: nat)
    requires |states| == |events| + 1
  {
    && i < |states| && |stores| == i + 1 && stores[0] == None
    && (forall h | 0 <= h <= i :: IsIdentity(stores[h]))
    && (forall h | 0 <= h < i :: Succeeds(states[h], events[h], stores[h], stores[h + 1]))
  }

  predicate Succeeds(s: IdentityState, ev: Event, before: Option<StoreImage>, after: Option<StoreImage>) {
    && IsIdentity(after)
    && (after == before || (after.Some? && CommitsPair(s, ev.call, after.value.pair) && Generation(after) == Generation(before) + 1))
    && (ev.call.LoadOrCreate? && before.Some? ==> after == before)
    && (ev.Served? && Serve(s, ev.call).1.Ok? ==> after == Some(IdentityFile(Serve(s, ev.call).1.value)))
  }

  lemma {:induction false} RunHasLineage(states: seq<IdentityState>, events: seq<Event>, floors: seq<nat>, i: nat)
    returns (stores: seq<Option<StoreImage>>)
    requires RunOf(states, events, floors) && i < |states|
    ensures Lineage(states, events, stores, i) && HoldsIdentity(states[i], stores[i])
    decreases i
  {
    hide HoldsIdentity;
    hide Serve;
    hide LosesPower;
    hide DrawsFreshNames;
    hide CommitsPair;
    if i == 0 {
      stores := [None];
      EmptyHoldsNothing();
    } else {
      stores := RunHasLineage(states, events, floors, i - 1);
      var s, ev := states[i - 1], events[i - 1];
      assert Follows(s, ev, states[i]);
      var next: Option<StoreImage>;
      if ev.Served? {
        next := ServeMoves(s, ev.call, stores[i - 1]);
      } else {
        next := LossMoves(s, ev.call, ev.k, states[i], stores[i - 1]);
      }
      assert Succeeds(s, ev, stores[i - 1], next);
      stores := stores + [next];
    }
  }

  lemma EmptyHoldsNothing()
    ensures HoldsIdentity(IdentityState(Disk(map[], [], []), None, false), None)
  {
    var s := IdentityState(Disk(map[], [], []), None, false);
    NothingPending(s.disk);
    assert AtRest(s, None);
  }

  /** Along the identities, a generation stands for one pair. */
  lemma {:induction false} SameGenerationSamePair(states: seq<IdentityState>, events: seq<Event>, stores: seq<Option<StoreImage>>,
                                                  n: nat, a: nat, b: nat)
    requires |states| == |events| + 1 && Lineage(states, events, stores, n) && a <= b <= n
    ensures Generation(stores[a]) <= Generation(stores[b])
    ensures Generation(stores[a]) == Generation(stores[b]) ==> stores[a] == stores[b]
    decreases b
  {
    hide CommitsPair;
    hide Serve;
    if a < b {
      SameGenerationSamePair(states, events, stores, n, a, b - 1);
      assert Succeeds(states[b - 1], events[b - 1], stores[b - 1], stores[b]);
    }
  }

  /** Each identity was committed by one of the calls before. */
  lemma {:induction false} HasOrigin(states: seq<IdentityState>, events: seq<Event>, stores: seq<Option<StoreImage>>, n: nat, b: nat)
    returns (k: nat)
    requires |states| == |events| + 1 && Lineage(states, events, stores, n) && b <= n && stores[b].Some?
    ensures k < b && CommitsPair(states[k], events[k].call, stores[b].value.pair)
    decreases b
  {
    hide CommitsPair;
    hide Serve;
    assert Succeeds(states[b - 1], events[b - 1], stores[b - 1], stores[b]);
    if stores[b] == stores[b - 1] {
      k := HasOrigin(states, events, stores, n, b - 1);
    } else {
      k := b - 1;
    }
  }

  predicate DistinctDraws(events: seq<Event>) {
    forall i, j | 0 <= i < j < |events| :: events[i].call.draw.secretKeyHex != events[j].call.draw.secretKeyHex
  }

  /** The pair that an answered call hands out. */
  function Answer(states: seq<IdentityState>, events: seq<Event>, i: nat): HostKeyPair
    requires i < |events| <= |states| && events[i].Served? && Serve(states[i], events[i].call).1.Ok?
  {
    Serve(states[i], events[i].call).1.value
  }

  predicate Answered(states: seq<IdentityState>, events: seq<Event>, i: nat) {
    i < |events| <= |states| && events[i].Served? && Serve(states[i], events[i].call).1.Ok?
  }

  /** Every answer is a pair that this call or an earlier one drew and committed, also after power losses. */
  lemma AnswersWereCommitted(states: seq<IdentityState>, events: seq<Event>, floors: seq<nat>, i: nat) returns (k: nat)
    requires RunOf(states, events, floors) && Answered(states, events, i)
    ensures k <= i && CommitsPair(states[k], events[k].call, Answer(states, events, i))
    ensures Answer(states, events, i).secretKeyHex == events[k].call.draw.secretKeyHex
    ensures Answer(states, events, i).createdAt == events[k].call.draw.now
    ensures events[i].call.Rotate? ==> Answer(states, events, i).secretKeyHex == events[i].call.draw.secretKeyHex
  {
    hide Serve;
    hide HoldsIdentity;
    hide CommitsPair;
    var stores := RunHasLineage(states, events, floors, i + 1);
    assert Succeeds(states[i], events[i], stores[i], stores[i + 1]);
    k := HasOrigin(states, events, stores, i + 1, i + 1);
    CommitIsDrawn(states[k], events[k].call, Answer(states, events, i));
    if events[i].call.Rotate? { RotationIsFresh(states[i], events[i].call.draw); }
  }

  /** When no secret is drawn twice: two answers hand out the same secret if and only if they hand out the same
      generation, and then the same pair. */
  lemma SecretIffGeneration(states: seq<IdentityState>, events: seq<Event>, floors: seq<nat>, i: nat, j: nat)
    requires RunOf(states, events, floors) && DistinctDraws(events)
    requires Answered(states, events, i) && Answered(states, events, j) && i <= j
    ensures var x, y := Answer(states, events, i), Answer(states, events, j);
            && (x.secretKeyHex == y.secretKeyHex <==> x.generation == y.generation)
            && (x.generation == y.generation ==> x == y)
  {
    hide Serve;
    hide HoldsIdentity;
    hide CommitsPair;
    var stores := RunHasLineage(states, events, floors, j + 1);
    assert Succeeds(states[i], events[i], stores[i], stores[i + 1]) && Succeeds(states[j], events[j], stores[j], stores[j + 1]);
    var x, y := Answer(states, events, i), Answer(states, events, j);
    SameGenerationSamePair(states, events, stores, j + 1, i + 1, j + 1);
    if x.secretKeyHex == y.secretKeyHex {
      var k := HasOrigin(states, events, stores, j + 1, i + 1);
      var l := HasOrigin(states, events, stores, j + 1, j + 1);
      CommitIsDrawn(states[k], events[k].call, x);
      CommitIsDrawn(states[l], events[l].call, y);
      assert k == l;
      OneCommit(states[k], events[k].call, x, y);
    }
  }

  lemma OneCommit(s: IdentityState, call: Call, x: HostKeyPair, y: HostKeyPair)
    requires CommitsPair(s, call, x) && CommitsPair(s, call, y)
    ensures x == y
  {
    hide AnswersAtOnce;
    hide PlanOf;
  }

  /** Once a pair was handed out, loads hand out that pair until the next rotation, whatever power losses there are. */
  lemma LoadsRepeat(states: seq<IdentityState>, events: seq<Event>, floors: seq<nat>, i: nat, j: nat)
    requires RunOf(states, events, floors) && Answered(states, events, i) && Answered(states, events, j) && i <= j
    requires forall h | i < h <= j :: events[h].call.LoadOrCreate?
    ensures Answer(states, events, i) == Answer(states, events, j)
  {
    hide Serve;
    hide HoldsIdentity;
    hide CommitsPair;
    var stores := RunHasLineage(states, events, floors, j + 1);
    assert Succeeds(states[i], events[i], stores[i], stores[i + 1]) && Succeeds(states[j], events[j], stores[j], stores[j + 1]);
    StoreStays(states, events, stores, j + 1, i + 1, j + 1);
  }

  lemma {:induction false} StoreStays(states: seq<IdentityState>, events: seq<Event>, stores: seq<Option<StoreImage>>, n: nat, a: nat, b: nat)
    requires |states| == |events| + 1 && Lineage(states, events, stores, n) && a <= b <= n && stores[a].Some?
    requires forall h | a <= h < b :: events[h].call.LoadOrCreate?
    ensures stores[b] == stores[a]
    decreases b
  {
    hide CommitsPair;
    hide Serve;
    if a < b {
      StoreStays(states, events, stores, n, a, b - 1);
      assert Succeeds(states[b - 1], events[b - 1], stores[b - 1], stores[b]);
    }
  }
}
