/** The identity store over whole runs: a generation once returned is never followed by a smaller one. */
module HostIdentities {

  import opened Wrappers
  import opened DurableDisk
  import opened StoreFiles
  import opened TrustJournal
  import opened TrustJournalSafety
  import opened TrustJournalCommit
  import opened TrustJournalTheorems
  import opened TrustJournalRecovery
  import opened TrustStoreRuns
  import opened HostIdentityJournal

  datatype IdentityError = Poisoned | Unreadable

  /** The disk and the store object of the running process. */
  datatype IdentityState = IdentityState(disk: Disk<Text>, cached: Option<HostKeyPair>, poisoned: bool)

  /** What a call draws from the outside: key material, the time, and two random file names. */
  datatype Draw = Draw(secretKeyHex: string, now: int, tmp: nat, marker: nat)

  datatype Call = LoadOrCreate(draw: Draw) | Rotate(draw: Draw)

  // ----- one call -----

  function AfterRecovery(d: Disk<Text>): Disk<Text> {
    Run(d, RecoverIdentity(d))
  }

  function ReadExisting(d: Disk<Text>): Result<Option<HostKeyPair>, IdentityError> {
    match OutcomeAt(Live(d), d.nodes, Target)
    case Missing => Ok(None)
    case Found(IdentityFile(pair)) => Ok(Some(pair))
    case _ => Err(Unreadable)
  }

  function GenerateKeyPair(draw: Draw, generation: nat): HostKeyPair {
    HostKeyPair(generation, draw.secretKeyHex, draw.now)
  }

  /** The pair that a call returns, and whether it has to be committed first. */
  datatype Plan = Return(pair: HostKeyPair) | Commit(pair: HostKeyPair) | Fail(error: IdentityError)

  function PlanOf(s: IdentityState, call: Call): Plan {
    var existing := ReadExisting(AfterRecovery(s.disk));
    match call
    case LoadOrCreate(draw) =>
      (match existing
       case Err(error) => Fail(error)
       case Ok(Some(pair)) => Return(pair)
       case Ok(None) => Commit(GenerateKeyPair(draw, 1)))
    case Rotate(draw) =>
      if s.cached.Some? then Commit(GenerateKeyPair(draw, s.cached.value.generation + 1))
      else
        match existing
        case Err(error) => Fail(error)
        case Ok(current) => Commit(GenerateKeyPair(draw, (if current.Some? then current.value.generation else 0) + 1))
  }

  /** A call that answers without touching the disk. */
  predicate AnswersAtOnce(s: IdentityState, call: Call) {
    s.poisoned || (call.LoadOrCreate? && s.cached.Some?) || Stuck(Live(s.disk), s.disk.nodes)
  }

  /** The file operations of a call, in order. */
  function OpsOf(s: IdentityState, call: Call): seq<Op<Text>> {
    if AnswersAtOnce(s, call) then []
    else
      var plan := PlanOf(s, call);
      RecoverIdentity(s.disk)
      + if plan.Commit? then CommitIdentity(Loaded(AfterRecovery(s.disk)), IdentityFile(plan.pair), call.draw.tmp, call.draw.marker) else []
  }

  function Serve(s: IdentityState, call: Call): (IdentityState, Result<HostKeyPair, IdentityError>) {
    if s.poisoned then (s, Err(Poisoned))
    else if call.LoadOrCreate? && s.cached.Some? then (s, Ok(s.cached.value))
    else if Stuck(Live(s.disk), s.disk.nodes) then (s.(poisoned := true), Err(Poisoned))
    else
      var d := Run(s.disk, OpsOf(s, call));
      match PlanOf(s, call)
      case Fail(error) => (s.(disk := d), Err(error))
      case Return(pair) => (IdentityState(d, Some(pair), false), Ok(pair))
      case Commit(pair) => (IdentityState(d, Some(pair), false), Ok(pair))
  }

  // ----- what every state keeps -----

  function Generation(store: Option<StoreImage>): nat {
    match store
    case Some(IdentityFile(pair)) => pair.generation
    case _ => 0
  }

  predicate IsIdentity(store: Option<StoreImage>) {
    store.Some? ==> store.value.IdentityFile?
  }

  /** Between two calls of one process: the target is current and nothing is pending. */
  ghost predicate AtRest(s: IdentityState, prior: Option<StoreImage>) {
    && Current(s.disk, prior) && s.disk.pending == []
    && (s.cached.Some? ==> prior == Some(IdentityFile(s.cached.value)))
  }

  /** After a power loss: a new process, and a disk whose metadata leads to one identity. */
  ghost predicate AfterLoss(s: IdentityState, x: Outcome) {
    s.cached.None? && Steady(s.disk, x) && s.disk.pending == [] && !x.Broken?
  }

  ghost predicate HoldsIdentity(s: IdentityState, prior: Option<StoreImage>) {
    AtRest(s, prior) || AfterLoss(s, OutcomeOf(prior))
  }

  /** The identity on disk is of this generation or a later one. */
  ghost predicate Reaches(s: IdentityState, floor: nat) {
    exists prior :: IsIdentity(prior) && Generation(prior) >= floor && HoldsIdentity(s, prior)
  }

  lemma RestIsClean(d: Disk<Text>, prior: Option<StoreImage>)
    requires Current(d, prior) && d.pending == []
    ensures Clean(d, prior) && Loaded(d) == prior
    ensures OutcomeAt(Live(d), d.nodes, Target) == OutcomeOf(prior)
    ensures RecoverIdentity(d) == [] && Journal !in Live(d) && !Stuck(Live(d), d.nodes)
  {
    NothingPending(d);
  }

  /** Losing power at rest keeps the identity. */
  lemma RestSurvives(d: Disk<Text>, s: Disk<Text>, prior: Option<StoreImage>)
    requires Current(d, prior) && d.pending == [] && Crashed(d, s)
    ensures Steady(s, OutcomeOf(prior)) && s.pending == []
  {
    NothingPending(d);
    NothingPending(s);
    assert s.durable == d.durable;
    if prior.Some? { StableSurvives(d.nodes, s.nodes, d.durable, Target, StoreText(prior.value)); }
  }

  /** After the recovery, the disk is at rest with the identity that the metadata called for. */
  lemma RecoveredAtRest(s: IdentityState, prior: Option<StoreImage>)
    requires HoldsIdentity(s, prior) && !Stuck(Live(s.disk), s.disk.nodes)
    ensures var e := AfterRecovery(s.disk);
            && Current(e, prior) && e.pending == []
            && ReadExisting(e) == match prior
                                  case None => Ok(None)
                                  case Some(IdentityFile(pair)) => Ok(Some(pair))
                                  case Some(_) => Err(Unreadable)
  {
    hide Run;
    hide RecoverIdentity;
    var e := AfterRecovery(s.disk);
    if AtRest(s, prior) {
      RestIsClean(s.disk, prior);
      RunNone(s.disk);
    } else {
      NothingPending(s.disk);
      IdentityRecoveryIsSteady(s.disk, OutcomeOf(prior));
      SteadyIsCurrent(e, OutcomeOf(prior));
    }
    RestIsClean(e, prior);
  }

  /** The names that a call draws are not in use. */
  predicate DrawsFreshNames(s: IdentityState, call: Call) {
    FreshNames(AfterRecovery(s.disk), call.draw.tmp, call.draw.marker)
  }

  lemma PlannedGeneration(s: IdentityState, prior: Option<StoreImage>, call: Call)
    requires IsIdentity(prior) && HoldsIdentity(s, prior) && !AnswersAtOnce(s, call)
    ensures var plan := PlanOf(s, call);
            && !plan.Fail?
            && (plan.Return? ==> prior == Some(IdentityFile(plan.pair)))
            && (plan.Commit? ==> plan.pair.generation == Generation(prior) + 1)
  {
    RecoveredAtRest(s, prior);
    if s.cached.Some? { assert AtRest(s, prior); }
  }

  /** The pair that a call commits, if it gets that far. */
  predicate CommitsPair(s: IdentityState, call: Call, pair: HostKeyPair) {
    !AnswersAtOnce(s, call) && PlanOf(s, call) == Commit(pair)
  }

  /** One call: the identity on disk stays, or becomes the pair that the call commits, one generation later; an answer is
      the identity on disk. */
  lemma ServeMoves(s: IdentityState, call: Call, prior: Option<StoreImage>) returns (next: Option<StoreImage>)
    requires IsIdentity(prior) && HoldsIdentity(s, prior) && DrawsFreshNames(s, call)
    ensures var (after, r) := Serve(s, call);
            && IsIdentity(next) && HoldsIdentity(after, next)
            && (next == prior || (next.Some? && CommitsPair(s, call, next.value.pair) && Generation(next) == Generation(prior) + 1))
            && (r.Ok? ==> next == Some(IdentityFile(r.value)))
            && (call.LoadOrCreate? && prior.Some? ==> next == prior)
            && (call.Rotate? && r.Ok? ==> next != prior)
  {
    hide Run;
    hide CommitIdentity;
    hide RecoverIdentity;
    hide Stuck;
    var (after, r) := Serve(s, call);
    next := prior;
    if s.poisoned || Stuck(Live(s.disk), s.disk.nodes) {
      assert HoldsIdentity(after, prior);
    } else if call.LoadOrCreate? && s.cached.Some? {
      assert AtRest(s, prior);
    } else {
      PlannedGeneration(s, prior, call);
      RecoveredAtRest(s, prior);
      var e, plan := AfterRecovery(s.disk), PlanOf(s, call);
      RestIsClean(e, prior);
      if plan.Commit? {
        next := Some(IdentityFile(plan.pair));
        CommitIdentityIsSafe(e, prior, next.value, call.draw.tmp, call.draw.marker);
        RunAppend(s.disk, RecoverIdentity(s.disk), CommitIdentity(prior, next.value, call.draw.tmp, call.draw.marker));
        assert AtRest(after, next);
      } else {
        RunAppend(s.disk, RecoverIdentity(s.disk), []);
        RunNone(e);
        assert AtRest(after, prior);
      }
    }
  }

  /** A call fails exactly when the store is poisoned or has to read a disk that is stuck; otherwise it returns a
      generation that is not smaller than any before, a larger one when it rotates, and leaves that generation on disk. */
  lemma ServeReaches(s: IdentityState, call: Call, floor: nat)
    requires Reaches(s, floor) && DrawsFreshNames(s, call)
    ensures var (after, r) := Serve(s, call);
            && (r.Ok? <==> !s.poisoned && ((call.LoadOrCreate? && s.cached.Some?) || !Stuck(Live(s.disk), s.disk.nodes)))
            && (r.Ok? ==> r.value.generation >= floor && Reaches(after, r.value.generation))
            && (r.Ok? && call.Rotate? ==> r.value.generation > floor)
            && (r.Err? ==> after.poisoned && Reaches(after, floor))
  {
    hide HoldsIdentity;
    hide Stuck;
    hide AfterRecovery;
    hide ReadExisting;
    hide OpsOf;
    var prior :| IsIdentity(prior) && Generation(prior) >= floor && HoldsIdentity(s, prior);
    if !AnswersAtOnce(s, call) {
      PlannedGeneration(s, prior, call);
    }
    var next := ServeMoves(s, call, prior);
    assert Reaches(Serve(s, call).0, Generation(next)) && Generation(next) >= floor;
  }

  // ----- power loss during a call -----

  lemma LossDuringRecovery(s: IdentityState, prior: Option<StoreImage>, k: nat, after: Disk<Text>)
    requires HoldsIdentity(s, prior) && !Stuck(Live(s.disk), s.disk.nodes)
    requires k <= |RecoverIdentity(s.disk)| && Crashed(Run(s.disk, RecoverIdentity(s.disk)[..k]), after)
    ensures Steady(after, OutcomeOf(prior)) && after.pending == []
  {
    hide Run;
    hide RecoverIdentity;
    hide Crashed;
    if AtRest(s, prior) {
      RestIsClean(s.disk, prior);
      RunNone(s.disk);
      assert RecoverIdentity(s.disk)[..k] == [];
      RestSurvives(s.disk, after, prior);
    } else {
      NothingPending(s.disk);
      IdentityRecoveryIsSteady(s.disk, OutcomeOf(prior));
      SteadyPrefix(s.disk, RecoverIdentity(s.disk), k, OutcomeOf(prior));
      SteadySurvives(Run(s.disk, RecoverIdentity(s.disk)[..k]), after, OutcomeOf(prior));
    }
  }

  lemma LossDuringCommit(e: Disk<Text>, prior: Option<StoreImage>, next: StoreImage, t: nat, m: nat, k: nat, after: Disk<Text>)
    returns (found: Option<StoreImage>)
    requires Current(e, prior) && e.pending == [] && FreshNames(e, t, m)
    requires k <= |CommitIdentity(prior, next, t, m)| && Crashed(Run(e, CommitIdentity(prior, next, t, m)[..k]), after)
    ensures found in {prior, Some(next)} && Steady(after, OutcomeOf(found)) && after.pending == []
  {
    hide Run;
    hide CommitIdentity;
    hide Crashed;
    hide SafeRun;
    hide AllIn;
    hide Steady;
    RestIsClean(e, prior);
    CommitIdentityIsSafe(e, prior, next, t, m);
    SafePrefix(e, CommitIdentity(prior, next, t, m), k, prior, next);
    SafeResolves(Run(e, CommitIdentity(prior, next, t, m)[..k]), after, prior, next);
    RecoverableIsSteady(after);
    found := if Resolve(after.durable, after.nodes) == Found(next) then Some(next) else prior;
  }

  /** Power is lost after any number of the operations of a call, and a new process starts. */
  ghost predicate LosesPower(s: IdentityState, call: Call, k: nat, after: IdentityState) {
    && k <= |OpsOf(s, call)|
    && Crashed(Run(s.disk, OpsOf(s, call)[..k]), after.disk)
    && after == IdentityState(after.disk, None, false)
  }

  /** A power loss during a call: the identity on disk stays, or becomes the pair that the call was committing. */
  lemma LossMoves(s: IdentityState, call: Call, k: nat, after: IdentityState, prior: Option<StoreImage>) returns (next: Option<StoreImage>)
    requires IsIdentity(prior) && HoldsIdentity(s, prior) && DrawsFreshNames(s, call) && LosesPower(s, call, k, after)
    ensures IsIdentity(next) && HoldsIdentity(after, next)
    ensures next == prior || (next.Some? && CommitsPair(s, call, next.value.pair) && Generation(next) == Generation(prior) + 1)
    ensures call.LoadOrCreate? && prior.Some? ==> next == prior
  {
    hide Run;
    hide CommitIdentity;
    hide RecoverIdentity;
    hide Crashed;
    hide Stuck;
    hide Steady;
    var recovery := RecoverIdentity(s.disk);
    next := prior;
    if AnswersAtOnce(s, call) {
      assert OpsOf(s, call)[..k] == [];
      RunNone(s.disk);
      IdleLoss(s, prior, after.disk);
    } else if k <= |recovery| {
      assert OpsOf(s, call)[..k] == recovery[..k];
      LossDuringRecovery(s, prior, k, after.disk);
    } else {
      var plan := PlanOf(s, call);
      PlannedGeneration(s, prior, call);
      RecoveredAtRest(s, prior);
      var e := AfterRecovery(s.disk);
      RestIsClean(e, prior);
      var pair, j := IdentityFile(plan.pair), k - |recovery|;
      var commit := CommitIdentity(prior, pair, call.draw.tmp, call.draw.marker);
      assert OpsOf(s, call)[..k] == recovery + commit[..j];
      RunAppend(s.disk, recovery, commit[..j]);
      next := LossDuringCommit(e, prior, pair, call.draw.tmp, call.draw.marker, j, after.disk);
    }
    assert AfterLoss(after, OutcomeOf(next));
  }

  lemma LossReaches(s: IdentityState, call: Call, k: nat, after: IdentityState, floor: nat)
    requires Reaches(s, floor) && DrawsFreshNames(s, call) && LosesPower(s, call, k, after)
    ensures Reaches(after, floor)
  {
    hide HoldsIdentity;
    hide LosesPower;
    hide CommitsPair;
    var prior :| IsIdentity(prior) && Generation(prior) >= floor && HoldsIdentity(s, prior);
    var next := LossMoves(s, call, k, after, prior);
    assert Generation(next) >= floor;
  }

  lemma IdleLoss(s: IdentityState, prior: Option<StoreImage>, after: Disk<Text>)
    requires HoldsIdentity(s, prior) && Crashed(s.disk, after)
    ensures Steady(after, OutcomeOf(prior)) && after.pending == []
  {
    hide Crashed;
    if AtRest(s, prior) {
      RestSurvives(s.disk, after, prior);
    } else {
      SteadySurvives(s.disk, after, OutcomeOf(prior));
    }
  }

  // ----- whole runs -----

  /** What happens next: a call is served, or power is lost after some of its operations. */
  datatype Event = Served(call: Call) | PowerLost(call: Call, k: nat)

  /** The largest generation returned so far. */
  function FloorAfter(s: IdentityState, ev: Event, floor: nat): nat {
    if ev.Served? && Serve(s, ev.call).1.Ok? then Serve(s, ev.call).1.value.generation else floor
  }

  ghost predicate Follows(s: IdentityState, ev: Event, t: IdentityState) {
    && DrawsFreshNames(s, ev.call)
    && match ev
       case Served(call) => t == Serve(s, call).0
       case PowerLost(call, k) => LosesPower(s, call, k, t)
  }

  /** A run from an empty directory; losing power before the first operation is a plain restart. */
  ghost predicate RunOf(states: seq<IdentityState>, events: seq<Event>, floors: seq<nat>) {
    && |states| == |events| + 1 == |floors|
    && states[0] == IdentityState(Disk(map[], [], []), None, false) && floors[0] == 0
    && forall i | 0 <= i < |events| ::
         Follows(states[i], events[i], states[i + 1]) && floors[i + 1] == FloorAfter(states[i], events[i], floors[i])
  }

  lemma EmptyDirectoryReaches()
    ensures Reaches(IdentityState(Disk(map[], [], []), None, false), 0)
  {
    var s := IdentityState(Disk(map[], [], []), None, false);
    NothingPending(s.disk);
    assert AtRest(s, None);
    assert HoldsIdentity(s, None) && IsIdentity(None);
  }

  lemma {:induction false} FloorsAreReached(states: seq<IdentityState>, events: seq<Event>, floors: seq<nat>, i: nat)
    requires RunOf(states, events, floors) && i < |states|
    ensures Reaches(states[i], floors[i])
    ensures forall h | 0 <= h <= i :: floors[h] <= floors[i]
    ensures i > 0 && events[i - 1].Served? && Serve(states[i - 1], events[i - 1].call).1.Ok? && events[i - 1].call.Rotate? ==>
              floors[i - 1] < floors[i]
    decreases i
  {
    hide Reaches;
    hide Serve;
    hide LosesPower;
    hide DrawsFreshNames;
    if i == 0 {
      EmptyDirectoryReaches();
    } else {
      FloorsAreReached(states, events, floors, i - 1);
      var s, ev := states[i - 1], events[i - 1];
      assert Follows(s, ev, states[i]);
      if ev.Served? {
        ServeReaches(s, ev.call, floors[i - 1]);
      } else {
        LossReaches(s, ev.call, ev.k, states[i], floors[i - 1]);
      }
    }
  }

  /** Generations never go backwards: over any run of loads, rotations, power losses and restarts, a generation
      that was returned is followed only by the same or larger ones, and by larger ones when it was rotated. */
  lemma GenerationsNeverDecrease(states: seq<IdentityState>, events: seq<Event>, floors: seq<nat>, i: nat, j: nat)
    requires RunOf(states, events, floors) && i < j < |events|
    requires events[i].Served? && Serve(states[i], events[i].call).1.Ok?
    requires events[j].Served? && Serve(states[j], events[j].call).1.Ok?
    ensures var earlier, later := Serve(states[i], events[i].call).1.value.generation, Serve(states[j], events[j].call).1.value.generation;
            earlier <= later && (events[j].call.Rotate? ==> earlier < later)
  {
    hide Reaches;
    hide Serve;
    hide Follows;
    FloorsAreReached(states, events, floors, j);
    FloorsAreReached(states, events, floors, j + 1);
    assert floors[i + 1] <= floors[j];
  }

  // ----- the object -----

  class FileHostIdentityStore {
    var disk: Disk<Text>
    var cached: Option<HostKeyPair>
    var poisoned: bool

    function View(): IdentityState
      reads this
    {
      IdentityState(disk, cached, poisoned)
    }

    constructor (d: Disk<Text>)
      ensures View() == IdentityState(d, None, false)
    {
      disk, cached, poisoned := d, None, false;
    }

    method Perform(ops: seq<Op<Text>>)
      modifies this`disk
      ensures disk == Run(old(disk), ops)
    {
      var i := 0;
      while i < |ops|
        invariant i <= |ops| && Run(disk, ops[i..]) == Run(old(disk), ops)
      {
        disk := Exec(disk, ops[i]);
        i := i + 1;
      }
    }

    /** Finish or undo an interrupted commit; false when the journal cannot be resolved. */
    method RecoverIfNeeded() returns (ok: bool)
      modifies this`disk, this`poisoned
      ensures ok == !Stuck(Live(old(disk)), old(disk).nodes) && poisoned == (old(poisoned) || !ok)
      ensures disk == AfterRecovery(old(disk))
    {
      hide Run;
      var dir := Live(disk);
      RunNone(disk);
      if Journal !in dir { return true; }
      if Stuck(dir, disk.nodes) {
        poisoned := true;
        return false;
      }
      if SaysCommitted(dir, disk.nodes) {
        Perform(CLEANUP + [SyncDir]);
      } else {
        Perform(RollbackKnownTransaction(dir, !SaysNoPrior(dir, disk.nodes)));
      }
      return true;
    }

    method CommitKeyPair(pair: HostKeyPair, draw: Draw)
      modifies this`disk
      ensures disk == Run(old(disk), CommitIdentity(Loaded(old(disk)), IdentityFile(pair), draw.tmp, draw.marker))
    {
      hide Run;
      var prior, next := Loaded(disk), IdentityFile(pair);
      RunAppend(disk, PrepareIdentity(prior), Committing(prior, next, draw.tmp, draw.marker));
      RunAppend(disk, PrepareIdentity(prior) + Committing(prior, next, draw.tmp, draw.marker), CLEANUP + [SyncDir]);
      Perform(PrepareIdentity(prior));
      Perform(Committing(prior, next, draw.tmp, draw.marker));
      Perform(CLEANUP + [SyncDir]);
    }

    method Load(draw: Draw) returns (r: Result<HostKeyPair, IdentityError>)
      modifies this
      ensures (View(), r) == Serve(old(View()), LoadOrCreate(draw))
    {
      hide Run;
      hide CommitIdentity;
      hide RecoverIdentity;
      hide Stuck;
      if poisoned { return Err(Poisoned); }
      if cached.Some? { return Ok(cached.value); }
      RunAppend(disk, RecoverIdentity(disk), []);
      RunNone(disk);
      var ok := RecoverIfNeeded();
      if !ok { StuckStays(old(disk)); return Err(Poisoned); }
      RunNone(disk);
      var existing :- ReadExisting(disk);
      if existing.Some? {
        cached := existing;
        return Ok(existing.value);
      }
      var created := GenerateKeyPair(draw, 1);
      RunAppend(old(disk), RecoverIdentity(old(disk)), CommitIdentity(Loaded(disk), IdentityFile(created), draw.tmp, draw.marker));
      CommitKeyPair(created, draw);
      cached := Some(created);
      return Ok(created);
    }

    method RotateKeys(draw: Draw) returns (r: Result<HostKeyPair, IdentityError>)
      modifies this
      ensures (View(), r) == Serve(old(View()), Rotate(draw))
    {
      hide Run;
      hide CommitIdentity;
      hide RecoverIdentity;
      hide Stuck;
      if poisoned { return Err(Poisoned); }
      RunAppend(disk, RecoverIdentity(disk), []);
      var ok := RecoverIfNeeded();
      if !ok { StuckStays(old(disk)); return Err(Poisoned); }
      RunNone(disk);
      var current := cached;
      if current.None? {
        current :- ReadExisting(disk);
      }
      var rotated := GenerateKeyPair(draw, (if current.Some? then current.value.generation else 0) + 1);
      RunAppend(old(disk), RecoverIdentity(old(disk)), CommitIdentity(Loaded(disk), IdentityFile(rotated), draw.tmp, draw.marker));
      CommitKeyPair(rotated, draw);
      cached := Some(rotated);
      return Ok(rotated);
    }
  }

  lemma StuckStays(d: Disk<Text>)
    requires Stuck(Live(d), d.nodes)
    ensures AfterRecovery(d) == d
  {}
}
