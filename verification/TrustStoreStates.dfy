/** The device trust store as a state machine, and the agreement of memory and disk over every run of it. */
module TrustStoreStates {

  import opened Wrappers
  import opened DurableDisk
  import opened StoreFiles
  import opened DeviceRecords
  import opened DeviceRequests
  import opened TrustJournal
  import opened TrustJournalCommit
  import opened TrustJournalTheorems
  import opened TrustStoreRuns
  import opened TrustStoreMemory

  /** What the operating system contributes to one commit: an error, and two random file names. */
  datatype Io = Io(fault: Fault, tmp: nat, marker: nat)

  datatype StoreState = StoreState(disk: Disk<Text>, devices: Devices, poisoned: bool)

  // ----- the store as a state machine -----

  function CommitStep(s: StoreState, staged: Devices, io: Io): StoreState {
    var prior := Loaded(s.disk);
    if Journal in Live(s.disk) then s.(disk := Run(s.disk, RefusedOps(prior)))
    else
      StoreState(
        Run(s.disk, CommitOps(prior, Serialize(staged), io.tmp, io.marker, io.fault)),
        if Commits(io.fault) then staged else s.devices,
        Poisons(io.fault))
  }

  predicate CommitSucceeds(s: StoreState, io: Io) {
    Journal !in Live(s.disk) && Commits(io.fault)
  }

  lemma CommitStepMap(s: StoreState, staged: Devices, io: Io)
    ensures CommitStep(s, staged, io).devices == if CommitSucceeds(s, io) then staged else s.devices
  {}

  function Handle(fp: FingerprintFn, maxDevices: nat, s: StoreState, req: Request, now: int, io: Io): (StoreState, Result<Answer, TrustError>) {
    if s.poisoned then (s, Err(StorePoisoned))
    else
      match Stage(fp, maxDevices, s.devices, req, now)
      case Refused(error) => (s, Err(error))
      case NoChange(answer) => (s, Ok(answer))
      case Change(staged, answer) =>
        (CommitStep(s, staged, io), if CommitSucceeds(s, io) then Ok(answer) else Err(CommitFailed))
  }

  /** What a start would load from this disk, recovery and validation included. */
  function Reload(fp: FingerprintFn, maxDevices: nat, d: Disk<Text>): Result<Devices, LoadError> {
    var e := Run(d, RecoverOps(d));
    match OutcomeAt(Live(e), e.nodes, Target)
    case Missing => Ok([])
    case Found(image) => Load(fp, maxDevices, image)
    case Broken => Err(Corrupted)
  }

  /** A start; a failed one leaves a store that refuses every request. */
  function Start(fp: FingerprintFn, maxDevices: nat, d: Disk<Text>): StoreState {
    var e := Run(d, RecoverOps(d));
    match Reload(fp, maxDevices, d)
    case Ok(devices) => StoreState(e, devices, false)
    case Err(_) => StoreState(e, [], true)
  }

  // ----- memory agrees with disk -----

  lemma StandingReloads(fp: FingerprintFn, maxDevices: nat, d: Disk<Text>, x: Outcome, devices: Devices)
    requires Stands(d, x) && Represents(x, devices)
    ensures Reload(fp, maxDevices, d) == Ok(devices) <==> Storable(fp, maxDevices, devices)
    ensures Agrees(Run(d, RecoverOps(d)), devices)
  {
    hide Run;
    hide RecoverOps;
    RestartRecovers(d, x);
    RestartAgrees(d, x, devices);
    ReloadsExactly(fp, maxDevices, devices);
  }

  /** A store that agrees with its disk reloads to the map in memory exactly when that map passes validation. */
  lemma AgreementReloads(fp: FingerprintFn, maxDevices: nat, s: StoreState)
    requires Agrees(s.disk, s.devices)
    ensures Reload(fp, maxDevices, s.disk) == Ok(s.devices) <==> Storable(fp, maxDevices, s.devices)
  {
    hide Reload;
    hide Stands;
    AgreementStands(s.disk, s.devices);
    StandingReloads(fp, maxDevices, s.disk, OutcomeAt(Live(s.disk), s.disk.nodes, Target), s.devices);
  }

  /** Every request, with any I/O error, keeps the agreement, or poisons the store. */
  lemma HandleAgrees(fp: FingerprintFn, maxDevices: nat, s: StoreState, req: Request, now: int, io: Io)
    requires !s.poisoned && Agrees(s.disk, s.devices) && FreshNames(s.disk, io.tmp, io.marker)
    ensures var after := Handle(fp, maxDevices, s, req, now, io).0; !after.poisoned ==> Agrees(after.disk, after.devices)
  {
    hide Run;
    hide Agrees;
    hide CommitOps;
    hide RefusedOps;
    hide Loaded;
    hide Stage;
    var stage := Stage(fp, maxDevices, s.devices, req, now);
    if stage.Change? {
      if Journal in Live(s.disk) {
        RefusalAgrees(s.disk, s.devices);
      } else if Commits(io.fault) {
        CommitAgrees(s.disk, s.devices, stage.devices, io.tmp, io.marker, io.fault);
      } else if Aborts(io.fault) {
        AbortAgrees(s.disk, s.devices, Serialize(stage.devices), io.tmp, io.marker, io.fault);
      }
    }
  }

  /** The exact condition for one request: what it commits is what the next start loads if and only if the
      request was timely, and the next start fails otherwise. */
  lemma RequestReloads(fp: FingerprintFn, maxDevices: nat, s: StoreState, req: Request, now: int, io: Io)
    requires !s.poisoned && Agrees(s.disk, s.devices) && Storable(fp, maxDevices, s.devices)
    requires FreshNames(s.disk, io.tmp, io.marker)
    requires Stage(fp, maxDevices, s.devices, req, now).Change? && CommitSucceeds(s, io)
    ensures var after := Handle(fp, maxDevices, s, req, now, io).0;
            Reload(fp, maxDevices, after.disk) == if Timely(fp, s.devices, req, now) then Ok(after.devices) else Err(Corrupted)
  {
    hide Run;
    hide Agrees;
    hide CommitOps;
    hide Loaded;
    hide Stage;
    hide Timely;
    hide Stands;
    hide Storable;
    hide Load;
    var after := Handle(fp, maxDevices, s, req, now, io).0;
    HandleAgrees(fp, maxDevices, s, req, now, io);
    AgreementReloads(fp, maxDevices, after);
    StagedIsStorable(fp, maxDevices, s.devices, req, now);
    if !Timely(fp, s.devices, req, now) {
      StagedFits(fp, maxDevices, s.devices, req, now);
      ReloadsOrFails(fp, maxDevices, after.devices);
      AgreementStands(after.disk, after.devices);
      RestartRecovers(after.disk, OutcomeAt(Live(after.disk), after.disk.nodes, Target));
      EmptyIsStorable(fp, maxDevices);
    }
  }

  lemma EmptyIsStorable(fp: FingerprintFn, maxDevices: nat)
    ensures Storable(fp, maxDevices, [])
  {}

  // ----- whole runs, with restarts -----

  datatype Event = Ask(req: Request, now: int, io: Io) | Restart

  function Step(fp: FingerprintFn, maxDevices: nat, s: StoreState, ev: Event): StoreState {
    match ev
    case Ask(req, now, io) => Handle(fp, maxDevices, s, req, now, io).0
    case Restart => Start(fp, maxDevices, s.disk)
  }

  predicate PairedBy(devices: Devices, time: int) {
    forall r | r in devices :: r.pairedAt <= time
  }

  /** A map that the file may hold: it passes validation and was paired in the past. */
  predicate Sane(fp: FingerprintFn, maxDevices: nat, devices: Devices, time: int) {
    Storable(fp, maxDevices, devices) && PairedBy(devices, time)
  }

  ghost predicate Keeps(s: StoreState, x: Outcome, stored: Devices) {
    && Stands(s.disk, x) && Represents(x, stored)
    && (!s.poisoned ==> Agrees(s.disk, s.devices) && stored == s.devices)
  }

  /** A restart finds a sane map; while the store is not poisoned, that is the map in memory. */
  ghost predicate Sound(fp: FingerprintFn, maxDevices: nat, s: StoreState, time: int) {
    && Sane(fp, maxDevices, s.devices, time)
    && exists x, stored :: Keeps(s, x, stored) && Sane(fp, maxDevices, stored, time)
  }

  /** The clock is positive and never goes back, file names are fresh, and a device is not seen before it was paired. */
  ghost predicate Permits(fp: FingerprintFn, maxDevices: nat, s: StoreState, ev: Event, time: int) {
    ev.Ask? ==>
      && ev.now > 0 && ev.now >= time
      && FreshNames(s.disk, ev.io.tmp, ev.io.marker)
      && (ev.req.RecordSeen? && ev.req.timestamp.Some? ==> SeenAfterPairing(s.devices, ev.req.id, ev.req.timestamp.value))
  }

  predicate SeenAfterPairing(devices: Devices, id: string, timestamp: int) {
    Find(devices, id).Some? ==> timestamp >= Find(devices, id).value.pairedAt
  }

  function TimeAfter(ev: Event, time: int): int {
    if ev.Ask? then ev.now else time
  }

  lemma StagedIsSane(fp: FingerprintFn, maxDevices: nat, s: StoreState, ev: Event, time: int)
    requires ev.Ask? && Permits(fp, maxDevices, s, ev, time) && Sane(fp, maxDevices, s.devices, time)
    requires Stage(fp, maxDevices, s.devices, ev.req, ev.now).Change?
    ensures Sane(fp, maxDevices, Stage(fp, maxDevices, s.devices, ev.req, ev.now).devices, ev.now)
  {
    hide Storable;
    StagedIsStorable(fp, maxDevices, s.devices, ev.req, ev.now);
    StagedPairing(fp, maxDevices, s.devices, ev.req, ev.now);
  }

  lemma StagedPairing(fp: FingerprintFn, maxDevices: nat, devices: Devices, req: Request, now: int)
    requires PairedBy(devices, now) && Stage(fp, maxDevices, devices, req, now).Change?
    ensures PairedBy(Stage(fp, maxDevices, devices, req, now).devices, now)
  {
    var after := Stage(fp, maxDevices, devices, req, now).devices;
    if !req.RemoveDevice? {
      forall r | r in after ensures r.pairedAt <= now { }
    }
  }

  lemma SoundReloads(fp: FingerprintFn, maxDevices: nat, s: StoreState, time: int)
    requires Sound(fp, maxDevices, s, time) && !s.poisoned
    ensures Reload(fp, maxDevices, s.disk) == Ok(s.devices)
  {
    hide Reload;
    hide Storable;
    AgreementReloads(fp, maxDevices, s);
  }

  lemma AskIsSound(fp: FingerprintFn, maxDevices: nat, s: StoreState, ev: Event, time: int)
    requires Sound(fp, maxDevices, s, time) && Permits(fp, maxDevices, s, ev, time) && ev.Ask?
    ensures Sound(fp, maxDevices, Step(fp, maxDevices, s, ev), ev.now)
  {
    hide Run;
    hide CommitOps;
    hide RefusedOps;
    hide Loaded;
    hide Stage;
    hide Agrees;
    hide Stands;
    hide Storable;
    var x, stored :| Keeps(s, x, stored) && Sane(fp, maxDevices, stored, time);
    var after := Step(fp, maxDevices, s, ev);
    var stage := Stage(fp, maxDevices, s.devices, ev.req, ev.now);
    if s.poisoned || !stage.Change? {
      assert after == s;
      assert Keeps(after, x, stored) && Sane(fp, maxDevices, stored, ev.now);
    } else {
      StagedIsSane(fp, maxDevices, s, ev, time);
      HandleAgrees(fp, maxDevices, s, ev.req, ev.now, ev.io);
      if after.poisoned {
        var y := FaultStands(s.disk, s.devices, stage.devices, ev.io.tmp, ev.io.marker, ev.io.fault);
        var found := if Represents(y, s.devices) then s.devices else stage.devices;
        assert Keeps(after, y, found) && Sane(fp, maxDevices, found, ev.now);
      } else {
        AgreementStands(after.disk, after.devices);
        assert Keeps(after, OutcomeAt(Live(after.disk), after.disk.nodes, Target), after.devices);
      }
    }
  }

  lemma RestartIsSound(fp: FingerprintFn, maxDevices: nat, s: StoreState, time: int)
    requires Sound(fp, maxDevices, s, time)
    ensures Sound(fp, maxDevices, Start(fp, maxDevices, s.disk), time) && !Start(fp, maxDevices, s.disk).poisoned
  {
    hide Run;
    hide RecoverOps;
    hide Agrees;
    hide Stands;
    hide Storable;
    hide Reload;
    var x, stored :| Keeps(s, x, stored) && Sane(fp, maxDevices, stored, time);
    StandingReloads(fp, maxDevices, s.disk, x, stored);
    var after := Start(fp, maxDevices, s.disk);
    assert after.devices == stored;
    AgreementStands(after.disk, after.devices);
    assert Keeps(after, OutcomeAt(Live(after.disk), after.disk.nodes, Target), after.devices);
  }

  ghost predicate RunOf(fp: FingerprintFn, maxDevices: nat, states: seq<StoreState>, events: seq<Event>, times: seq<int>) {
    && |states| == |events| + 1 == |times|
    && forall i | 0 <= i < |events| ::
         && Permits(fp, maxDevices, states[i], events[i], times[i])
         && states[i + 1] == Step(fp, maxDevices, states[i], events[i])
         && times[i + 1] == TimeAfter(events[i], times[i])
  }

  /** Memory agrees with disk over any run of requests, I/O errors and restarts: every store that is not
      poisoned would reload, through the full validation, to exactly the map in memory. */
  lemma {:induction false} EveryStateReloads(fp: FingerprintFn, maxDevices: nat, states: seq<StoreState>, events: seq<Event>,
                                             times: seq<int>, i: nat)
    requires RunOf(fp, maxDevices, states, events, times) && i < |states|
    requires Sound(fp, maxDevices, states[0], times[0])
    ensures Sound(fp, maxDevices, states[i], times[i])
    ensures !states[i].poisoned ==> Reload(fp, maxDevices, states[i].disk) == Ok(states[i].devices)
    decreases i
  {
    hide Sound;
    hide Step;
    hide Permits;
    hide Reload;
    if i > 0 {
      EveryStateReloads(fp, maxDevices, states, events, times, i - 1);
      if events[i - 1].Ask? {
        AskIsSound(fp, maxDevices, states[i - 1], events[i - 1], times[i - 1]);
      } else {
        RestartStep(fp, maxDevices, states[i - 1]);
        RestartIsSound(fp, maxDevices, states[i - 1], times[i - 1]);
      }
    }
    if !states[i].poisoned {
      SoundReloads(fp, maxDevices, states[i], times[i]);
    }
  }

  lemma RestartStep(fp: FingerprintFn, maxDevices: nat, s: StoreState)
    ensures Step(fp, maxDevices, s, Restart) == Start(fp, maxDevices, s.disk)
  {}

  lemma EmptyDirectoryStands(fp: FingerprintFn, maxDevices: nat)
    ensures Stands(Disk(map[], [], []), Missing) && Represents(Missing, []) && Storable(fp, maxDevices, [])
  {}

  /** A store that starts on an empty directory is sound, so every run from there agrees with its disk. */
  lemma EmptyDirectoryIsSound(fp: FingerprintFn, maxDevices: nat, time: int)
    ensures Sound(fp, maxDevices, Start(fp, maxDevices, Disk(map[], [], [])), time)
  {
    var d := Disk(map[], [], []);
    var s := Start(fp, maxDevices, d);
    EmptyDirectoryStands(fp, maxDevices);
    assert s == StoreState(d, [], false);
    assert Keeps(s, Missing, []);
  }

  /** A store that agrees with its disk, with a journal left by an absorbed cleanup error. */
  predicate Blocked(s: StoreState) {
    !s.poisoned && Agrees(s.disk, s.devices) && Journal in Live(s.disk)
  }

  /** With a journal in the way a change is refused: memory, target and journal stay, the backup goes. */
  lemma LeftoverJournalRefuses(fp: FingerprintFn, maxDevices: nat, s: StoreState, req: Request, now: int, io: Io)
    requires Blocked(s) && Stage(fp, maxDevices, s.devices, req, now).Change?
    ensures var (after, answer) := Handle(fp, maxDevices, s, req, now, io);
            && answer == Err(CommitFailed) && Blocked(after) && after.devices == s.devices
            && OutcomeAt(Live(after.disk), after.disk.nodes, Target) == OutcomeAt(Live(s.disk), s.disk.nodes, Target)
            && JournalContent(Live(after.disk), after.disk.nodes) == JournalContent(Live(s.disk), s.disk.nodes)
            && Backup !in Live(after.disk)
  {
    hide Run;
    hide Agrees;
    hide RefusedOps;
    hide Loaded;
    hide Stage;
    RefusalAgrees(s.disk, s.devices);
  }

  lemma OtherRequestsKeep(fp: FingerprintFn, maxDevices: nat, s: StoreState, req: Request, now: int, io: Io)
    requires !s.poisoned && !Stage(fp, maxDevices, s.devices, req, now).Change?
    ensures Handle(fp, maxDevices, s, req, now, io).0 == s
  {
    hide Stage;
  }

  /** From such a state on, until a restart, every change is refused and the map in memory stays what it was. */
  lemma {:induction false} BlockedUntilRestart(fp: FingerprintFn, maxDevices: nat, states: seq<StoreState>, events: seq<Event>, i: nat, j: nat)
    requires |states| == |events| + 1 && i <= j < |states| && Blocked(states[i])
    requires forall k | i <= k < j :: events[k].Ask? && states[k + 1] == Step(fp, maxDevices, states[k], events[k])
    ensures Blocked(states[j]) && states[j].devices == states[i].devices
    ensures JournalContent(Live(states[j].disk), states[j].disk.nodes) == JournalContent(Live(states[i].disk), states[i].disk.nodes)
    ensures j < |events| && events[j].Ask? && Stage(fp, maxDevices, states[j].devices, events[j].req, events[j].now).Change? ==>
              Handle(fp, maxDevices, states[j], events[j].req, events[j].now, events[j].io).1 == Err(CommitFailed)
    decreases j
  {
    hide Handle;
    hide Stage;
    hide Blocked;
    hide JournalContent;
    hide OutcomeAt;
    if i < j {
      BlockedUntilRestart(fp, maxDevices, states, events, i, j - 1);
      var s, ev := states[j - 1], events[j - 1];
      if Stage(fp, maxDevices, s.devices, ev.req, ev.now).Change? {
        LeftoverJournalRefuses(fp, maxDevices, s, ev.req, ev.now, ev.io);
      } else {
        BlockedIsNotPoisoned(s);
        OtherRequestsKeep(fp, maxDevices, s, ev.req, ev.now, ev.io);
      }
    }
    if j < |events| && events[j].Ask? && Stage(fp, maxDevices, states[j].devices, events[j].req, events[j].now).Change? {
      LeftoverJournalRefuses(fp, maxDevices, states[j], events[j].req, events[j].now, events[j].io);
    }
  }

  lemma BlockedIsNotPoisoned(s: StoreState)
    requires Blocked(s)
    ensures !s.poisoned
  {}

  // ----- the blocks of a commit, put together -----

  lemma AssembledCommit(prior: Option<StoreImage>, next: StoreImage, io: Io)
    ensures Aborts(io.fault) ==> AfterPrepare(None, next, io.tmp, io.marker, io.fault) == AfterPrepare(prior, next, io.tmp, io.marker, io.fault)
  {}

  lemma AbortedOps(next: StoreImage, io: Io)
    ensures io.fault.PrepareSyncFault? ==> AfterPrepare(None, next, io.tmp, io.marker, io.fault) == ABORT
    ensures io.fault.TargetFault? ==>
              AfterPrepare(None, next, io.tmp, io.marker, io.fault)
              == [SyncDir] + Take(WriteOps(Tmp(io.tmp), StoreText(next)), io.fault.done) + [Op.Remove(Tmp(io.tmp))] + ABORT
  {}

  /** The operations up to the rollback, and with it. */
  lemma PoisonedLog(before: seq<Op<Text>>, log: seq<Op<Text>>, prior: Option<StoreImage>, next: StoreImage, io: Io)
    requires Poisons(io.fault)
    requires log == before + Prepare(prior) + Replace(next, io.tmp)
                  + if io.fault.CommitSyncFault? then []
                    else [SyncDir] + Take(MarkerOps(prior, io.marker), io.fault.done) + [Op.Remove(Tmp(io.marker))]
    ensures log == before + (Prepare(prior) + BeforeRollback(prior, next, io.tmp, io.marker, io.fault))
    ensures log + Take(RollbackOps(prior.Some?, prior.None?), io.fault.rolledBack)
         == before + CommitOps(prior, next, io.tmp, io.marker, io.fault)
  {
    hide Prepare;
    hide Replace;
    hide RollbackOps;
    hide MarkerOps;
    hide AfterPrepare;
    PoisonOps(prior, next, io.tmp, io.marker, io.fault);
    var rollback := Take(RollbackOps(prior.Some?, prior.None?), io.fault.rolledBack);
    assert before + (Prepare(prior) + BeforeRollback(prior, next, io.tmp, io.marker, io.fault)) + rollback
        == before + (Prepare(prior) + (BeforeRollback(prior, next, io.tmp, io.marker, io.fault) + rollback));
  }

  lemma CommittedLog(before: seq<Op<Text>>, log: seq<Op<Text>>, prior: Option<StoreImage>, next: StoreImage, io: Io)
    requires Commits(io.fault)
    requires log == before + Prepare(prior) + Replace(next, io.tmp) + (Mark(prior, io.marker) + [SyncDir]) + FinishOps(io.fault)
    ensures log == before + CommitOps(prior, next, io.tmp, io.marker, io.fault)
  {
    hide Prepare;
    hide Replace;
    hide Mark;
  }

  /** Writing the backup does not touch the name of the journal. */
  lemma BackupHidesNoJournal(d: Disk<Text>, prior: Option<StoreImage>)
    ensures Journal in Live(Run(d, BackupOps(prior))) <==> Journal in Live(d)
  {
    var ops := BackupOps(prior);
    if prior.Some? {
      RunThree(d, ops);
      LiveExec(d, ops[0]);
      LiveExec(Exec(d, ops[0]), ops[1]);
      LiveExec(Exec(Exec(d, ops[0]), ops[1]), ops[2]);
    }
  }
}
