/** The durable host identity: its commit and recovery over the same directory model, and what a power loss can
    do to them. */
module HostIdentityJournal {

  import opened Wrappers
  import opened DurableDisk
  import opened StoreFiles
  import opened TrustJournal
  import opened TrustJournalSafety
  import opened TrustJournalCommit
  import opened TrustJournalTheorems
  import opened TrustJournalRecovery

  /** Unlike the device store, the identity store makes its backup durable before it creates the journal. */
  function PrepareIdentity(prior: Option<StoreImage>): seq<Op<Text>> {
    (if prior.Some? then BackupOps(prior) + [SyncDir] else []) + JournalOps(prior)
  }

  function CommitIdentity(prior: Option<StoreImage>, next: StoreImage, t: nat, m: nat): seq<Op<Text>> {
    PrepareIdentity(prior) + Committing(prior, next, t, m) + (CLEANUP + [SyncDir])
  }

  predicate Unparseable(dir: Dir, nodes: Nodes) {
    Journal in dir && (JournalContent(dir, nodes).None? || JournalContent(dir, nodes).value.StoreText?)
  }

  /** A journal that cannot be parsed, without a backup: the store refuses to start from here, ever. */
  predicate Stuck(dir: Dir, nodes: Nodes) {
    Unparseable(dir, nodes) && Backup !in dir
  }

  function RollbackKnownTransaction(dir: Dir, hasPriorCommit: bool): seq<Op<Text>> {
    (if hasPriorCommit && Backup in dir then RESTORE + [SyncDir]
     else if !hasPriorCommit && Target in dir then [Remove(Target), SyncDir]
     else [])
    + (if !hasPriorCommit && Backup in dir then [Remove(Backup)] else [])
    + [Remove(Journal), SyncDir]
  }

  function RecoverIdentity(d: Disk<Text>): seq<Op<Text>> {
    var dir := Live(d);
    if Journal !in dir || Stuck(dir, d.nodes) then []
    else if SaysCommitted(dir, d.nodes) then CLEANUP + [SyncDir]
    else RollbackKnownTransaction(dir, !SaysNoPrior(dir, d.nodes))
  }

  // ----- the commit is safe at every point -----

  lemma PrepareIdentityIsSafe(d: Disk<Text>, prior: Option<StoreImage>, next: StoreImage)
    requires Current(d, prior) && Clean(d, prior)
    ensures var e := Run(d, PrepareIdentity(prior));
            && SafeRun(d, PrepareIdentity(prior), prior, next)
            && AllIn(Journaled, e, prior, next)
            && In(Prepared, Live(e), e.nodes, prior, next)
            && Live(e).Keys == Live(d).Keys + {Journal} + (if prior.Some? then {Backup} else {})
  {
    hide SafeRun;
    hide Run;
    hide AllIn;
    hide In;
    hide BackupOps;
    hide JournalOps;
    if prior.None? {
      PrepareIsSafe(d, prior, next);
      assert PrepareIdentity(prior) == [] + JournalOps(prior) == JournalOps(prior);
      NoBackupOps(prior);
      assert Prepare(prior) == [] + JournalOps(prior) == JournalOps(prior);
    } else {
      BackupIsSafe(d, prior, next);
      var b := Run(d, BackupOps(prior));
      LiveIsImage(b.durable, b.pending);
      AllSafe(BackedUp, b, prior, next);
      ImageIn(BackedUp, b, prior, next);
      SyncIsSafe(BackedUp, b, prior, next);
      var s := Run(b, [SyncDir]);
      JournalIsSafe(s, prior, next);
      JournalCompletes(s, prior, next);
      SafeRunAppend(d, BackupOps(prior), [SyncDir], prior, next);
      SafeRunAppend(d, BackupOps(prior) + [SyncDir], JournalOps(prior), prior, next);
    }
  }

  lemma NoBackupOps(prior: Option<StoreImage>)
    requires prior.None?
    ensures BackupOps(prior) == []
  {}

  lemma ImageIn(phase: Phase, d: Disk<Text>, prior: Option<StoreImage>, next: StoreImage)
    requires AllIn(phase, d, prior, next) && Live(d) in ImagesOf(d)
    ensures In(phase, Live(d), d.nodes, prior, next)
  {}

  /** At every point of an identity commit, each surviving directory resolves to the old or the new identity. */
  lemma CommitIdentityIsSafe(d: Disk<Text>, prior: Option<StoreImage>, next: StoreImage, t: nat, m: nat)
    requires Current(d, prior) && Clean(d, prior) && FreshNames(d, t, m)
    ensures SafeRun(d, CommitIdentity(prior, next, t, m), prior, next)
    ensures var e := Run(d, CommitIdentity(prior, next, t, m));
            Current(e, Some(next)) && Clean(e, Some(next)) && e.pending == []
  {
    hide SafeRun;
    hide Run;
    hide AllIn;
    hide In;
    hide PrepareIdentity;
    hide Committing;
    hide CLEANUP;
    PrepareIdentityIsSafe(d, prior, next);
    var p := Run(d, PrepareIdentity(prior));
    AllSafe(Journaled, p, prior, next);
    CommittingIsSafe(p, t, m, prior, next);
    var c := Run(p, Committing(prior, next, t, m));
    FinishIsSafe(c, NoFault, prior, next);
    var e := Run(c, CLEANUP + [SyncDir]);
    CommittedIsCurrent(e, prior, next);
    SafeRunAppend(d, PrepareIdentity(prior), Committing(prior, next, t, m), prior, next);
    SafeRunAppend(d, PrepareIdentity(prior) + Committing(prior, next, t, m), CLEANUP + [SyncDir], prior, next);
  }

  lemma CommittedIsCurrent(e: Disk<Text>, prior: Option<StoreImage>, next: StoreImage)
    requires AllIn(Committed, e, prior, next) && e.pending == [] && Journal !in Live(e) && Backup !in Live(e)
    ensures Current(e, Some(next)) && Clean(e, Some(next))
  {
    NothingPending(e);
    assert In(Committed, e.durable, e.nodes, prior, next);
  }

  // ----- recovery -----

  /** Unless it is stuck, recovery brings back the store that the metadata calls for, however often it is cut short. */
  lemma IdentityRecoveryIsSteady(s: Disk<Text>, x: Outcome)
    requires Steady(s, x) && s.pending == [] && !Stuck(s.durable, s.nodes)
    ensures var e := Run(s, RecoverIdentity(s));
            && SteadyRun(s, RecoverIdentity(s), x) && Steady(e, x) && e.pending == []
            && Journal !in Live(e) && OutcomeAt(Live(e), e.nodes, Target) == x
  {
    hide SteadyRun;
    hide Run;
    NothingPending(s);
    assert SteadyAt(s.durable, s.nodes, x);
    if Journal in s.durable && !SaysCommitted(s.durable, s.nodes) && SaysNoPrior(s.durable, s.nodes) && Target !in s.durable {
      DropJournal(s, x);
      assert RecoverIdentity(s) == [] + [] + [Remove(Journal), SyncDir] == [Remove(Journal), SyncDir];
    } else {
      SameRecovery(s, x);
      RecoveryIsSteady(s, x);
    }
  }

  lemma SameRecovery(s: Disk<Text>, x: Outcome)
    requires SteadyAt(s.durable, s.nodes, x) && s.pending == [] && !Stuck(s.durable, s.nodes)
    requires Journal in s.durable && !SaysCommitted(s.durable, s.nodes) && SaysNoPrior(s.durable, s.nodes) ==> Target in s.durable
    ensures RecoverIdentity(s) == RecoverOps(s)
  {
    hide RESTORE;
    hide CLEANUP;
    NothingPending(s);
    var dir := s.durable;
    var drop: seq<Op<Text>> := [Remove(Journal), SyncDir];
    if Journal in dir && !SaysCommitted(dir, s.nodes) {
      if SaysNoPrior(dir, s.nodes) {
        var undo: seq<Op<Text>> := [Remove(Target), SyncDir];
        assert undo + [] + drop == undo + drop;
      } else if Backup in dir {
        assert RESTORE + [SyncDir] + [] + drop == RESTORE + [SyncDir] + drop;
      } else {
        assert [] + [] + drop == [] + drop == drop;
      }
    }
  }

  // ----- when the store gets stuck -----

  /** No image has a journal yet, every image has the backup, or every image is committed. */
  ghost predicate Recoverably(d: Disk<Text>, prior: Option<StoreImage>, next: StoreImage) {
    || (forall dir | dir in ImagesOf(d) :: Journal !in dir)
    || (forall dir | dir in ImagesOf(d) :: Backup in dir)
    || AllIn(Committed, d, prior, next)
  }

  predicate KeepsBackup(op: Op<Text>) {
    op != Remove(Backup) && (op.Rename? ==> op.from != Backup)
  }

  predicate KeepsNoJournal(op: Op<Text>) {
    op != Create(Journal) && op != Overwrite(Journal) && (op.Rename? ==> op.to != Journal)
  }

  lemma BackupStays(d: Disk<Text>, op: Op<Text>)
    requires KeepsBackup(op) && forall dir | dir in ImagesOf(d) :: Backup in dir
    ensures forall dir | dir in ImagesOf(Exec(d, op)) :: Backup in dir
  {
    ImagesAfter(d, op);
  }

  lemma JournalStaysAway(d: Disk<Text>, op: Op<Text>)
    requires KeepsNoJournal(op) && forall dir | dir in ImagesOf(d) :: Journal !in dir
    ensures forall dir | dir in ImagesOf(Exec(d, op)) :: Journal !in dir
  {
    ImagesAfter(d, op);
  }

  predicate Causes(op: Op<Text>, change: DirOp) {
    match op
    case Create(name) => change.Link? && change.name == name
    case Overwrite(name) => change.Link? && change.name == name
    case Rename(from, to) => change.Move? && change.from == from && change.to == to
    case Remove(name) => change.Unlink? && change.name == name
    case _ => false
  }

  lemma OneChange(d: Disk<Text>, op: Op<Text>)
    requires !op.SyncDir?
    ensures var e := Exec(d, op);
            && e.durable == d.durable
            && (e.pending == d.pending || exists change :: e.pending == d.pending + [change] && Causes(op, change))
  {
    hide Live;
    var e := Exec(d, op);
    match op
    case Create(name) => assert Causes(op, Link(name, |d.nodes|));
    case Overwrite(name) => assert Causes(op, Link(name, |d.nodes|));
    case Rename(from, to) => if from in Live(d) { assert Causes(op, Move(from, to, Live(d)[from])); }
    case Remove(name) => assert Causes(op, Unlink(name));
    case _ =>
  }

  /** One operation adds at most one pending change. */
  lemma ImagesAfter(d: Disk<Text>, op: Op<Text>)
    ensures forall dir | dir in ImagesOf(Exec(d, op)) ::
              || dir in ImagesOf(d)
              || exists before | before in ImagesOf(d) :: ReachedBy(before, dir, op)
  {
    hide Live;
    hide Exec;
    var e := Exec(d, op);
    if op.SyncDir? {
      SyncedIsLive(d);
    } else {
      OneChange(d, op);
      if e.pending != d.pending {
        var change :| e.pending == d.pending + [change] && Causes(op, change);
        PendingSnoc(d.durable, d.pending, change);
        forall before | before in ImagesOf(d) ensures ReachedBy(before, Apply(before, change), op) {
          ChangeReaches(before, change, op);
        }
      }
    }
  }

  lemma ChangeReaches(before: Dir, change: DirOp, op: Op<Text>)
    requires Causes(op, change)
    ensures ReachedBy(before, Apply(before, change), op)
  {}

  predicate ReachedBy(before: Dir, after: Dir, op: Op<Text>) {
    match op
    case Create(name) => after.Keys == before.Keys + {name}
    case Overwrite(name) => after.Keys == before.Keys + {name}
    case Rename(from, to) => after.Keys == before.Keys - {from} + {to}
    case Remove(name) => after.Keys == before.Keys - {name}
    case _ => false
  }

  lemma {:induction false} BackupStaysAll(d: Disk<Text>, ops: seq<Op<Text>>, k: nat)
    requires k <= |ops| && forall i | 0 <= i < |ops| :: KeepsBackup(ops[i])
    requires forall dir | dir in ImagesOf(d) :: Backup in dir
    ensures forall dir | dir in ImagesOf(Run(d, ops[..k])) :: Backup in dir
    decreases k
  {
    hide Exec;
    if k > 0 {
      BackupStays(d, ops[0]);
      assert ops[..k][1..] == ops[1..][..k - 1];
      BackupStaysAll(Exec(d, ops[0]), ops[1..], k - 1);
    }
  }

  lemma {:induction false} JournalStaysAwayAll(d: Disk<Text>, ops: seq<Op<Text>>, k: nat)
    requires k <= |ops| && forall i | 0 <= i < |ops| :: KeepsNoJournal(ops[i])
    requires forall dir | dir in ImagesOf(d) :: Journal !in dir
    ensures forall dir | dir in ImagesOf(Run(d, ops[..k])) :: Journal !in dir
    decreases k
  {
    hide Exec;
    if k > 0 {
      JournalStaysAway(d, ops[0]);
      assert ops[..k][1..] == ops[1..][..k - 1];
      JournalStaysAwayAll(Exec(d, ops[0]), ops[1..], k - 1);
    }
  }

  /** A rotation never gets stuck: with the backup durable first, no power loss leaves an unreadable journal alone. */
  lemma RotationNeverSticks(d: Disk<Text>, prior: StoreImage, next: StoreImage, t: nat, m: nat, k: nat, s: Disk<Text>)
    requires Current(d, Some(prior)) && Clean(d, Some(prior)) && FreshNames(d, t, m) && d.pending == []
    requires k <= |CommitIdentity(Some(prior), next, t, m)|
    requires Crashed(Run(d, CommitIdentity(Some(prior), next, t, m)[..k]), s)
    ensures !Stuck(s.durable, s.nodes)
  {
    hide Run;
    hide AllIn;
    hide Crashed;
    hide Stuck;
    hide CommitIdentity;
    var was := Some(prior);
    var ops := CommitIdentity(was, next, t, m);
    RotationIsRecoverable(d, prior, next, t, m, k);
    RecoverableIsNotStuck(Run(d, ops[..k]), s, was, next);
  }

  lemma RecoverableIsNotStuck(d: Disk<Text>, s: Disk<Text>, prior: Option<StoreImage>, next: StoreImage)
    requires Recoverably(d, prior, next) && Crashed(d, s)
    ensures !Stuck(s.durable, s.nodes)
  {
    if AllIn(Committed, d, prior, next) {
      assert In(Committed, s.durable, d.nodes, prior, next);
      if Journal in s.durable {
        assert SurvivesAs(d.nodes[s.durable[Journal]], s.nodes[s.durable[Journal]]);
      }
    }
  }

  lemma RotationIsRecoverable(d: Disk<Text>, prior: StoreImage, next: StoreImage, t: nat, m: nat, k: nat)
    requires Current(d, Some(prior)) && Clean(d, Some(prior)) && FreshNames(d, t, m) && d.pending == []
    requires k <= |CommitIdentity(Some(prior), next, t, m)|
    ensures Recoverably(Run(d, CommitIdentity(Some(prior), next, t, m)[..k]), Some(prior), next)
  {
    hide Run;
    hide AllIn;
    hide In;
    hide SafeRun;
    var was := Some(prior);
    var first, middle, last := BackupOps(was) + [SyncDir], JournalOps(was) + Committing(was, next, t, m), CLEANUP + [SyncDir];
    var ops := CommitIdentity(was, next, t, m);
    assert ops == first + middle + last;
    NothingPending(d);
    if k <= |first| {
      assert ops[..k] == first[..k];
      JournalStaysAwayAll(d, first, k);
    } else {
      BackupIsThere(d, prior, next);
      var b := Run(d, first);
      if k <= |first| + |middle| {
        var j := k - |first|;
        assert ops[..k] == first + middle[..j];
        RunAppend(d, first, middle[..j]);
        MiddleKeepsBackup(was, next, t, m);
        BackupStaysAll(b, middle, j);
      } else {
        var j := k - |first| - |middle|;
        assert ops[..k] == (first + middle) + last[..j];
        RunAppend(d, first + middle, last[..j]);
        RunAppend(d, first, middle);
        LastIsCommitted(d, prior, next, t, m, j);
      }
    }
  }

  lemma BackupIsThere(d: Disk<Text>, prior: StoreImage, next: StoreImage)
    requires Current(d, Some(prior)) && Clean(d, Some(prior))
    ensures forall dir | dir in ImagesOf(Run(d, BackupOps(Some(prior)) + [SyncDir])) :: Backup in dir
  {
    hide Run;
    hide AllIn;
    hide In;
    var was := Some(prior);
    BackupIsSafe(d, was, next);
    var b := Run(d, BackupOps(was));
    LiveIsImage(b.durable, b.pending);
    AllSafe(BackedUp, b, was, next);
    ImageIn(BackedUp, b, was, next);
    SyncIsSafe(BackedUp, b, was, next);
    SyncedIsLive(b);
    RunAppend(d, BackupOps(was), [SyncDir]);
  }

  lemma MiddleKeepsBackup(prior: Option<StoreImage>, next: StoreImage, t: nat, m: nat)
    ensures var ops := JournalOps(prior) + Committing(prior, next, t, m);
            forall i | 0 <= i < |ops| :: KeepsBackup(ops[i])
  {}

  lemma LastIsCommitted(d: Disk<Text>, prior: StoreImage, next: StoreImage, t: nat, m: nat, j: nat)
    requires Current(d, Some(prior)) && Clean(d, Some(prior)) && FreshNames(d, t, m) && j <= |CLEANUP + [SyncDir]|
    ensures var was := Some(prior);
            var first, middle := BackupOps(was) + [SyncDir], JournalOps(was) + Committing(was, next, t, m);
            AllIn(Committed, Run(Run(Run(d, first), middle), (CLEANUP + [SyncDir])[..j]), was, next)
  {
    hide Run;
    hide AllIn;
    hide In;
    hide SafeRun;
    hide BackupOps;
    hide JournalOps;
    hide Committing;
    var was := Some(prior);
    PrepareIdentityIsSafe(d, was, next);
    var p := Run(d, PrepareIdentity(was));
    RunAppend(d, BackupOps(was) + [SyncDir], JournalOps(was));
    AllSafe(Journaled, p, was, next);
    CommittingIsSafe(p, t, m, was, next);
    var c := Run(p, Committing(was, next, t, m));
    RunAppend(Run(d, BackupOps(was) + [SyncDir]), JournalOps(was), Committing(was, next, t, m));
    CleanupIsSafe(c, j, was, next);
    if j <= 2 {
      assert (CLEANUP + [SyncDir])[..j] == Take(CLEANUP, j);
    } else {
      FinishIsSafe(c, NoFault, was, next);
      assert (CLEANUP + [SyncDir])[..j] == CLEANUP + [SyncDir];
    }
  }

  /** The first creation can get stuck: power lost while the journal is being written leaves nothing but that
      journal, and every later start refuses. */
  lemma FirstCreationCanStick(d: Disk<Text>, next: StoreImage, t: nat, m: nat)
    requires Current(d, None) && d.pending == []
    ensures exists s :: Crashed(Run(d, CommitIdentity(None, next, t, m)[..1]), s) && Stuck(s.durable, s.nodes) && RecoverIdentity(s) == []
  {
    hide Run;
    NothingPending(d);
    var n := |d.nodes|;
    var e := Exec(d, Create(Journal));
    var ops := CommitIdentity(None, next, t, m);
    assert ops[..1] == [Create(Journal)] by { assert PrepareIdentity(None) == [] + JournalOps(None) == JournalOps(None); }
    RunOne(d, Create(Journal));
    PendingSnoc(d.durable, d.pending, Link(Journal, n));
    var s := Disk(d.durable[Journal := n], [], seq(n + 1, i requires 0 <= i < n + 1 => if i < n then Node(d.nodes[i].content, true) else Node(None, true)));
    assert e.nodes == d.nodes + [Node(None, false)];
    assert s.durable == Apply(d.durable, Link(Journal, n)) && s.durable in ImagesOf(e);
    assert Crashed(e, s);
    NothingPending(s);
    assert Backup !in d.durable;
  }

  /** So can a recovery from an unreadable journal: once it has restored the backup, losing power again before the
      journal is removed leaves the journal alone. */
  lemma TornRecoveryCanStick(s: Disk<Text>, x: Outcome)
    requires Steady(s, x) && s.pending == [] && Unparseable(s.durable, s.nodes) && Backup in s.durable
    ensures |RecoverIdentity(s)| > 3
    ensures var e := Run(s, RecoverIdentity(s)[..3]); Crashed(e, e) && Stuck(e.durable, e.nodes)
  {
    hide Run;
    NothingPending(s);
    assert SteadyAt(s.durable, s.nodes, x);
    RestoreBackup(s, x);
    assert RecoverIdentity(s)[..3] == RESTORE + [SyncDir];
    var e := Run(s, RESTORE + [SyncDir]);
    NothingPending(e);
  }

  /** A power loss after some of these operations can leave a disk that the store refuses forever. */
  ghost predicate CanStick(d: Disk<Text>, ops: seq<Op<Text>>) {
    exists k: nat, s | k <= |ops| && Crashed(Run(d, ops[..k]), s) :: Stuck(s.durable, s.nodes)
  }

  /** The exact condition for a commit: it can get stuck if and only if there is no identity yet. */
  lemma CommitSticksIffFirst(d: Disk<Text>, prior: Option<StoreImage>, next: StoreImage, t: nat, m: nat)
    requires Current(d, prior) && Clean(d, prior) && FreshNames(d, t, m) && d.pending == []
    ensures CanStick(d, CommitIdentity(prior, next, t, m)) <==> prior.None?
  {
    hide Run;
    hide Crashed;
    hide Stuck;
    hide Current;
    hide Clean;
    var ops := CommitIdentity(prior, next, t, m);
    assert |ops| >= 1;
    hide CommitIdentity;
    if prior.None? {
      FirstCreationCanStick(d, next, t, m);
    } else {
      forall k: nat, s | k <= |ops| && Crashed(Run(d, ops[..k]), s) ensures !Stuck(s.durable, s.nodes) {
        RotationNeverSticks(d, prior.value, next, t, m, k, s);
      }
    }
  }

  predicate Recovers(op: Op<Text>) {
    op == Rename(Backup, Target) || op == Sync(Target) || op.Remove? || op.SyncDir?
  }

  /** Where a journal is left, it is the one that the recovery found. */
  ghost predicate JournalFrom(d: Disk<Text>, s: Disk<Text>) {
    d.nodes == s.nodes && forall dir | dir in ImagesOf(d) && Journal in dir :: Journal in s.durable && dir[Journal] == s.durable[Journal]
  }

  lemma RecoveringKeepsJournal(d: Disk<Text>, s: Disk<Text>, op: Op<Text>)
    requires JournalFrom(d, s) && Recovers(op) && forall i | 0 <= i < |s.nodes| :: s.nodes[i].stable
    ensures JournalFrom(Exec(d, op), s)
  {
    match op
    case Rename(from, to) => if from in Live(d) { RenamedIsLive(d, from, to); }
    case Remove(name) => RemovedIsLive(d, name);
    case SyncDir => SyncedIsLive(d);
    case Sync(name) =>
      if Holds(d, name) { assert d.nodes[Live(d)[name] := Node(NodeOf(d, name).content, true)] == d.nodes; }
  }

  lemma {:induction false} RecoveryKeepsJournal(d: Disk<Text>, s: Disk<Text>, ops: seq<Op<Text>>)
    requires JournalFrom(d, s) && (forall i | 0 <= i < |ops| :: Recovers(ops[i])) && forall i | 0 <= i < |s.nodes| :: s.nodes[i].stable
    ensures JournalFrom(Run(d, ops), s)
    decreases |ops|
  {
    if ops != [] {
      RecoveringKeepsJournal(d, s, ops[0]);
      RecoveryKeepsJournal(Exec(d, ops[0]), s, ops[1..]);
    }
  }

  /** The exact condition for a recovery: it can get stuck if and only if the journal that it finds cannot be parsed. */
  lemma RecoverySticksIffUnparseable(s: Disk<Text>, x: Outcome)
    requires Steady(s, x) && s.pending == []
    ensures CanStick(s, RecoverIdentity(s)) <==> Unparseable(s.durable, s.nodes)
  {
    hide Run;
    var ops := RecoverIdentity(s);
    NothingPending(s);
    assert forall i | 0 <= i < |s.nodes| :: s.nodes[i].stable;
    hide Steady;
    if !Unparseable(s.durable, s.nodes) {
      assert forall i | 0 <= i < |ops| :: Recovers(ops[i]);
      hide RecoverIdentity;
      forall k: nat, after | k <= |ops| && Crashed(Run(s, ops[..k]), after) ensures !Stuck(after.durable, after.nodes) {
        RecoveryKeepsJournal(s, s, ops[..k]);
        SameJournal(Run(s, ops[..k]), s, after);
      }
    } else if Backup in s.durable {
      TornRecoveryCanStick(s, x);
      var e := Run(s, ops[..3]);
      assert Crashed(e, e) && Stuck(e.durable, e.nodes);
    } else {
      RunNone(s);
      assert Crashed(Run(s, ops[..0]), s);
    }
  }

  lemma SameJournal(d: Disk<Text>, s: Disk<Text>, after: Disk<Text>)
    requires JournalFrom(d, s) && Crashed(d, after) && !Unparseable(s.durable, s.nodes)
    requires forall i | 0 <= i < |s.nodes| :: s.nodes[i].stable
    ensures !Stuck(after.durable, after.nodes)
  {
    if Journal in after.durable && after.durable[Journal] < |d.nodes| {
      assert SurvivesAs(d.nodes[after.durable[Journal]], after.nodes[after.durable[Journal]]);
    }
  }
}
