/** Crash atomicity: whatever a power loss leaves behind, and however often recovery is itself cut short,
    the store reloads as it was before the commit or after it. */
module TrustJournalTheorems {

  import opened Wrappers
  import opened DurableDisk
  import opened StoreFiles
  import opened TrustJournal
  import opened TrustJournalSafety
  import opened TrustJournalCommit

  predicate Commits(fault: Fault) {
    fault.NoFault? || fault.CleanupFault?
  }

  predicate Aborts(fault: Fault) {
    fault.PrepareSyncFault? || fault.TargetFault?
  }

  // ----- whole commits -----

  lemma AbortPath(d: Disk<Text>, t: nat, fault: Fault, prior: Option<StoreImage>, next: StoreImage)
    requires AllIn(Journaled, d, prior, next) && Tmp(t) !in Live(d) && Aborts(fault)
    ensures var ops := AfterPrepare(prior, next, t, 0, fault);
            var e := Run(d, ops);
            && SafeRun(d, ops, prior, next)
            && AllIn(Journaled, e, prior, next)
            && Live(e) == Live(d) - {Journal, Backup, Tmp(t)}
            && TargetIs(Live(e), e.nodes, prior)
  {
    hide SafeRun;
    hide Run;
    hide WriteOps;
    hide ABORT;
    var a := d;
    if fault.TargetFault? {
      LiveIsImage(d.durable, d.pending);
      AllSafe(Journaled, d, prior, next);
      SyncIsSafe(Journaled, d, prior, next);
      var s := Run(d, [SyncDir]);
      var written := Take(WriteOps(Tmp(t), StoreText(next)), fault.done);
      WriteTmpKeeps(Journaled, s, t, StoreText(next), fault.done, prior, next);
      var w := Run(s, written);
      TmpRemovalIsSafe(Journaled, w, t, prior, next);
      a := Run(w, [Remove(Tmp(t))]);
      FileIsLive(s, Tmp(t), Node(None, false));
      FileIsLive(s, Tmp(t), Node(Some(StoreText(next)), false));
      FileIsLive(s, Tmp(t), Node(Some(StoreText(next)), true));
      assert Live(a) == Live(d);
      SafeRunAppend(d, [SyncDir], written, prior, next);
      SafeRunAppend(d, [SyncDir] + written, [Remove(Tmp(t))], prior, next);
    }
    AbortIsSafe(a, prior, next);
    var e := Run(a, ABORT);
    LiveIsImage(e.durable, e.pending);
    assert Live(e) in ImagesOf(e);
    assert In(Journaled, Live(e), e.nodes, prior, next);
    if fault.TargetFault? {
      var written := Take(WriteOps(Tmp(t), StoreText(next)), fault.done);
      SafeRunAppend(d, [SyncDir] + written + [Remove(Tmp(t))], ABORT, prior, next);
    }
    assert Live(d) - {Journal, Backup, Tmp(t)} == Live(d) - {Journal, Backup};
  }

  lemma RollPhases(phase: Phase, d: Disk<Text>, prior: Option<StoreImage>, next: StoreImage)
    requires phase in {Prepared, Marked} && AllIn(phase, d, prior, next)
    ensures AllIn(Rollable, d, prior, next)
  {
    forall dir | dir in ImagesOf(d) ensures In(Rollable, dir, d.nodes, prior, next) {
      assert In(phase, dir, d.nodes, prior, next);
      if phase == Prepared {
        assert TextAt(dir, d.nodes, Journal, JournalText(false, prior.Some?));
      }
    }
  }

  lemma RollbackPrefix(d: Disk<Text>, done: nat, prior: Option<StoreImage>, next: StoreImage)
    requires AllIn(Rollable, d, prior, next)
    ensures SafeRun(d, Take(RollbackOps(prior.Some?, prior.None?), done), prior, next)
  {
    hide SafeRun;
    hide Run;
    hide AllIn;
    var ops := RollbackOps(prior.Some?, prior.None?);
    RollbackIsSafe(d, prior, next);
    if done < |ops| {
      SafePrefix(d, ops, done, prior, next);
    }
  }

  predicate Poisons(fault: Fault) {
    fault.CommitSyncFault? || fault.MarkerFault?
  }

  /** What follows the preparation, down to the failed barrier or marker. */
  function BeforeRollback(prior: Option<StoreImage>, next: StoreImage, t: nat, m: nat, fault: Fault): seq<Op<Text>>
    requires Poisons(fault)
  {
    Replace(next, t)
    + if fault.CommitSyncFault? then [] else [SyncDir] + Take(MarkerOps(prior, m), fault.done) + [Remove(Tmp(m))]
  }

  lemma BeforeRollbackIsSafe(d: Disk<Text>, t: nat, m: nat, fault: Fault, prior: Option<StoreImage>, next: StoreImage)
    requires AllIn(Safe, d, prior, next) && In(Prepared, Live(d), d.nodes, prior, next) && FreshNames(d, t, m)
    requires Poisons(fault)
    ensures SafeRun(d, BeforeRollback(prior, next, t, m, fault), prior, next)
    ensures AllIn(Rollable, Run(d, BeforeRollback(prior, next, t, m, fault)), prior, next)
  {
    hide SafeRun;
    hide Run;
    hide AllIn;
    hide In;
    hide Replace;
    hide MarkerOps;
    ReplaceIsSafe(d, t, prior, next);
    var r := Run(d, Replace(next, t));
    if fault.CommitSyncFault? {
      RollPhases(Prepared, r, prior, next);
      assert BeforeRollback(prior, next, t, m, fault) == Replace(next, t);
    } else {
      AllSafe(Prepared, r, prior, next);
      SyncIsSafe(Marked, r, prior, next);
      var s := Run(r, [SyncDir]);
      var written := Take(MarkerOps(prior, m), fault.done);
      MarkerOpsAreSafe(s, m, fault.done, prior, next);
      var w := Run(s, written);
      TmpRemovalIsSafe(Marked, w, m, prior, next);
      RollPhases(Marked, Run(w, [Remove(Tmp(m))]), prior, next);
      SafeRunAppend(r, [SyncDir], written, prior, next);
      SafeRunAppend(r, [SyncDir] + written, [Remove(Tmp(m))], prior, next);
      SafeRunAppend(d, Replace(next, t), [SyncDir] + written + [Remove(Tmp(m))], prior, next);
    }
  }

  /** A failed commit barrier or marker, followed by a rollback that may itself fail. */
  lemma PoisonPath(d: Disk<Text>, t: nat, m: nat, fault: Fault, prior: Option<StoreImage>, next: StoreImage)
    requires AllIn(Safe, d, prior, next) && In(Prepared, Live(d), d.nodes, prior, next) && FreshNames(d, t, m)
    requires Poisons(fault)
    ensures SafeRun(d, AfterPrepare(prior, next, t, m, fault), prior, next)
  {
    hide SafeRun;
    hide Run;
    hide AllIn;
    hide In;
    hide BeforeRollback;
    var before, rollback := BeforeRollback(prior, next, t, m, fault), Take(RollbackOps(prior.Some?, prior.None?), fault.rolledBack);
    BeforeRollbackIsSafe(d, t, m, fault, prior, next);
    RollbackPrefix(Run(d, before), fault.rolledBack, prior, next);
    SafeRunAppend(d, before, rollback, prior, next);
    PoisonOps(prior, next, t, m, fault);
  }

  lemma PoisonOps(prior: Option<StoreImage>, next: StoreImage, t: nat, m: nat, fault: Fault)
    requires Poisons(fault)
    ensures AfterPrepare(prior, next, t, m, fault)
         == BeforeRollback(prior, next, t, m, fault) + Take(RollbackOps(prior.Some?, prior.None?), fault.rolledBack)
  {
    hide Replace;
    hide MarkerOps;
    hide RollbackOps;
    hide Take;
    var rollback := Take(RollbackOps(prior.Some?, prior.None?), fault.rolledBack);
    if fault.MarkerFault? {
      var marks := Take(MarkerOps(prior, m), fault.done);
      assert Replace(next, t) + [SyncDir] + marks + [Remove(Tmp(m))] + rollback
          == Replace(next, t) + ([SyncDir] + marks + [Remove(Tmp(m))]) + rollback;
    }
  }

  /** What is left to do once the marker is durable. */
  function FinishOps(fault: Fault): seq<Op<Text>>
    requires Commits(fault)
  {
    if fault.NoFault? then CLEANUP + [SyncDir] else Take(CLEANUP, fault.done)
  }

  lemma FinishIsSafe(d: Disk<Text>, fault: Fault, prior: Option<StoreImage>, next: StoreImage)
    requires AllIn(Committed, d, prior, next) && Commits(fault)
    ensures var e := Run(d, FinishOps(fault));
            && SafeRun(d, FinishOps(fault), prior, next)
            && AllIn(Committed, e, prior, next)
            && (fault.NoFault? ==> e.pending == [] && Live(e) == Live(d) - {Backup, Journal})
            && (fault.CleanupFault? ==> Live(e).Keys <= Live(d).Keys)
  {
    hide SafeRun;
    hide Run;
    hide In;
    if fault.NoFault? {
      CleanupIsSafe(d, 2, prior, next);
      TakeAll(CLEANUP, 2);
      var c := Run(d, CLEANUP);
      LiveIsImage(c.durable, c.pending);
      AllSafe(Committed, c, prior, next);
      SyncIsSafe(Committed, c, prior, next);
      SafeRunAppend(d, CLEANUP, [SyncDir], prior, next);
    } else {
      CleanupIsSafe(d, fault.done, prior, next);
    }
  }

  lemma CommitPath(d: Disk<Text>, t: nat, m: nat, fault: Fault, prior: Option<StoreImage>, next: StoreImage)
    requires AllIn(Safe, d, prior, next) && In(Prepared, Live(d), d.nodes, prior, next) && FreshNames(d, t, m)
    requires Commits(fault)
    ensures var ops := AfterPrepare(prior, next, t, m, fault);
            var e := Run(d, ops);
            && ops == Committing(prior, next, t, m) + FinishOps(fault)
            && SafeRun(d, ops, prior, next)
            && AllIn(Committed, e, prior, next)
            && (fault.NoFault? ==> e.pending == [] && Live(e).Keys == Live(d).Keys + {Target} - {Backup, Journal})
  {
    hide SafeRun;
    hide Run;
    hide In;
    hide Committing;
    CommittingIsSafe(d, t, m, prior, next);
    var c := Run(d, Committing(prior, next, t, m));
    FinishIsSafe(c, fault, prior, next);
    SafeRunAppend(d, Committing(prior, next, t, m), FinishOps(fault), prior, next);
    assert Committing(prior, next, t, m) + CLEANUP + [SyncDir] == Committing(prior, next, t, m) + (CLEANUP + [SyncDir]);
  }

  lemma AfterPrepareIsSafe(p: Disk<Text>, prior: Option<StoreImage>, next: StoreImage, t: nat, m: nat, fault: Fault)
    requires AllIn(Journaled, p, prior, next) && In(Prepared, Live(p), p.nodes, prior, next) && FreshNames(p, t, m)
    ensures SafeRun(p, AfterPrepare(prior, next, t, m, fault), prior, next)
  {
    hide SafeRun;
    hide Run;
    hide In;
    hide AfterPrepare;
    AllSafe(Journaled, p, prior, next);
    if Commits(fault) {
      CommitPath(p, t, m, fault, prior, next);
    } else if Aborts(fault) {
      AbortPath(p, t, fault, prior, next);
      AbortIgnoresMarker(prior, next, t, m, fault);
    } else {
      PoisonPath(p, t, m, fault, prior, next);
    }
  }

  /** Every point of a commit is safe, whatever I/O error it meets. */
  lemma CommitIsSafe(d: Disk<Text>, prior: Option<StoreImage>, next: StoreImage, t: nat, m: nat, fault: Fault)
    requires Current(d, prior) && Clean(d, prior) && FreshNames(d, t, m)
    ensures SafeRun(d, CommitOps(prior, next, t, m, fault), prior, next)
  {
    hide SafeRun;
    hide Run;
    hide In;
    hide Prepare;
    hide AfterPrepare;
    PrepareIsSafe(d, prior, next);
    AfterPrepareIsSafe(Run(d, Prepare(prior)), prior, next, t, m, fault);
    SafeRunAppend(d, Prepare(prior), AfterPrepare(prior, next, t, m, fault), prior, next);
  }

  // ----- the first barrier -----

  /** The disk at the barrier after the preparation. */
  function AtBarrier(d: Disk<Text>, prior: Option<StoreImage>): Disk<Text> {
    Exec(Run(d, Prepare(prior)), SyncDir)
  }

  /** Whatever an earlier commit left pending, the barrier settles it: one image, with the old target and the new metadata. */
  lemma BarrierSettles(d: Disk<Text>, prior: Option<StoreImage>, next: StoreImage)
    requires Current(d, prior)
    ensures var s := AtBarrier(d, prior);
            && AllIn(Journaled, s, prior, next) && AllIn(Prepared, s, prior, next)
            && In(Prepared, Live(s), s.nodes, prior, next)
            && s.pending == [] && Exec(s, SyncDir) == s
            && Live(s).Keys == Live(d).Keys + {Journal} + (if prior.Some? then {Backup} else {})
  {
    hide Run;
    hide Live;
    var p := PrepareLeaves(d, prior, next);
    var s := AtBarrier(d, prior);
    SyncedIsLive(p);
    SyncedIsLive(s);
    assert In(Journaled, Live(s), s.nodes, prior, next);
  }

  /** What the process sees after the preparation. */
  lemma PrepareLeaves(d: Disk<Text>, prior: Option<StoreImage>, next: StoreImage) returns (p: Disk<Text>)
    requires Current(d, prior)
    ensures p == Run(d, Prepare(prior))
    ensures In(Prepared, Live(p), p.nodes, prior, next) && TargetIs(Live(p), p.nodes, prior)
    ensures Live(p).Keys == Live(d).Keys + {Journal} + (if prior.Some? then {Backup} else {})
  {
    hide Run;
    hide In;
    LiveIsImage(d.durable, d.pending);
    var b := d;
    if prior.Some? {
      var text := StoreText(prior.value);
      b := WithBackup(d, Node(Some(text), true));
      BackupWritten(d, text);
      RunThree(d, BackupOps(prior));
      BackupIsLive(d, Node(Some(text), true), prior);
      BackupIsApart(d, text, prior);
    } else {
      RunNone(d);
    }
    var text := JournalText(false, prior.Some?);
    NewFile(b, Journal, text);
    RunThree(b, JournalOps(prior));
    JournalCompletes(b, prior, next);
    RunAppend(d, BackupOps(prior), JournalOps(prior));
    p := Run(d, Prepare(prior));
  }

  lemma BackupIsApart(d: Disk<Text>, text: Text, prior: Option<StoreImage>)
    requires Current(d, prior) && prior.Some? && Live(d) in ImagesOf(d)
    ensures var b := WithBackup(d, Node(Some(text), true)); Apart(Live(b), b.nodes)
  {
    FileIsLive(d, Backup, Node(Some(text), true));
  }

  /** From the barrier on, only what is there counts: the run from the disk before is the run from the barrier. */
  lemma FromBarrier(d: Disk<Text>, prior: Option<StoreImage>, rest: seq<Op<Text>>, j: nat)
    requires Current(d, prior) && 0 < j <= |rest| && rest[0] == SyncDir
    ensures Run(Run(d, Prepare(prior)), rest[..j]) == Run(AtBarrier(d, prior), rest[..j])
  {
    hide Prepare;
    var s := AtBarrier(d, prior);
    assert Exec(s, SyncDir) == s by { SyncedIsLive(Run(d, Prepare(prior))); SyncedIsLive(s); NothingPending(s); }
  }

  /** Beyond the barrier, no condition on what an earlier commit left behind is needed. */
  lemma BeyondBarrierIsSafe(d: Disk<Text>, prior: Option<StoreImage>, next: StoreImage, t: nat, m: nat, fault: Fault, k: nat)
    requires Current(d, prior) && FreshNames(d, t, m) && !fault.PrepareSyncFault?
    requires |Prepare(prior)| < k <= |CommitOps(prior, next, t, m, fault)|
    ensures AllIn(Safe, Run(d, CommitOps(prior, next, t, m, fault)[..k]), prior, next)
  {
    hide SafeRun;
    hide Run;
    hide In;
    hide AllIn;
    hide Prepare;
    hide Current;
    var s, rest, j := AtBarrier(d, prior), AfterPrepare(prior, next, t, m, fault), k - |Prepare(prior)|;
    BarrierSettles(d, prior, next);
    StartsAtBarrier(prior, next, t, m, fault);
    hide AfterPrepare;
    AfterPrepareIsSafe(s, prior, next, t, m, fault);
    SafePrefix(s, rest, j, prior, next);
    assert CommitOps(prior, next, t, m, fault)[..k] == Prepare(prior) + rest[..j];
    RunAppend(d, Prepare(prior), rest[..j]);
    FromBarrier(d, prior, rest, j);
  }

  lemma StartsAtBarrier(prior: Option<StoreImage>, next: StoreImage, t: nat, m: nat, fault: Fault)
    requires !fault.PrepareSyncFault?
    ensures var rest := AfterPrepare(prior, next, t, m, fault); rest != [] && rest[0] == SyncDir
  {}

  lemma AbortIgnoresMarker(prior: Option<StoreImage>, next: StoreImage, t: nat, m: nat, fault: Fault)
    requires Aborts(fault)
    ensures AfterPrepare(prior, next, t, m, fault) == AfterPrepare(prior, next, t, 0, fault)
  {}

  // ----- power loss -----

  /** A disk as a restarting process finds it after a power loss, with metadata that recovery can trust. */
  ghost predicate Recoverable(s: Disk<Text>) {
    && s.pending == []
    && (forall i | 0 <= i < |s.nodes| :: s.nodes[i].stable)
    && ConsistentAt(s.durable, s.nodes)
  }

  /** An open journal that denies a prior commit comes without a backup. */
  predicate ConsistentAt(dir: Dir, nodes: Nodes) {
    Journal in dir && !SaysCommitted(dir, nodes) && Backup in dir ==> !SaysNoPrior(dir, nodes)
  }

  lemma StableSurvives(before: Nodes, after: Nodes, dir: Dir, name: Name, text: Text)
    requires |before| == |after|
    requires forall i | 0 <= i < |before| :: SurvivesAs(before[i], after[i])
    requires TextAt(dir, before, name, text)
    ensures TextAt(dir, after, name, text)
  {}

  /** A safe disk resolves, after any power loss, to the store before the commit or after it. */
  lemma SafeResolves(d: Disk<Text>, s: Disk<Text>, prior: Option<StoreImage>, next: StoreImage)
    requires AllIn(Safe, d, prior, next) && Crashed(d, s)
    ensures Resolve(s.durable, s.nodes) in {OutcomeOf(prior), Found(next)}
    ensures Recoverable(s) && Apart(s.durable, s.nodes)
  {
    var dir := s.durable;
    assert In(Safe, dir, d.nodes, prior, next);
    if Journal in dir && !MarkerAt(dir, d.nodes) {
      assert SurvivesAs(d.nodes[dir[Journal]], s.nodes[dir[Journal]]);
    }
  }

  /** While every image still has the old target and no marker of this commit, only the old store survives. */
  lemma JournaledResolves(d: Disk<Text>, s: Disk<Text>, prior: Option<StoreImage>, next: StoreImage)
    requires AllIn(Journaled, d, prior, next) && Crashed(d, s)
    ensures Resolve(s.durable, s.nodes) == OutcomeOf(prior)
  {
    var dir := s.durable;
    assert In(Journaled, dir, d.nodes, prior, next);
    if Journal in dir && !MarkerAt(dir, d.nodes) {
      assert SurvivesAs(d.nodes[dir[Journal]], s.nodes[dir[Journal]]);
    }
  }

  lemma CommittedResolves(d: Disk<Text>, s: Disk<Text>, prior: Option<StoreImage>, next: StoreImage)
    requires AllIn(Committed, d, prior, next) && Crashed(d, s)
    ensures Resolve(s.durable, s.nodes) == Found(next)
  {
    assert In(Committed, s.durable, d.nodes, prior, next);
  }

  /** Crash atomicity of a commit: at every point and on every error path, a power loss leaves a disk that
      resolves to the old or to the new store. */
  lemma CommitIsAtomic(d: Disk<Text>, prior: Option<StoreImage>, next: StoreImage, t: nat, m: nat, fault: Fault,
                       k: nat, s: Disk<Text>)
    requires Current(d, prior) && Clean(d, prior) && FreshNames(d, t, m)
    requires k <= |CommitOps(prior, next, t, m, fault)|
    requires Crashed(Run(d, CommitOps(prior, next, t, m, fault)[..k]), s)
    ensures Resolve(s.durable, s.nodes) in {OutcomeOf(prior), Found(next)}
    ensures Recoverable(s) && Apart(s.durable, s.nodes)
  {
    hide SafeRun;
    hide Run;
    hide CommitOps;
    CommitIsSafe(d, prior, next, t, m, fault);
    SafePrefix(d, CommitOps(prior, next, t, m, fault), k, prior, next);
    SafeResolves(Run(d, CommitOps(prior, next, t, m, fault)[..k]), s, prior, next);
  }

  /** The point at which the commit marker is durable. */
  function CommitPoint(prior: Option<StoreImage>, next: StoreImage, t: nat, m: nat): nat {
    |Prepare(prior) + Committing(prior, next, t, m)|
  }

  lemma ChainCommitted(d: Disk<Text>, next: StoreImage, prior: Option<StoreImage>)
    requires AllIn(Committed, d, prior, next)
    ensures AllIn(Committed, d, Some(next), next)
  {
    forall dir | dir in ImagesOf(d) ensures In(Committed, dir, d.nodes, Some(next), next) {
      assert In(Committed, dir, d.nodes, prior, next);
    }
  }

  /** The disk at the commit point: from here on every image is committed. */
  lemma MarkerIsDurable(d: Disk<Text>, prior: Option<StoreImage>, next: StoreImage, t: nat, m: nat) returns (c: Disk<Text>)
    requires Current(d, prior) && FreshNames(d, t, m)
    ensures c == Run(d, Prepare(prior) + Committing(prior, next, t, m))
    ensures AllIn(Committed, c, prior, next) && c.pending == []
    ensures BackupIs(Live(c), c.nodes, prior) && Journal in Live(c)
    ensures Live(c).Keys == Live(d).Keys + {Target, Journal} + (if prior.Some? then {Backup} else {})
  {
    hide SafeRun;
    hide Run;
    hide In;
    hide AllIn;
    hide Prepare;
    hide Current;
    var s, ops := AtBarrier(d, prior), Committing(prior, next, t, m);
    BarrierSettles(d, prior, next);
    assert AllIn(Safe, s, prior, next) by { AllSafe(Journaled, s, prior, next); }
    assert ops[0] == SyncDir && ops[..|ops|] == ops;
    hide Committing;
    CommittingIsSafe(s, t, m, prior, next);
    FromBarrier(d, prior, ops, |ops|);
    RunAppend(d, Prepare(prior), ops);
    c := Run(s, ops);
  }

  /** Durability: once the marker is durable, a power loss leaves the new store and nothing else. */
  lemma CommittedIsDurable(d: Disk<Text>, prior: Option<StoreImage>, next: StoreImage, t: nat, m: nat, fault: Fault,
                           k: nat, s: Disk<Text>)
    requires Current(d, prior) && FreshNames(d, t, m) && Commits(fault)
    requires CommitPoint(prior, next, t, m) <= k <= |CommitOps(prior, next, t, m, fault)|
    requires Crashed(Run(d, CommitOps(prior, next, t, m, fault)[..k]), s)
    ensures Resolve(s.durable, s.nodes) == Found(next)
    ensures Recoverable(s) && Apart(s.durable, s.nodes)
  {
    hide SafeRun;
    hide Run;
    hide In;
    hide Prepare;
    hide Committing;
    hide Current;
    var c := MarkerIsDurable(d, prior, next, t, m);
    ChainCommitted(c, next, prior);
    FinishIsSafe(c, fault, Some(next), next);
    var before, finish := Prepare(prior) + Committing(prior, next, t, m), FinishOps(fault);
    var ops := CommitOps(prior, next, t, m, fault);
    CommitEnds(prior, next, t, m, fault);
    hide FinishOps;
    hide CommitOps;
    var j := k - |before|;
    assert ops[..k] == before + finish[..j];
    RunAppend(d, before, finish[..j]);
    SafePrefix(c, finish, j, Some(next), next);
    SafeResolves(Run(c, finish[..j]), s, Some(next), next);
  }

  lemma CommitEnds(prior: Option<StoreImage>, next: StoreImage, t: nat, m: nat, fault: Fault)
    requires Commits(fault)
    ensures CommitOps(prior, next, t, m, fault) == Prepare(prior) + Committing(prior, next, t, m) + FinishOps(fault)
  {
    hide Prepare;
    hide Committing;
    assert Prepare(prior) + (Committing(prior, next, t, m) + FinishOps(fault))
        == Prepare(prior) + Committing(prior, next, t, m) + FinishOps(fault);
  }

  /** An aborted commit leaves the old store, in memory's view and after a power loss. */
  lemma AbortedIsOld(d: Disk<Text>, prior: Option<StoreImage>, next: StoreImage, t: nat, m: nat, fault: Fault, s: Disk<Text>)
    requires Current(d, prior) && Clean(d, prior) && FreshNames(d, t, m) && Aborts(fault)
    requires Crashed(Run(d, CommitOps(prior, next, t, m, fault)), s)
    ensures Resolve(s.durable, s.nodes) == OutcomeOf(prior)
  {
    hide SafeRun;
    hide Run;
    hide In;
    hide Prepare;
    hide AfterPrepare;
    PrepareIsSafe(d, prior, next);
    var p := Run(d, Prepare(prior));
    AbortPath(p, t, fault, prior, next);
    AbortIgnoresMarker(prior, next, t, m, fault);
    RunAppend(d, Prepare(prior), AfterPrepare(prior, next, t, m, fault));
    JournaledResolves(Run(p, AfterPrepare(prior, next, t, 0, fault)), s, prior, next);
  }
}
