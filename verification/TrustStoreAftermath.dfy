/** What a commit leaves behind when it ends, with or without an I/O error, and exactly when the next commit can
    rely on it. The error paths remove their metadata without a sync, so a power loss can bring it back; a rollback
    syncs twice, and a restart that finds a journal cleans up behind it. */
module TrustStoreAftermath {

  import opened Wrappers
  import opened DurableDisk
  import opened StoreFiles
  import opened TrustJournal
  import opened TrustJournalSafety
  import opened TrustJournalCommit
  import opened TrustJournalTheorems
  import opened TrustStoreRuns

  /** The store of a process that sees no journal, and of every restart after a power loss. */
  ghost predicate Settled(d: Disk<Text>, store: Option<StoreImage>) {
    && Current(d, store)
    && forall s | Crashed(d, s) ::
         Resolve(s.durable, s.nodes) == OutcomeOf(store) && Recoverable(s) && Apart(s.durable, s.nodes)
  }

  /** How many of the operations of a rollback the error leaves to be done. */
  predicate RolledBack(prior: Option<StoreImage>, rolledBack: nat, missing: nat) {
    rolledBack + missing >= |RollbackOps(prior.Some?, prior.None?)|
  }

  /** The commit is over and its journal is out of sight: cleaned up, aborted, or rolled back but for the last sync. */
  predicate LeavesNoJournal(prior: Option<StoreImage>, fault: Fault) {
    match fault
    case NoFault => true
    case PrepareSyncFault => true
    case TargetFault(_) => true
    case CommitSyncFault(rolledBack) => RolledBack(prior, rolledBack, 1)
    case MarkerFault(_, rolledBack) => RolledBack(prior, rolledBack, 1)
    case CleanupFault(done) => done > 1
  }

  /** The store that such a commit leaves. */
  function StoreAfter(prior: Option<StoreImage>, next: StoreImage, fault: Fault): Option<StoreImage> {
    if Commits(fault) then Some(next) else prior
  }

  /** Nothing is left pending that could harm the next commit: no open journal over a store, no backup of another store. */
  predicate Tidy(prior: Option<StoreImage>, next: StoreImage, fault: Fault) {
    || prior.None?
    || match fault
       case NoFault => true
       case PrepareSyncFault => false
       case TargetFault(_) => false
       case CommitSyncFault(rolledBack) => RolledBack(prior, rolledBack, 0)
       case MarkerFault(done, rolledBack) => done > 3 || RolledBack(prior, rolledBack, 0)
       case CleanupFault(_) => prior == Some(next)
  }

  // ----- up to the preparation -----

  /** The disk from which the rest of the commit counts: at the barrier, if the barrier is reached. */
  function ReadyAt(d: Disk<Text>, prior: Option<StoreImage>, fault: Fault): Disk<Text> {
    if fault.PrepareSyncFault? then Run(d, Prepare(prior)) else AtBarrier(d, prior)
  }

  /** The preparation went through on a clean disk, or passed the barrier. */
  ghost predicate Reaches(d: Disk<Text>, prior: Option<StoreImage>, fault: Fault) {
    Current(d, prior) && (fault.PrepareSyncFault? ==> Clean(d, prior))
  }

  lemma PreparedIsReady(d: Disk<Text>, prior: Option<StoreImage>, next: StoreImage, t: nat, m: nat, fault: Fault)
    requires Reaches(d, prior, fault) && FreshNames(d, t, m)
    ensures var q := ReadyAt(d, prior, fault);
            && AllIn(Journaled, q, prior, next) && In(Prepared, Live(q), q.nodes, prior, next)
            && AllIn(Safe, q, prior, next) && FreshNames(q, t, m)
            && Run(d, CommitOps(prior, next, t, m, fault)) == Run(q, AfterPrepare(prior, next, t, m, fault))
  {
    hide Run;
    hide AllIn;
    hide In;
    hide SafeRun;
    hide Clean;
    hide Prepare;
    var rest := AfterPrepare(prior, next, t, m, fault);
    RunAppend(d, Prepare(prior), rest);
    if fault.PrepareSyncFault? {
      PrepareIsSafe(d, prior, next);
    } else {
      BarrierSettles(d, prior, next);
      StartsAtBarrier(prior, next, t, m, fault);
      assert rest[..|rest|] == rest;
      FromBarrier(d, prior, rest, |rest|);
    }
    AllSafe(Journaled, ReadyAt(d, prior, fault), prior, next);
  }

  // ----- what the images say -----

  lemma JournaledIsSettled(e: Disk<Text>, prior: Option<StoreImage>, next: StoreImage)
    requires AllIn(Journaled, e, prior, next) && Journal !in Live(e) && Backup !in Live(e)
    ensures Settled(e, prior)
    ensures prior.None? ==> Clean(e, prior)
    ensures prior.Some? && (exists dir :: dir in ImagesOf(e) && Journal in dir && !MarkerAt(dir, e.nodes)) ==> !Clean(e, prior)
    ensures (forall dir | dir in ImagesOf(e) && Journal in dir :: MarkerAt(dir, e.nodes)) ==> Clean(e, prior)
  {
    assert Current(e, prior) by {
      forall dir | dir in ImagesOf(e)
        ensures TargetIs(dir, e.nodes, prior) && Apart(dir, e.nodes) && (Journal in dir ==> dir[Journal] < |e.nodes|)
      {
        assert In(Journaled, dir, e.nodes, prior, next);
      }
    }
    AllSafe(Journaled, e, prior, next);
    forall s | Crashed(e, s)
      ensures Resolve(s.durable, s.nodes) == OutcomeOf(prior) && Recoverable(s) && Apart(s.durable, s.nodes)
    {
      JournaledResolves(e, s, prior, next);
      SafeResolves(e, s, prior, next);
    }
    if prior.None? || forall dir | dir in ImagesOf(e) && Journal in dir :: MarkerAt(dir, e.nodes) {
      forall dir | dir in ImagesOf(e) ensures HarmlessJournal(dir, e.nodes, prior) && (Backup in dir ==> BackupIs(dir, e.nodes, prior)) {
        assert In(Journaled, dir, e.nodes, prior, next);
      }
    }
  }

  lemma CommittedIsSettled(e: Disk<Text>, prior: Option<StoreImage>, next: StoreImage)
    requires AllIn(Committed, e, prior, next) && Journal !in Live(e) && Backup !in Live(e)
    ensures Settled(e, Some(next))
    ensures Clean(e, Some(next)) <==> forall dir | dir in ImagesOf(e) && Backup in dir :: BackupIs(dir, e.nodes, Some(next))
  {
    assert Current(e, Some(next)) by {
      forall dir | dir in ImagesOf(e)
        ensures TargetIs(dir, e.nodes, Some(next)) && Apart(dir, e.nodes) && (Journal in dir ==> MarkerAt(dir, e.nodes))
      {
        assert In(Committed, dir, e.nodes, prior, next);
      }
    }
    AllSafe(Committed, e, prior, next);
    forall s | Crashed(e, s)
      ensures Resolve(s.durable, s.nodes) == Found(next) && Recoverable(s) && Apart(s.durable, s.nodes)
    {
      CommittedResolves(e, s, prior, next);
      SafeResolves(e, s, prior, next);
    }
  }

  lemma RemovalKeepsImages(d: Disk<Text>, name: Name)
    ensures forall dir | dir in ImagesOf(d) :: dir in ImagesOf(Exec(d, Remove(name)))
  {
    PendingSnoc(d.durable, d.pending, Unlink(name));
  }

  /** Removing two names: the running process sees neither, and a power loss may keep all that was there. */
  lemma TwoRemovals(d: Disk<Text>, x: Name, y: Name)
    ensures var e := Run(d, [Remove(x)] + [Remove(y)]);
            && e == Exec(Exec(d, Remove(x)), Remove(y)) && e.nodes == d.nodes && Live(e) == Live(d) - {x} - {y}
            && forall dir | dir in ImagesOf(d) :: dir in ImagesOf(e)
  {
    hide Run;
    hide ImagesOf;
    RunAppend(d, [Remove(x)], [Remove(y)]);
    RunOne(d, Remove(x));
    var b := Exec(d, Remove(x));
    RunOne(b, Remove(y));
    RemovedIsLive(d, x);
    RemovedIsLive(b, y);
    RemovalKeepsImages(d, x);
    RemovalKeepsImages(b, y);
  }

  // ----- aborts -----

  lemma AbortShowsJournal(a: Disk<Text>, prior: Option<StoreImage>, next: StoreImage)
    requires In(Prepared, Live(a), a.nodes, prior, next)
    ensures var e := Run(a, ABORT);
            exists dir :: dir in ImagesOf(e) && Journal in dir && !MarkerAt(dir, e.nodes)
  {
    LiveIsImage(a.durable, a.pending);
    assert Live(a) in ImagesOf(a);
    assert Journal in Live(a) && !MarkerAt(Live(a), a.nodes);
    hide In;
    hide MarkerAt;
    hide Live;
    hide ImagesOf;
    TwoRemovals(a, Journal, Backup);
    assert ABORT == [Remove(Journal)] + [Remove(Backup)];
    var e := Run(a, ABORT);
    assert Live(a) in ImagesOf(e);
  }

  /** What an abort before the target leaves can still show the open journal after a power loss. */
  lemma AbortedShowsJournal(q: Disk<Text>, t: nat, fault: Fault, prior: Option<StoreImage>, next: StoreImage)
    requires AllIn(Safe, q, prior, next) && In(Prepared, Live(q), q.nodes, prior, next) && Tmp(t) !in Live(q) && Aborts(fault)
    ensures var e := Run(q, AfterPrepare(prior, next, t, 0, fault));
            exists dir :: dir in ImagesOf(e) && Journal in dir && !MarkerAt(dir, e.nodes)
  {
    hide SafeRun;
    hide Run;
    hide In;
    hide AllIn;
    hide MarkerAt;
    hide WriteOps;
    hide ABORT;
    if fault.PrepareSyncFault? {
      AbortShowsJournal(q, prior, next);
    } else {
      SyncIsSafe(Prepared, q, prior, next);
      var s, written := Run(q, [SyncDir]), Take(WriteOps(Tmp(t), StoreText(next)), fault.done);
      WriteTmpKeeps(Prepared, s, t, StoreText(next), fault.done, prior, next);
      var w := Run(s, written);
      TmpRemovalIsSafe(Prepared, w, t, prior, next);
      var a := Run(w, [Remove(Tmp(t))]);
      LiveIsImage(a.durable, a.pending);
      assert In(Prepared, Live(a), a.nodes, prior, next) by { ImageIsIn(Prepared, a, Live(a), prior, next); }
      AbortShowsJournal(a, prior, next);
      RunAppend(q, [SyncDir], written);
      RunAppend(q, [SyncDir] + written, [Remove(Tmp(t))]);
      RunAppend(q, [SyncDir] + written + [Remove(Tmp(t))], ABORT);
    }
  }

  lemma ImageIsIn(phase: Phase, d: Disk<Text>, dir: Dir, prior: Option<StoreImage>, next: StoreImage)
    requires AllIn(phase, d, prior, next) && dir in ImagesOf(d)
    ensures In(phase, dir, d.nodes, prior, next)
  {}

  lemma AbortedAftermath(q: Disk<Text>, t: nat, m: nat, fault: Fault, prior: Option<StoreImage>, next: StoreImage)
    requires AllIn(Journaled, q, prior, next) && AllIn(Safe, q, prior, next) && In(Prepared, Live(q), q.nodes, prior, next)
    requires FreshNames(q, t, m) && Aborts(fault)
    ensures var e := Run(q, AfterPrepare(prior, next, t, m, fault));
            Settled(e, prior) && (Clean(e, prior) <==> prior.None?)
  {
    hide SafeRun;
    hide Run;
    hide In;
    hide AllIn;
    hide Clean;
    hide Settled;
    hide MarkerAt;
    AbortIgnoresMarker(prior, next, t, m, fault);
    hide AfterPrepare;
    AbortPath(q, t, fault, prior, next);
    AbortedShowsJournal(q, t, fault, prior, next);
    JournaledIsSettled(Run(q, AfterPrepare(prior, next, t, 0, fault)), prior, next);
  }

  // ----- cleanups -----

  /** After both removals, a power loss can keep either name or both. */
  lemma CleanupImages(c: Disk<Text>)
    requires c.pending == []
    ensures var e := Run(c, CLEANUP);
            && e.nodes == c.nodes && Live(e) == c.durable - {Backup} - {Journal}
            && c.durable - {Journal} in ImagesOf(e)
            && forall dir | dir in ImagesOf(e) && Backup in dir :: Backup in c.durable && dir[Backup] == c.durable[Backup]
  {
    hide Run;
    NothingPending(c);
    TwoRemovals(c, Backup, Journal);
    assert CLEANUP == [Remove(Backup)] + [Remove(Journal)];
    var b := Exec(c, Remove(Backup));
    RemovedIsLive(c, Backup);
    RemovedIsLive(b, Journal);
    RemovalKeepsImages(c, Backup);
    hide ImagesOf;
    hide Live;
    LostJournal(b, c.durable);
  }

  lemma LostJournal(b: Disk<Text>, dir: Dir)
    requires dir in ImagesOf(b) && (Journal in dir ==> Journal in Live(b))
    ensures dir - {Journal} in ImagesOf(Exec(b, Remove(Journal)))
  {
    PendingSnoc(b.durable, b.pending, Unlink(Journal));
    assert dir - {Journal} == if Journal in Live(b) then Apply(dir, Unlink(Journal)) else dir;
  }

  /** The condition for an absorbed cleanup error: the backup that can come back holds the committed store anyway. */
  lemma CleanupAftermath(c: Disk<Text>, prior: Option<StoreImage>, next: StoreImage)
    requires AllIn(Committed, c, prior, next) && c.pending == []
    requires BackupIs(Live(c), c.nodes, prior) && Journal in Live(c)
    ensures var e := Run(c, CLEANUP);
            Settled(e, Some(next)) && (Clean(e, Some(next)) <==> prior.None? || prior == Some(next))
  {
    hide Run;
    hide SafeRun;
    hide Settled;
    hide Clean;
    NothingPending(c);
    var e := Run(c, CLEANUP);
    CleanupIsSafe(c, 2, prior, next);
    TakeAll(CLEANUP, 2);
    CleanupImages(c);
    CommittedIsSettled(e, prior, next);
    if prior.Some? {
      assert Backup in c.durable - {Journal};
    }
  }

  lemma CommittedAftermath(d: Disk<Text>, t: nat, m: nat, fault: Fault, prior: Option<StoreImage>, next: StoreImage)
    requires Current(d, prior) && FreshNames(d, t, m) && Commits(fault) && LeavesNoJournal(prior, fault)
    ensures var e := Run(d, CommitOps(prior, next, t, m, fault));
            Settled(e, Some(next)) && (Clean(e, Some(next)) <==> Tidy(prior, next, fault))
  {
    hide SafeRun;
    hide Run;
    hide In;
    hide AllIn;
    hide Prepare;
    hide Committing;
    hide Current;
    hide Clean;
    var c := MarkerIsDurable(d, prior, next, t, m);
    CommitEnds(prior, next, t, m, fault);
    RunAppend(d, Prepare(prior) + Committing(prior, next, t, m), FinishOps(fault));
    if fault.NoFault? {
      CompletedIsCurrent(d, prior, next, t, m);
      FinishIsSafe(c, fault, prior, next);
      CommittedIsSettled(Run(c, FinishOps(fault)), prior, next);
    } else {
      TakeAll(CLEANUP, fault.done);
      CleanupAftermath(c, prior, next);
    }
  }

  // ----- rollbacks -----

  /** The journal as the rollback finds it: a commit marker if all marker operations were done, an open one otherwise. */
  predicate JournalSays(dir: Dir, nodes: Nodes, marked: bool) {
    Journal in dir && (MarkerAt(dir, nodes) <==> marked)
  }

  lemma RollbackFindsJournal(q: Disk<Text>, t: nat, m: nat, fault: Fault, prior: Option<StoreImage>, next: StoreImage)
    requires AllIn(Safe, q, prior, next) && In(Prepared, Live(q), q.nodes, prior, next) && FreshNames(q, t, m)
    requires Poisons(fault)
    ensures var b := Run(q, BeforeRollback(prior, next, t, m, fault));
            JournalSays(Live(b), b.nodes, fault.MarkerFault? && fault.done > 3)
  {
    hide SafeRun;
    hide Run;
    hide AllIn;
    hide In;
    hide Replace;
    hide MarkerOps;
    hide JournalSays;
    ReplaceIsSafe(q, t, prior, next);
    var r := Run(q, Replace(next, t));
    LiveIsImage(r.durable, r.pending);
    if fault.CommitSyncFault? {
      PreparedSays(r, prior, next);
      assert BeforeRollback(prior, next, t, m, fault) == Replace(next, t);
    } else {
      AllSafe(Prepared, r, prior, next);
      ImageIsIn(Prepared, r, Live(r), prior, next);
      SyncIsSafe(Prepared, r, prior, next);
      SyncIsSafe(Marked, r, prior, next);
      var s := Run(r, [SyncDir]);
      MarkerFindsJournal(s, m, fault.done, prior, next);
      RunAppend(r, [SyncDir], Take(MarkerOps(prior, m), fault.done));
      RunAppend(r, [SyncDir] + Take(MarkerOps(prior, m), fault.done), [Remove(Tmp(m))]);
      RunAppend(q, Replace(next, t), [SyncDir] + Take(MarkerOps(prior, m), fault.done) + [Remove(Tmp(m))]);
    }
  }

  lemma PreparedSays(d: Disk<Text>, prior: Option<StoreImage>, next: StoreImage)
    requires AllIn(Prepared, d, prior, next) && Live(d) in ImagesOf(d)
    ensures JournalSays(Live(d), d.nodes, false)
  {
    assert In(Prepared, Live(d), d.nodes, prior, next);
  }

  lemma MarkerFindsJournal(s: Disk<Text>, m: nat, done: nat, prior: Option<StoreImage>, next: StoreImage)
    requires AllIn(Prepared, s, prior, next) && AllIn(Marked, s, prior, next) && Tmp(m) !in Live(s)
    ensures var e := Run(Run(s, Take(MarkerOps(prior, m), done)), [Remove(Tmp(m))]);
            JournalSays(Live(e), e.nodes, done > 3)
  {
    hide SafeRun;
    hide Run;
    hide AllIn;
    hide In;
    hide WriteOps;
    hide JournalSays;
    var text := JournalText(true, prior.Some?);
    var w := Run(s, Take(MarkerOps(prior, m), done));
    if done <= 3 {
      assert Take(MarkerOps(prior, m), done) == Take(WriteOps(Tmp(m), text), done);
      WriteTmpKeeps(Prepared, s, m, text, done, prior, next);
      TmpRemovalIsSafe(Prepared, w, m, prior, next);
      var e := Run(w, [Remove(Tmp(m))]);
      LiveIsImage(e.durable, e.pending);
      PreparedSays(e, prior, next);
    } else {
      MarkerOpsAreSafe(s, m, done, prior, next);
      RunOne(w, Remove(Tmp(m)));
      RemovedIsLive(w, Tmp(m));
      MarkedSays(w, m, prior, next);
    }
  }

  lemma MarkedSays(w: Disk<Text>, m: nat, prior: Option<StoreImage>, next: StoreImage)
    requires In(Committed, Live(w), w.nodes, prior, next) && Journal in Live(w)
    ensures JournalSays(Live(w) - {Tmp(m)}, w.nodes, true)
  {}

  /** The rollback up to its first sync, and what is left to do. */
  function UndoOps(prior: Option<StoreImage>): seq<Op<Text>> {
    (if prior.Some? then RESTORE else [Remove(Target)]) + [SyncDir]
  }

  lemma RollbackParts(prior: Option<StoreImage>)
    ensures var ops := RollbackOps(prior.Some?, prior.None?);
            && ops == UndoOps(prior) + [Remove(Journal)] + [SyncDir]
            && ops[..|ops| - 1] == UndoOps(prior) + [Remove(Journal)]
  {}

  /** The synced half of a rollback: one image, with the old target, no backup and the journal as it was. */
  lemma UndoneDisk(b: Disk<Text>, marked: bool, prior: Option<StoreImage>, next: StoreImage)
    requires AllIn(Rollable, b, prior, next) && JournalSays(Live(b), b.nodes, marked)
    ensures var s := Run(b, UndoOps(prior));
            && s.pending == [] && TargetIs(s.durable, s.nodes, prior) && Backup !in s.durable
            && JournalSays(s.durable, s.nodes, marked)
            && In(Journaled, s.durable, s.nodes, prior, next)
  {
    hide Run;
    hide JournalSays;
    hide In;
    hide TargetIs;
    hide RESTORE;
    LiveIsImage(b.durable, b.pending);
    assert Live(b) in ImagesOf(b);
    ImageIsIn(Rollable, b, Live(b), prior, next);
    hide AllIn;
    hide Live;
    hide ImagesOf;
    var undo := if prior.Some? then RESTORE else [Remove(Target)];
    var u := Run(b, undo);
    if prior.Some? {
      RestoredDisk(b, prior, next);
    } else {
      RunOne(b, Remove(Target));
      RemovedIsLive(b, Target);
    }
    UndoneAt(Live(b), Live(u), b.nodes, marked, prior, next);
    RunAppend(b, undo, [SyncDir]);
    RunOne(u, SyncDir);
  }

  lemma RestoredDisk(b: Disk<Text>, prior: Option<StoreImage>, next: StoreImage)
    requires In(Rollable, Live(b), b.nodes, prior, next) && prior.Some?
    ensures Backup in Live(b)
    ensures Run(b, RESTORE).nodes == b.nodes && Live(Run(b, RESTORE)) == Apply(Live(b), Move(Backup, Target, Live(b)[Backup]))
  {
    hide Live;
    var n := LiveBackup(b, prior, next);
    RunAppend(b, [Rename(Backup, Target)], [Sync(Target)]);
    assert RESTORE == [Rename(Backup, Target)] + [Sync(Target)];
    RunOne(b, Rename(Backup, Target));
    RenamedIsLive(b, Backup, Target);
    var r := Exec(b, Rename(Backup, Target));
    RunOne(r, Sync(Target));
    assert r.nodes[n := Node(r.nodes[n].content, true)] == r.nodes;
  }

  lemma UndoneAt(before: Dir, after: Dir, nodes: Nodes, marked: bool, prior: Option<StoreImage>, next: StoreImage)
    requires In(Rollable, before, nodes, prior, next) && JournalSays(before, nodes, marked)
    requires if prior.Some? then Backup in before && after == Apply(before, Move(Backup, Target, before[Backup]))
             else after == before - {Target}
    ensures TargetIs(after, nodes, prior) && Backup !in after
    ensures JournalSays(after, nodes, marked) && In(Journaled, after, nodes, prior, next)
  {
    assert after[Journal] == before[Journal];
  }

  /** A rollback whose last operation may be missing. */
  lemma RolledBackAftermath(b: Disk<Text>, marked: bool, rolledBack: nat, prior: Option<StoreImage>, next: StoreImage)
    requires AllIn(Rollable, b, prior, next) && JournalSays(Live(b), b.nodes, marked)
    requires RolledBack(prior, rolledBack, 1)
    ensures var e := Run(b, Take(RollbackOps(prior.Some?, prior.None?), rolledBack));
            && Settled(e, prior)
            && (Clean(e, prior) <==> prior.None? || marked || RolledBack(prior, rolledBack, 0))
  {
    hide Run;
    hide Settled;
    hide Clean;
    hide In;
    hide JournalSays;
    var ops := RollbackOps(prior.Some?, prior.None?);
    RollbackParts(prior);
    UndoneDisk(b, marked, prior, next);
    var s := Run(b, UndoOps(prior));
    RunAppend(b, UndoOps(prior), [Remove(Journal)]);
    var j := Run(s, [Remove(Journal)]);
    RunOne(s, Remove(Journal));
    JournalDropped(s, marked, prior, next);
    if RolledBack(prior, rolledBack, 0) {
      TakeAll(ops, rolledBack);
      RunAppend(b, UndoOps(prior) + [Remove(Journal)], [SyncDir]);
      RunOne(j, SyncDir);
    }
  }

  lemma JournalDropped(s: Disk<Text>, marked: bool, prior: Option<StoreImage>, next: StoreImage)
    requires s.pending == [] && Backup !in s.durable && In(Journaled, s.durable, s.nodes, prior, next)
    requires JournalSays(s.durable, s.nodes, marked)
    ensures var j := Exec(s, Remove(Journal));
            && Settled(j, prior) && (Clean(j, prior) <==> prior.None? || marked)
            && Settled(Exec(j, SyncDir), prior) && Clean(Exec(j, SyncDir), prior)
  {
    hide Settled;
    hide Clean;
    hide In;
    var j := Exec(s, Remove(Journal));
    var k := Exec(j, SyncDir);
    DroppedImages(s);
    JournaledWithout(s.durable, s.nodes, prior, next);
    hide Exec;
    hide ImagesOf;
    hide Live;
    JournaledIsSettled(j, prior, next);
    JournaledIsSettled(k, prior, next);
    if Journal in s.durable && !MarkerAt(s.durable, s.nodes) { assert s.durable in ImagesOf(j); }
  }

  lemma DroppedImages(s: Disk<Text>)
    requires s.pending == []
    ensures var j := Exec(s, Remove(Journal));
            && j.nodes == s.nodes && Live(j) == s.durable - {Journal} && s.durable in ImagesOf(j)
            && forall dir | dir in ImagesOf(j) :: dir == s.durable || dir == s.durable - {Journal}
    ensures var k := Exec(Exec(s, Remove(Journal)), SyncDir);
            k.nodes == s.nodes && Live(k) == s.durable - {Journal} && ImagesOf(k) == {s.durable - {Journal}}
  {
    NothingPending(s);
    RemovedIsLive(s, Journal);
    RemovalKeepsImages(s, Journal);
    SyncedIsLive(Exec(s, Remove(Journal)));
  }

  lemma JournaledWithout(dir: Dir, nodes: Nodes, prior: Option<StoreImage>, next: StoreImage)
    requires In(Journaled, dir, nodes, prior, next)
    ensures In(Journaled, dir - {Journal}, nodes, prior, next)
  {}

  lemma PoisonedAftermath(q: Disk<Text>, t: nat, m: nat, fault: Fault, prior: Option<StoreImage>, next: StoreImage)
    requires AllIn(Safe, q, prior, next) && In(Prepared, Live(q), q.nodes, prior, next) && FreshNames(q, t, m)
    requires Poisons(fault) && LeavesNoJournal(prior, fault)
    ensures var e := Run(q, AfterPrepare(prior, next, t, m, fault));
            Settled(e, prior) && (Clean(e, prior) <==> Tidy(prior, next, fault))
  {
    hide Run;
    hide SafeRun;
    hide AllIn;
    hide In;
    hide Settled;
    hide Clean;
    hide JournalSays;
    hide BeforeRollback;
    hide RollbackOps;
    var before, rollback := BeforeRollback(prior, next, t, m, fault), Take(RollbackOps(prior.Some?, prior.None?), fault.rolledBack);
    BeforeRollbackIsSafe(q, t, m, fault, prior, next);
    RollbackFindsJournal(q, t, m, fault, prior, next);
    PoisonOps(prior, next, t, m, fault);
    hide AfterPrepare;
    RunAppend(q, before, rollback);
    RolledBackAftermath(Run(q, before), fault.MarkerFault? && fault.done > 3, fault.rolledBack, prior, next);
  }

  // ----- every commit that leaves no journal -----

  /** Whatever error a commit met: if its journal is out of sight, every power loss leaves the store that the commit
      leaves, and the disk is clean for the next commit exactly when the commit was tidy. */
  lemma EndedIsSettled(d: Disk<Text>, prior: Option<StoreImage>, next: StoreImage, t: nat, m: nat, fault: Fault)
    requires Reaches(d, prior, fault) && FreshNames(d, t, m) && LeavesNoJournal(prior, fault)
    ensures var e, store := Run(d, CommitOps(prior, next, t, m, fault)), StoreAfter(prior, next, fault);
            Settled(e, store) && (Clean(e, store) <==> Tidy(prior, next, fault))
  {
    hide Run;
    hide AllIn;
    hide In;
    hide Settled;
    hide Clean;
    if Commits(fault) {
      hide CommitOps;
      CommittedAftermath(d, t, m, fault, prior, next);
    } else {
      assert Reaches(d, prior, fault);
      hide Reaches;
      hide Prepare;
      PreparedIsReady(d, prior, next, t, m, fault);
      hide AfterPrepare;
      var q := ReadyAt(d, prior, fault);
      if Aborts(fault) {
        AbortedAftermath(q, t, m, fault, prior, next);
      } else {
        PoisonedAftermath(q, t, m, fault, prior, next);
      }
    }
  }

  // ----- restarts on a living system -----

  /** A restart that finds no journal does nothing: it repairs nothing either. */
  lemma RestartWithoutJournal(d: Disk<Text>)
    requires Journal !in Live(d)
    ensures Run(d, RecoverOps(d)) == d
  {
    RunNone(d);
  }

  lemma RemoveAndSync(d: Disk<Text>, name: Name)
    ensures var e := Run(d, [Remove(name)] + [SyncDir]);
            e.durable == Live(d) - {name} && e.pending == [] && e.nodes == d.nodes
  {
    RunAppend(d, [Remove(name)], [SyncDir]);
    RunOne(d, Remove(name));
    RunOne(Exec(d, Remove(name)), SyncDir);
    RemovedIsLive(d, name);
  }

  lemma CleanedDisk(d: Disk<Text>)
    ensures var e := Run(d, CLEANUP + [SyncDir]);
            e.durable == Live(d) - {Backup} - {Journal} && e.pending == [] && e.nodes == d.nodes
  {
    var drop: seq<Op<Text>> := [Remove(Journal)] + [SyncDir];
    assert CLEANUP + [SyncDir] == [Remove(Backup)] + drop;
    RunAppend(d, [Remove(Backup)], drop);
    RunOne(d, Remove(Backup));
    RemovedIsLive(d, Backup);
    RemoveAndSync(Exec(d, Remove(Backup)), Journal);
  }

  lemma RestoredAndSynced(d: Disk<Text>, store: StoreImage)
    requires TextAt(Live(d), d.nodes, Backup, StoreText(store))
    ensures var e := Run(d, RESTORE + [SyncDir]);
            e.durable == Apply(Live(d), Move(Backup, Target, Live(d)[Backup])) && e.pending == [] && e.nodes == d.nodes
  {
    assert RESTORE + [SyncDir] == [Rename(Backup, Target)] + [Sync(Target)] + [SyncDir];
    RunAppend(d, [Rename(Backup, Target)], [Sync(Target)]);
    RunAppend(d, [Rename(Backup, Target)] + [Sync(Target)], [SyncDir]);
    RunOne(d, Rename(Backup, Target));
    RenamedIsLive(d, Backup, Target);
    hide Live;
    var r, n := Exec(d, Rename(Backup, Target)), Live(d)[Backup];
    RunOne(r, Sync(Target));
    assert r.nodes[n := Node(r.nodes[n].content, true)] == r.nodes;
    RunOne(r, SyncDir);
  }

  /** The target after a recovery, from what the process sees at its start. */
  lemma RecoveredDisk(e: Disk<Text>, prior: Option<StoreImage>, next: StoreImage) returns (store: Option<StoreImage>)
    requires In(Safe, Live(e), e.nodes, prior, next) && Journal in Live(e)
    ensures var r := Run(e, RecoverOps(e));
            r.pending == [] && TargetIs(r.durable, r.nodes, store) && Journal !in r.durable && Backup !in r.durable
    ensures OutcomeOf(store) == Resolve(Live(e), e.nodes) && store in {prior, Some(next)}
  {
    hide Run;
    var dir, ops := Live(e), RecoverOps(e);
    var drop: seq<Op<Text>> := [Remove(Journal)] + [SyncDir];
    var undo: seq<Op<Text>> := [];
    if MarkerAt(dir, e.nodes) {
      CleanedDisk(e);
      store := if TargetIs(dir, e.nodes, Some(next)) then Some(next) else prior;
      return;
    } else if Backup in dir {
      RestoredAndSynced(e, prior.value);
      undo, store := RESTORE + [SyncDir], prior;
    } else if SaysNoPrior(dir, e.nodes) {
      RemoveAndSync(e, Target);
      undo, store := [Remove(Target)] + [SyncDir], None;
    } else {
      RunNone(e);
      store := prior;
    }
    hide RESTORE;
    assert ops == undo + drop;
    var u := Run(e, undo);
    assert Live(u) == if undo == [] then dir else u.durable by { if undo != [] { NothingPending(u); } }
    RunAppend(e, undo, drop);
    RemoveAndSync(u, Journal);
  }

  lemma AloneIsSettled(r: Disk<Text>, store: Option<StoreImage>)
    requires r.pending == [] && TargetIs(r.durable, r.nodes, store) && Journal !in r.durable && Backup !in r.durable
    ensures Settled(r, store) && Clean(r, store)
  {
    NothingPending(r);
    var next := if store.Some? then store.value else DeviceFile([]);
    assert AllIn(Journaled, r, store, next);
    JournaledIsSettled(r, store, next);
  }

  // ----- every commit, whatever its error -----

  lemma EndIsSafe(d: Disk<Text>, prior: Option<StoreImage>, next: StoreImage, t: nat, m: nat, fault: Fault)
    requires Reaches(d, prior, fault) && FreshNames(d, t, m)
    ensures AllIn(Safe, Run(d, CommitOps(prior, next, t, m, fault)), prior, next)
  {
    hide Run;
    hide AllIn;
    hide In;
    hide SafeRun;
    PreparedIsReady(d, prior, next, t, m, fault);
    var q, rest := ReadyAt(d, prior, fault), AfterPrepare(prior, next, t, m, fault);
    AfterPrepareIsSafe(q, prior, next, t, m, fault);
    SafePrefix(q, rest, |rest|, prior, next);
    assert rest[..|rest|] == rest;
  }

  predicate KeepsJournal(op: Op<Text>) {
    op != Remove(Journal) && (op.Rename? ==> op.from != Journal)
  }

  lemma {:induction false} JournalStays(d: Disk<Text>, ops: seq<Op<Text>>)
    requires Journal in Live(d) && forall i | 0 <= i < |ops| :: KeepsJournal(ops[i])
    ensures Journal in Live(Run(d, ops))
    decreases |ops|
  {
    if ops != [] {
      OpKeepsJournal(d, ops[0]);
      JournalStays(Exec(d, ops[0]), ops[1..]);
    }
  }

  lemma OpKeepsJournal(d: Disk<Text>, op: Op<Text>)
    requires Journal in Live(d) && KeepsJournal(op)
    ensures Journal in Live(Exec(d, op))
  {
    match op
    case Create(name) => PendingSnoc(d.durable, d.pending, Link(name, |d.nodes|));
    case Overwrite(name) => PendingSnoc(d.durable, d.pending, Link(name, |d.nodes|));
    case Rename(from, to) => if from in Live(d) { RenamedIsLive(d, from, to); }
    case Remove(name) => RemovedIsLive(d, name);
    case SyncDir => SyncedIsLive(d);
    case _ =>
  }

  /** The other faults do leave a journal. */
  lemma OtherwiseJournalStays(d: Disk<Text>, prior: Option<StoreImage>, next: StoreImage, t: nat, m: nat, fault: Fault)
    requires Reaches(d, prior, fault) && FreshNames(d, t, m) && !LeavesNoJournal(prior, fault)
    ensures var e := Run(d, CommitOps(prior, next, t, m, fault));
            Journal in Live(e) && (Commits(fault) ==> Resolve(Live(e), e.nodes) == Found(next))
  {
    hide Run;
    hide CommitOps;
    hide Reaches;
    if Commits(fault) {
      assert Current(d, prior) by { assert Reaches(d, prior, fault); CurrentWhenReached(d, prior, fault); }
      CleanupLeavesJournal(d, prior, next, t, m, fault);
    } else {
      RollbackLeavesJournal(d, prior, next, t, m, fault);
    }
  }

  lemma CurrentWhenReached(d: Disk<Text>, prior: Option<StoreImage>, fault: Fault)
    requires Reaches(d, prior, fault)
    ensures Current(d, prior)
  {}

  lemma CleanupLeavesJournal(d: Disk<Text>, prior: Option<StoreImage>, next: StoreImage, t: nat, m: nat, fault: Fault)
    requires Current(d, prior) && FreshNames(d, t, m) && Commits(fault) && !LeavesNoJournal(prior, fault)
    ensures var e := Run(d, CommitOps(prior, next, t, m, fault));
            Journal in Live(e) && Resolve(Live(e), e.nodes) == Found(next)
  {
    hide Run;
    hide AllIn;
    hide In;
    hide SafeRun;
    hide Current;
    hide Prepare;
    hide Committing;
    var c := MarkerIsDurable(d, prior, next, t, m);
    CommitEnds(prior, next, t, m, fault);
    hide CommitOps;
    RunAppend(d, Prepare(prior) + Committing(prior, next, t, m), FinishOps(fault));
    CleanupIsSafe(c, fault.done, prior, next);
    CommittedResolvesLive(Run(c, FinishOps(fault)), prior, next);
  }

  lemma RollbackLeavesJournal(d: Disk<Text>, prior: Option<StoreImage>, next: StoreImage, t: nat, m: nat, fault: Fault)
    requires Reaches(d, prior, fault) && FreshNames(d, t, m) && Poisons(fault) && !LeavesNoJournal(prior, fault)
    ensures Journal in Live(Run(d, CommitOps(prior, next, t, m, fault)))
  {
    hide Run;
    hide AllIn;
    hide In;
    hide CommitOps;
    PreparedIsReady(d, prior, next, t, m, fault);
    var q, before := ReadyAt(d, prior, fault), BeforeRollback(prior, next, t, m, fault);
    hide ReadyAt;
    hide Reaches;
    PoisonOps(prior, next, t, m, fault);
    RollbackFindsJournal(q, t, m, fault, prior, next);
    hide BeforeRollback;
    hide AfterPrepare;
    var rollback := Take(RollbackOps(prior.Some?, prior.None?), fault.rolledBack);
    RunAppend(q, before, rollback);
    JournalStays(Run(q, before), rollback);
  }

  lemma CommittedResolvesLive(e: Disk<Text>, prior: Option<StoreImage>, next: StoreImage)
    requires AllIn(Committed, e, prior, next)
    ensures Resolve(Live(e), e.nodes) == Found(next)
  {
    LiveIsImage(e.durable, e.pending);
    assert In(Committed, Live(e), e.nodes, prior, next);
  }

  predicate TidyEnd(prior: Option<StoreImage>, next: StoreImage, fault: Fault) {
    LeavesNoJournal(prior, fault) ==> Tidy(prior, next, fault)
  }

  /** A commit with any error, and the restart of the process if a journal is left. */
  lemma EndedAndRestarted(d: Disk<Text>, prior: Option<StoreImage>, next: StoreImage, t: nat, m: nat, fault: Fault)
    returns (store: Option<StoreImage>)
    requires Reaches(d, prior, fault) && FreshNames(d, t, m)
    ensures var e := Run(d, CommitOps(prior, next, t, m, fault));
            var r := Run(e, RecoverOps(e));
            && Settled(r, store) && (Clean(r, store) <==> TidyEnd(prior, next, fault))
    ensures store in {prior, Some(next)}
    ensures LeavesNoJournal(prior, fault) || Commits(fault) ==> store == StoreAfter(prior, next, fault)
  {
    hide Run;
    hide RecoverOps;
    hide CommitOps;
    hide AllIn;
    hide In;
    hide Clean;
    hide Resolve;
    hide Reaches;
    var e := Run(d, CommitOps(prior, next, t, m, fault));
    if LeavesNoJournal(prior, fault) {
      EndedIsSettled(d, prior, next, t, m, fault);
      store := StoreAfter(prior, next, fault);
      RestartWithoutJournal(e);
    } else {
      hide Settled;
      EndIsSafe(d, prior, next, t, m, fault);
      OtherwiseJournalStays(d, prior, next, t, m, fault);
      LiveIsImage(e.durable, e.pending);
      ImageIsIn(Safe, e, Live(e), prior, next);
      store := RecoveredDisk(e, prior, next);
      AloneIsSettled(Run(e, RecoverOps(e)), store);
    }
  }

  // ----- commits that are refused while a journal is left -----

  function Refusals(store: StoreImage, n: nat): (ops: seq<Op<Text>>)
    ensures |ops| == 4 * n
  {
    if n == 0 then [] else Refusals(store, n - 1) + RefusedOps(Some(store))
  }

  /** After a commit whose cleanup left the journal: every image is committed, and the backup is a file of its own. */
  ghost predicate LeftBehind(d: Disk<Text>, prior: Option<StoreImage>, next: StoreImage) {
    && AllIn(Committed, d, prior, next) && Journal in Live(d)
    && (Backup in Live(d) ==> d.pending == [] && Live(d)[Backup] != Live(d)[Journal])
  }

  lemma BackupKeepsCommitted(d: Disk<Text>, node: Node<Text>, prior: Option<StoreImage>, next: StoreImage)
    requires LeftBehind(d, prior, next)
    ensures AllIn(Committed, WithBackup(d, node), prior, next) && Journal in Live(WithBackup(d, node))
  {
    var e, n := WithBackup(d, node), |d.nodes|;
    LiveIsImage(d.durable, d.pending);
    ImageIsIn(Committed, d, Live(d), prior, next);
    if Holds(d, Backup) {
      NothingPending(d);
    } else {
      FileIsLive(d, Backup, node);
      PendingSnoc(d.durable, d.pending, Link(Backup, n));
      forall dir | dir in ImagesOf(d) ensures In(Committed, dir, e.nodes, prior, next) && In(Committed, dir[Backup := n], e.nodes, prior, next) {
        ImageIsIn(Committed, d, dir, prior, next);
        NewBackupAt(dir, d.nodes, node, prior, next);
      }
    }
  }

  lemma NewBackupAt(dir: Dir, nodes: Nodes, node: Node<Text>, prior: Option<StoreImage>, next: StoreImage)
    requires In(Committed, dir, nodes, prior, next)
    ensures In(Committed, dir, nodes + [node], prior, next) && In(Committed, dir[Backup := |nodes|], nodes + [node], prior, next)
  {}

  /** A refused commit, at each of its operations. */
  lemma RefusalIsCommitted(d: Disk<Text>, prior: Option<StoreImage>, next: StoreImage, k: nat)
    requires LeftBehind(d, prior, next) && k <= |RefusedOps(Some(next))|
    ensures AllIn(Committed, Run(d, RefusedOps(Some(next))[..k]), prior, next)
    ensures LeftBehind(Run(d, RefusedOps(Some(next))), prior, next)
  {
    hide AllIn;
    hide In;
    hide Exec;
    hide SafeRun;
    hide WithBackup;
    hide Live;
    var text, former := StoreText(next), KeptBackup(d);
    var d1, d2 := WithBackup(d, Node(None, false, former)), WithBackup(d, Node(Some(text), false, former));
    var d3 := WithBackup(d, Node(Some(text), true));
    LiveBackupIsHeld(d, prior, next);
    BackupWritten(d, text);
    BackupKeepsCommitted(d, Node(None, false, former), prior, next);
    BackupKeepsCommitted(d, Node(Some(text), false, former), prior, next);
    BackupKeepsCommitted(d, Node(Some(text), true), prior, next);
    AllSafe(Committed, d, prior, next);
    AllSafe(Committed, d1, prior, next);
    AllSafe(Committed, d2, prior, next);
    AllSafe(Committed, d3, prior, next);
    var write := BackupOps(Some(next));
    WriteRun(d, d1, d2, d3, write, prior, next);
    RemoveBackup(d3, prior, next);
    RunAppend(d, write, [Remove(Backup)]);
    var ops := RefusedOps(Some(next));
    assert ops == write + [Remove(Backup)];
    if k <= 3 {
      assert ops[..k] == write[..k] && write[..3] == write;
    } else {
      assert ops[..k] == ops;
    }
  }

  lemma LiveBackupIsHeld(d: Disk<Text>, prior: Option<StoreImage>, next: StoreImage)
    requires LeftBehind(d, prior, next)
    ensures Backup in Live(d) ==> Holds(d, Backup)
  {
    LiveIsImage(d.durable, d.pending);
    ImageIsIn(Committed, d, Live(d), prior, next);
  }

  lemma RemoveBackup(d: Disk<Text>, prior: Option<StoreImage>, next: StoreImage)
    requires AllIn(Committed, d, prior, next) && Journal in Live(d)
    ensures LeftBehind(Run(d, [Remove(Backup)]), prior, next)
  {
    hide Run;
    RemoveIsSafe(Committed, d, Backup, prior, next);
  }

  /** Any number of refused commits, at each of their operations. */
  lemma {:induction false} RefusalsAreCommitted(d: Disk<Text>, prior: Option<StoreImage>, next: StoreImage, n: nat, k: nat)
    requires LeftBehind(d, prior, next) && k <= |Refusals(next, n)|
    ensures AllIn(Committed, Run(d, Refusals(next, n)[..k]), prior, next)
    ensures LeftBehind(Run(d, Refusals(next, n)), prior, next)
    decreases n
  {
    hide AllIn;
    hide Run;
    hide RefusedOps;
    if n == 0 {
      RunNone(d);
      assert AllIn(Committed, d, prior, next);
    } else {
      var before, last := Refusals(next, n - 1), RefusedOps(Some(next));
      RefusalsAreCommitted(d, prior, next, n - 1, if k <= |before| then k else |before|);
      RunAppend(d, before, last);
      if k <= |before| {
        assert Refusals(next, n)[..k] == before[..k];
        RefusalIsCommitted(Run(d, before), prior, next, 0);
      } else {
        assert Refusals(next, n)[..k] == before + last[..k - |before|];
        RunAppend(d, before, last[..k - |before|]);
        RefusalIsCommitted(Run(d, before), prior, next, k - |before|);
      }
    }
  }

  /** A commit with its error, and the commits that are refused until the restart if its cleanup left the journal. */
  function EpisodeOps(prior: Option<StoreImage>, next: StoreImage, t: nat, m: nat, fault: Fault, refused: nat): seq<Op<Text>> {
    CommitOps(prior, next, t, m, fault)
    + if Commits(fault) && !LeavesNoJournal(prior, fault) then Refusals(next, refused) else []
  }

  lemma CleanupLeavesBehind(d: Disk<Text>, prior: Option<StoreImage>, next: StoreImage, t: nat, m: nat, fault: Fault)
    requires Current(d, prior) && FreshNames(d, t, m) && Commits(fault) && !LeavesNoJournal(prior, fault)
    ensures LeftBehind(Run(d, CommitOps(prior, next, t, m, fault)), prior, next)
  {
    hide Run;
    hide AllIn;
    hide In;
    hide SafeRun;
    hide Current;
    hide Prepare;
    hide Committing;
    var c := MarkerIsDurable(d, prior, next, t, m);
    CommitEnds(prior, next, t, m, fault);
    hide CommitOps;
    RunAppend(d, Prepare(prior) + Committing(prior, next, t, m), FinishOps(fault));
    CleanupIsSafe(c, fault.done, prior, next);
    MarkerIsNotBackup(c, prior, next);
    if fault.done == 0 { RunNone(c); }
  }

  lemma MarkerIsNotBackup(c: Disk<Text>, prior: Option<StoreImage>, next: StoreImage)
    requires AllIn(Committed, c, prior, next) && BackupIs(Live(c), c.nodes, prior) && Journal in Live(c)
    ensures Backup in Live(c) ==> Live(c)[Backup] != Live(c)[Journal]
  {
    LiveIsImage(c.durable, c.pending);
    ImageIsIn(Committed, c, Live(c), prior, next);
  }

  /** Refused commits do not change what a restart finds. */
  lemma RefusedAndRestarted(d: Disk<Text>, prior: Option<StoreImage>, next: StoreImage, t: nat, m: nat, fault: Fault, refused: nat)
    requires Current(d, prior) && FreshNames(d, t, m) && Commits(fault) && !LeavesNoJournal(prior, fault)
    ensures var e := Run(d, EpisodeOps(prior, next, t, m, fault, refused));
            var r := Run(e, RecoverOps(e));
            Settled(r, Some(next)) && Clean(r, Some(next))
  {
    hide Run;
    hide RecoverOps;
    hide CommitOps;
    hide Current;
    hide AllIn;
    hide In;
    hide Settled;
    hide Clean;
    hide Resolve;
    var c, ops := Run(d, CommitOps(prior, next, t, m, fault)), Refusals(next, refused);
    CleanupLeavesBehind(d, prior, next, t, m, fault);
    RefusalsAreCommitted(c, prior, next, refused, 0);
    RunAppend(d, CommitOps(prior, next, t, m, fault), ops);
    var e := Run(c, ops);
    AllSafe(Committed, e, prior, next);
    LiveIsImage(e.durable, e.pending);
    ImageIsIn(Safe, e, Live(e), prior, next);
    CommittedResolvesLive(e, prior, next);
    var store := RecoveredDisk(e, prior, next);
    AloneIsSettled(Run(e, RecoverOps(e)), store);
  }

  /** A power loss among the refused commits leaves the committed store. */
  lemma LossAmongRefusals(d: Disk<Text>, prior: Option<StoreImage>, next: StoreImage, t: nat, m: nat, fault: Fault, refused: nat,
                          k: nat, s: Disk<Text>)
    requires Current(d, prior) && FreshNames(d, t, m) && Commits(fault) && !LeavesNoJournal(prior, fault)
    requires |CommitOps(prior, next, t, m, fault)| <= k <= |EpisodeOps(prior, next, t, m, fault, refused)|
    requires Crashed(Run(d, EpisodeOps(prior, next, t, m, fault, refused)[..k]), s)
    ensures Resolve(s.durable, s.nodes) == Found(next) && Recoverable(s) && Apart(s.durable, s.nodes)
  {
    hide Run;
    hide CommitOps;
    hide Current;
    hide AllIn;
    hide In;
    hide Crashed;
    hide Resolve;
    hide Refusals;
    var commit, ops := CommitOps(prior, next, t, m, fault), Refusals(next, refused);
    var j := k - |commit|;
    CleanupLeavesBehind(d, prior, next, t, m, fault);
    RefusalsAreCommitted(Run(d, commit), prior, next, refused, j);
    assert EpisodeOps(prior, next, t, m, fault, refused)[..k] == commit + ops[..j];
    RunAppend(d, commit, ops[..j]);
    var e := Run(Run(d, commit), ops[..j]);
    AllSafe(Committed, e, prior, next);
    CommittedResolves(e, s, prior, next);
    SafeResolves(e, s, prior, next);
  }
}
