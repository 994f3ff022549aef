/** Exactly when a commit is crash-atomic, and exactly which commits leave a disk on which the next one is. */
module TrustStoreExactness {

  import opened Wrappers
  import opened DurableDisk
  import opened StoreFiles
  import opened TrustJournal
  import opened TrustJournalSafety
  import opened TrustJournalCommit
  import opened TrustJournalTheorems
  import opened TrustStoreAftermath

  /** A commit from this disk, at any point and with any I/O error, survives a power loss as old or new. */
  ghost predicate Atomic(d: Disk<Text>, prior: Option<StoreImage>, t: nat, m: nat) {
    forall next: StoreImage, fault: Fault, k: nat, s: Disk<Text> |
      k <= |CommitOps(prior, next, t, m, fault)|
      && Crashed(Run(d, CommitOps(prior, next, t, m, fault)[..k]), s) ::
      Resolve(s.durable, s.nodes) in {OutcomeOf(prior), Found(next)}
  }

  lemma CleanIsAtomic(d: Disk<Text>, prior: Option<StoreImage>, t: nat, m: nat)
    requires Current(d, prior) && Clean(d, prior) && FreshNames(d, t, m)
    ensures Atomic(d, prior, t, m)
  {
    hide CommitOps;
    hide Run;
    hide Resolve;
    hide Crashed;
    forall next: StoreImage, fault: Fault, k: nat, s: Disk<Text> |
      k <= |CommitOps(prior, next, t, m, fault)|
      && Crashed(Run(d, CommitOps(prior, next, t, m, fault)[..k]), s)
      ensures Resolve(s.durable, s.nodes) in {OutcomeOf(prior), Found(next)}
    {
      CommitIsAtomic(d, prior, next, t, m, fault, k, s);
    }
  }

  /** What a power loss may leave, when every unsynced content is lost. */
  function Survivor(d: Disk<Text>, dir: Dir): Disk<Text> {
    Disk(dir, [], seq(|d.nodes|, i requires 0 <= i < |d.nodes| =>
      Node(if d.nodes[i].stable then d.nodes[i].content else None, true)))
  }

  lemma SurvivorIsPossible(d: Disk<Text>, dir: Dir)
    requires dir in ImagesOf(d)
    ensures Crashed(d, Survivor(d, dir))
  {}

  /** The first operations of a commit over an existing store, with no backup in sight. */
  lemma FirstOps(d: Disk<Text>, prior: StoreImage, t: nat, m: nat)
    requires Current(d, Some(prior)) && Backup !in Live(d)
    ensures var ops := CommitOps(Some(prior), prior, t, m, NoFault);
            var b := WithFile(d, Backup, Node(Some(StoreText(prior)), true));
            && |ops| >= 6
            && Run(d, ops[..1]) == WithFile(d, Backup, Node(None, false))
            && Run(d, ops[..6]) == WithFile(b, Journal, Node(Some(JournalText(false, true)), true))
  {
    hide AfterPrepare;
    hide Current;
    var ops := CommitOps(Some(prior), prior, t, m, NoFault);
    var b := WithFile(d, Backup, Node(Some(StoreText(prior)), true));
    NewFile(d, Backup, StoreText(prior));
    FileIsLive(d, Backup, Node(Some(StoreText(prior)), true));
    assert Journal !in Live(b) by { assert Current(d, Some(prior)); JournalUnseen(d, prior); }
    NewFile(b, Journal, JournalText(false, true));
    var backup, journal := BackupOps(Some(prior)), JournalOps(Some(prior));
    RunThree(d, backup);
    RunThree(b, journal);
    RunAppend(d, backup, journal);
    assert ops[..6] == backup + journal;
    assert ops[..1] == [Overwrite(Backup)];
    RunOne(d, Overwrite(Backup));
  }

  lemma JournalUnseen(d: Disk<Text>, prior: StoreImage)
    requires Current(d, Some(prior))
    ensures Journal !in Live(d)
  {}

  /** An open journal that a crash can bring back makes recovery trust a backup that is still being written. */
  lemma OpenJournalBreaks(d: Disk<Text>, prior: StoreImage, t: nat, m: nat, dir: Dir)
    requires Current(d, Some(prior)) && Backup !in Live(d)
    requires dir in ImagesOf(d) && Journal in dir && !MarkerAt(dir, d.nodes)
    ensures !Atomic(d, Some(prior), t, m)
  {
    hide CommitOps;
    hide Run;
    var ops := CommitOps(Some(prior), prior, t, m, NoFault);
    var e, n := WithFile(d, Backup, Node(None, false)), |d.nodes|;
    FirstOps(d, prior, t, m);
    PendingSnoc(d.durable, d.pending, Link(Backup, n));
    var image := dir[Backup := n];
    assert image == Apply(dir, Link(Backup, n));
    var s := Survivor(e, image);
    SurvivorIsPossible(e, image);
    assert Crashed(Run(d, ops[..1]), s);
    assert Resolve(s.durable, s.nodes) == Broken;
  }

  /** A hidden backup with another content is restored over the current store. */
  lemma StaleBackupBreaks(d: Disk<Text>, prior: StoreImage, t: nat, m: nat, dir: Dir)
    requires Current(d, Some(prior)) && Backup !in Live(d)
    requires dir in ImagesOf(d) && Backup in dir && !BackupIs(dir, d.nodes, Some(prior))
    ensures !Atomic(d, Some(prior), t, m)
  {
    hide CommitOps;
    hide Run;
    hide Resolve;
    hide Crashed;
    hide Survivor;
    hide Atomic;
    hide ImagesOf;
    assert dir[Backup] < |d.nodes|;
    FirstOps(d, prior, t, m);
    hide Current;
    var n := |d.nodes|;
    var b := WithFile(d, Backup, Node(Some(StoreText(prior)), true));
    var e := WithFile(b, Journal, Node(Some(JournalText(false, true)), true));
    JournalImage(d, prior, dir);
    SurvivorIsPossible(e, dir[Journal := n + 1]);
    StaleBackupWins(e, d.nodes, dir, prior, n + 1);
    WitnessBreaks(d, prior, t, m, 6, Survivor(e, dir[Journal := n + 1]));
  }

  /** One power loss that leaves neither store is enough. */
  lemma WitnessBreaks(d: Disk<Text>, prior: StoreImage, t: nat, m: nat, k: nat, s: Disk<Text>)
    requires k <= |CommitOps(Some(prior), prior, t, m, NoFault)|
    requires Crashed(Run(d, CommitOps(Some(prior), prior, t, m, NoFault)[..k]), s)
    requires Resolve(s.durable, s.nodes) != Found(prior)
    ensures !Atomic(d, Some(prior), t, m)
  {}

  /** A power loss can keep the new journal and lose the new backup. */
  lemma JournalImage(d: Disk<Text>, prior: StoreImage, dir: Dir)
    requires dir in ImagesOf(d)
    ensures var b := WithFile(d, Backup, Node(Some(StoreText(prior)), true));
            var e := WithFile(b, Journal, Node(Some(JournalText(false, true)), true));
            dir[Journal := |d.nodes| + 1] in ImagesOf(e)
  {
    hide ImagesOf;
    var b := WithFile(d, Backup, Node(Some(StoreText(prior)), true));
    NewNameOrNot(d, Backup, Node(Some(StoreText(prior)), true), dir);
    NewNameOrNot(b, Journal, Node(Some(JournalText(false, true)), true), dir);
  }

  lemma NewNameOrNot(d: Disk<Text>, name: Name, node: Node<Text>, dir: Dir)
    requires dir in ImagesOf(d)
    ensures var e := WithFile(d, name, node); dir in ImagesOf(e) && dir[name := |d.nodes|] in ImagesOf(e)
  {
    PendingSnoc(d.durable, d.pending, Link(name, |d.nodes|));
    assert dir[name := |d.nodes|] == Apply(dir, Link(name, |d.nodes|));
  }

  /** The surviving journal asks for the stale backup. */
  lemma StaleBackupWins(e: Disk<Text>, before: Nodes, dir: Dir, prior: StoreImage, n: nat)
    requires Backup in dir && !BackupIs(dir, before, Some(prior)) && dir[Backup] < |before| <= n < |e.nodes|
    requires forall i | 0 <= i < |before| :: e.nodes[i] == before[i]
    requires e.nodes[n] == Node(Some(JournalText(false, true)), true)
    ensures var s := Survivor(e, dir[Journal := n]); Resolve(s.durable, s.nodes) != Found(prior)
  {
    var s := Survivor(e, dir[Journal := n]);
    assert s.nodes[n].content == Some(JournalText(false, true));
    assert Resolve(s.durable, s.nodes) == OutcomeAt(s.durable, s.nodes, Backup);
  }

  /** The exact condition: a commit over an existing store is crash-atomic if and only if no power loss at its
      start could bring back an open journal, or a hidden backup of another store. */
  lemma AtomicExactlyWhenClean(d: Disk<Text>, prior: StoreImage, t: nat, m: nat)
    requires Current(d, Some(prior)) && FreshNames(d, t, m)
    ensures Atomic(d, Some(prior), t, m) <==> Clean(d, Some(prior))
  {
    hide CommitOps;
    hide Run;
    hide Resolve;
    hide Crashed;
    if Clean(d, Some(prior)) {
      CleanIsAtomic(d, Some(prior), t, m);
    } else if Backup in Live(d) {
      NothingPending(d);
      assert false;
    } else {
      hide Atomic;
      var dir :| dir in ImagesOf(d) &&
        !((Journal in dir ==> MarkerAt(dir, d.nodes)) && (Backup in dir ==> BackupIs(dir, d.nodes, Some(prior))));
      if Journal in dir && !MarkerAt(dir, d.nodes) {
        OpenJournalBreaks(d, prior, t, m, dir);
      } else {
        StaleBackupBreaks(d, prior, t, m, dir);
      }
    }
  }

  // ----- the condition, in terms of the commit before -----

  /** The commit after one that left no journal is crash-atomic if and only if that one was tidy: it had no error,
      or there was no store before it, or its error left nothing pending that could harm. */
  lemma NextCommitIsAtomicIffTidy(d: Disk<Text>, prior: Option<StoreImage>, next: StoreImage, t: nat, m: nat, fault: Fault,
                                  t2: nat, m2: nat)
    requires Current(d, prior) && Clean(d, prior) && FreshNames(d, t, m) && LeavesNoJournal(prior, fault)
    requires FreshNames(Run(d, CommitOps(prior, next, t, m, fault)), t2, m2)
    ensures Atomic(Run(d, CommitOps(prior, next, t, m, fault)), StoreAfter(prior, next, fault), t2, m2) <==> Tidy(prior, next, fault)
  {
    hide Run;
    hide CommitOps;
    hide Atomic;
    hide Clean;
    hide Current;
    EndedIsSettled(d, prior, next, t, m, fault);
    var e, store := Run(d, CommitOps(prior, next, t, m, fault)), StoreAfter(prior, next, fault);
    if store.Some? {
      AtomicExactlyWhenClean(e, store.value, t2, m2);
    } else {
      CleanIsAtomic(e, store, t2, m2);
    }
  }

  /** Over an existing store, when neither poison nor a journal is left behind: the next commit is crash-atomic if and
      only if this one had no error, or only its cleanup failed and it committed the store that was there. */
  lemma NextCommitAfterFault(d: Disk<Text>, prior: StoreImage, next: StoreImage, t: nat, m: nat, fault: Fault, t2: nat, m2: nat)
    requires Current(d, Some(prior)) && Clean(d, Some(prior)) && FreshNames(d, t, m)
    requires LeavesNoJournal(Some(prior), fault) && !Poisons(fault)
    requires FreshNames(Run(d, CommitOps(Some(prior), next, t, m, fault)), t2, m2)
    ensures Atomic(Run(d, CommitOps(Some(prior), next, t, m, fault)), StoreAfter(Some(prior), next, fault), t2, m2)
       <==> fault.NoFault? || (fault.CleanupFault? && prior == next)
  {
    hide Run;
    hide CommitOps;
    hide Atomic;
    hide Clean;
    hide Current;
    NextCommitIsAtomicIffTidy(d, Some(prior), next, t, m, fault, t2, m2);
  }

  /** A restart on a living system repairs nothing after an untidy commit: it finds no journal and does nothing. */
  lemma RestartRepairsNothing(d: Disk<Text>, prior: Option<StoreImage>, next: StoreImage, t: nat, m: nat, fault: Fault)
    requires Current(d, prior) && Clean(d, prior) && FreshNames(d, t, m) && LeavesNoJournal(prior, fault)
    requires !Tidy(prior, next, fault)
    ensures var e := Run(d, CommitOps(prior, next, t, m, fault));
            var r := Run(e, RecoverOps(e));
            r == e && Current(r, StoreAfter(prior, next, fault)) && !Clean(r, StoreAfter(prior, next, fault))
  {
    hide Run;
    hide CommitOps;
    hide RecoverOps;
    hide Clean;
    EndedIsSettled(d, prior, next, t, m, fault);
    RestartWithoutJournal(Run(d, CommitOps(prior, next, t, m, fault)));
  }

  /** An absorbed cleanup error in particular: the next commit, in the same process or after a restart, can lose the
      store that was just committed to the one before it. */
  lemma CleanupErrorIsNotClean(d: Disk<Text>, prior: StoreImage, next: StoreImage, t: nat, m: nat)
    requires Current(d, Some(prior)) && Clean(d, Some(prior)) && FreshNames(d, t, m) && prior != next
    ensures var e := Run(d, CommitOps(Some(prior), next, t, m, CleanupFault(2)));
            Current(e, Some(next)) && !Clean(e, Some(next)) && Run(e, RecoverOps(e)) == e
  {
    RestartRepairsNothing(d, Some(prior), next, t, m, CleanupFault(2));
  }
}
