/** Startup recovery: it brings back the store that the metadata calls for, however often it is cut short. On a disk
    that a power loss has left, every file is synced; each operation of the recovery then keeps what the metadata
    calls for in every directory that another power loss can leave. */
module TrustJournalRecovery {

  import opened DurableDisk
  import opened TrustJournal
  import opened TrustJournalSafety
  import opened TrustJournalCommit
  import opened TrustJournalTheorems

  /** Every power loss from here leaves a trustworthy disk that resolves to the same store. */
  ghost predicate Steady(d: Disk<Text>, x: Outcome) {
    && (forall i | 0 <= i < |d.nodes| :: d.nodes[i].stable)
    && forall dir | dir in ImagesOf(d) :: SteadyAt(dir, d.nodes, x)
  }

  predicate SteadyAt(dir: Dir, nodes: Nodes, x: Outcome) {
    Resolve(dir, nodes) == x && ConsistentAt(dir, nodes) && Apart(dir, nodes)
  }

  ghost predicate SteadyRun(d: Disk<Text>, ops: seq<Op<Text>>, x: Outcome)
    decreases |ops|
  {
    Steady(d, x) && (ops != [] ==> SteadyRun(Exec(d, ops[0]), ops[1..], x))
  }

  lemma {:induction false} SteadyAppend(d: Disk<Text>, a: seq<Op<Text>>, b: seq<Op<Text>>, x: Outcome)
    requires SteadyRun(d, a, x) && SteadyRun(Run(d, a), b, x)
    ensures SteadyRun(d, a + b, x)
    ensures Run(d, a + b) == Run(Run(d, a), b)
    decreases |a|
  {
    RunAppend(d, a, b);
    if a == [] {
      assert a + b == b;
    } else {
      assert (a + b)[1..] == a[1..] + b;
      SteadyAppend(Exec(d, a[0]), a[1..], b, x);
    }
  }

  lemma {:induction false} SteadyPrefix(d: Disk<Text>, ops: seq<Op<Text>>, k: nat, x: Outcome)
    requires SteadyRun(d, ops, x) && k <= |ops|
    ensures Steady(Run(d, ops[..k]), x)
    decreases k
  {
    if k > 0 {
      assert ops[..k][1..] == ops[1..][..k - 1];
      SteadyPrefix(Exec(d, ops[0]), ops[1..], k - 1, x);
    }
  }

  lemma SteadyOne(d: Disk<Text>, op: Op<Text>, x: Outcome)
    requires Steady(d, x) && Steady(Exec(d, op), x)
    ensures SteadyRun(d, [op], x) && Run(d, [op]) == Exec(d, op)
  {
    assert [op][1..] == [];
    assert SteadyRun(Exec(d, op), [], x);
  }

  lemma SteadySync(d: Disk<Text>, x: Outcome)
    requires Steady(d, x)
    ensures var e := Run(d, [SyncDir]);
            SteadyRun(d, [SyncDir], x) && Steady(e, x) && e.pending == [] && Live(e) == Live(d) && e.nodes == d.nodes
  {
    SyncedIsLive(d);
    SteadyOne(d, SyncDir, x);
  }

  lemma SteadyRemove(d: Disk<Text>, name: Name, x: Outcome)
    requires Steady(d, x)
    requires forall dir | dir in ImagesOf(d) :: SteadyAt(dir - {name}, d.nodes, x)
    ensures var e := Run(d, [Remove(name)]);
            SteadyRun(d, [Remove(name)], x) && Steady(e, x) && Live(e) == Live(d) - {name} && e.nodes == d.nodes
  {
    hide SteadyAt;
    RemovedIsLive(d, name);
    var e := Exec(d, Remove(name));
    forall dir | dir in ImagesOf(e) ensures SteadyAt(dir, e.nodes, x) {
      if dir !in ImagesOf(d) {
        var before :| before in ImagesOf(d) && dir == before - {name};
      }
    }
    SteadyOne(d, Remove(name), x);
  }

  // ----- the three ways to recover -----

  lemma FinishCommitted(s: Disk<Text>, x: Outcome)
    requires Steady(s, x) && s.pending == [] && Journal in s.durable && SaysCommitted(s.durable, s.nodes)
    ensures var ops := CLEANUP + [SyncDir];
            var e := Run(s, ops);
            && SteadyRun(s, ops, x) && Steady(e, x) && e.pending == []
            && Live(e) == s.durable - {Backup, Journal} && e.nodes == s.nodes
  {
    hide SteadyRun;
    hide Run;
    NothingPending(s);
    var dir, nodes := s.durable, s.nodes;
    assert SteadyAt(dir, nodes, x);
    WithoutBackup(dir, nodes, x);
    SteadyRemove(s, Backup, x);
    var b := Run(s, [Remove(Backup)]);
    RemovedIsLive(s, Backup);
    forall image | image in ImagesOf(b) ensures SteadyAt(image - {Journal}, nodes, x) {
      RemovedOnce(s, Backup, image);
    }
    SteadyRemove(b, Journal, x);
    var j := Run(b, [Remove(Journal)]);
    SteadySync(j, x);
    SteadyAppend(s, [Remove(Backup)], [Remove(Journal)], x);
    SteadyAppend(s, [Remove(Backup)] + [Remove(Journal)], [SyncDir], x);
    assert CLEANUP == [Remove(Backup)] + [Remove(Journal)];
  }

  lemma WithoutBackup(dir: Dir, nodes: Nodes, x: Outcome)
    requires SteadyAt(dir, nodes, x) && Journal in dir && SaysCommitted(dir, nodes)
    ensures SteadyAt(dir - {Backup}, nodes, x)
    ensures SteadyAt(dir - {Journal}, nodes, x)
    ensures SteadyAt(dir - {Backup} - {Journal}, nodes, x)
  {}

  lemma RemovedOnce(s: Disk<Text>, name: Name, image: Dir)
    requires s.pending == [] && image in ImagesOf(Run(s, [Remove(name)]))
    ensures image == s.durable || image == s.durable - {name}
  {
    NothingPending(s);
    RemovedIsLive(s, name);
    var ops: seq<Op<Text>> := [Remove(name)];
    assert ops[1..] == [];
    assert Run(s, ops) == Exec(s, Remove(name));
  }

  /** Dropping the open journal, once the target is what the journal asked for. */
  lemma DropJournal(s: Disk<Text>, x: Outcome)
    requires Steady(s, x) && s.pending == [] && Backup !in s.durable && OutcomeAt(s.durable, s.nodes, Target) == x
    ensures var ops := [Remove(Journal), SyncDir];
            var e := Run(s, ops);
            && SteadyRun(s, ops, x) && Steady(e, x) && e.pending == []
            && Live(e) == s.durable - {Journal} && e.nodes == s.nodes
  {
    hide SteadyRun;
    hide Run;
    NothingPending(s);
    SteadyRemove(s, Journal, x);
    var j := Run(s, [Remove(Journal)]);
    SteadySync(j, x);
    SteadyAppend(s, [Remove(Journal)], [SyncDir], x);
    var ops: seq<Op<Text>> := [Remove(Journal), SyncDir];
    assert ops == [Remove(Journal)] + [SyncDir];
  }

  lemma RestoreBackup(s: Disk<Text>, x: Outcome)
    requires Steady(s, x) && s.pending == [] && Journal in s.durable && !SaysCommitted(s.durable, s.nodes)
    requires Backup in s.durable
    ensures var ops := RESTORE + [SyncDir];
            var e := Run(s, ops);
            && SteadyRun(s, ops, x) && Steady(e, x) && e.pending == [] && e.nodes == s.nodes
            && Live(e) == Apply(s.durable, Move(Backup, Target, s.durable[Backup]))
            && OutcomeAt(Live(e), e.nodes, Target) == x
  {
    hide SteadyRun;
    hide Run;
    NothingPending(s);
    var n := s.durable[Backup];
    var moved := Apply(s.durable, Move(Backup, Target, n));
    RenamedIsLive(s, Backup, Target);
    var r := Exec(s, Rename(Backup, Target));
    assert SteadyAt(s.durable, s.nodes, x);
    assert SteadyAt(moved, s.nodes, x);
    assert Steady(r, x);
    assert Exec(r, Sync(Target)) == r;
    SteadyOne(s, Rename(Backup, Target), x);
    SteadyOne(r, Sync(Target), x);
    SteadySync(r, x);
    SteadyAppend(s, [Rename(Backup, Target)], [Sync(Target)], x);
    SteadyAppend(s, [Rename(Backup, Target)] + [Sync(Target)], [SyncDir], x);
    assert RESTORE == [Rename(Backup, Target)] + [Sync(Target)];
  }

  lemma UndoFirst(s: Disk<Text>, x: Outcome)
    requires Steady(s, x) && s.pending == [] && Journal in s.durable && !SaysCommitted(s.durable, s.nodes)
    requires Backup !in s.durable && SaysNoPrior(s.durable, s.nodes)
    ensures var ops := [Remove(Target), SyncDir];
            var e := Run(s, ops);
            && SteadyRun(s, ops, x) && Steady(e, x) && e.pending == [] && e.nodes == s.nodes
            && Live(e) == s.durable - {Target} && x == Missing
  {
    hide SteadyRun;
    hide Run;
    NothingPending(s);
    assert SteadyAt(s.durable, s.nodes, x);
    SteadyRemove(s, Target, x);
    var u := Run(s, [Remove(Target)]);
    SteadySync(u, x);
    SteadyAppend(s, [Remove(Target)], [SyncDir], x);
    var ops: seq<Op<Text>> := [Remove(Target), SyncDir];
    assert ops == [Remove(Target)] + [SyncDir];
  }

  /** Recovery can be cut anywhere without changing its result, and when it completes, the target is the
      store that the metadata called for and the metadata is gone. */
  lemma RecoveryIsSteady(s: Disk<Text>, x: Outcome)
    requires Steady(s, x) && s.pending == []
    ensures var e := Run(s, RecoverOps(s));
            && SteadyRun(s, RecoverOps(s), x) && Steady(e, x) && e.pending == []
            && Journal !in Live(e) && OutcomeAt(Live(e), e.nodes, Target) == x
  {
    hide SteadyRun;
    hide Run;
    hide RESTORE;
    hide CLEANUP;
    NothingPending(s);
    var dir := s.durable;
    assert SteadyAt(dir, s.nodes, x);
    if Journal !in dir {
      NoRecovery(s, x);
    } else if SaysCommitted(dir, s.nodes) {
      FinishCommitted(s, x);
    } else {
      var drop: seq<Op<Text>> := [Remove(Journal), SyncDir];
      if Backup in dir {
        RestoreBackup(s, x);
        var r := Run(s, RESTORE + [SyncDir]);
        NothingPending(r);
        DropJournal(r, x);
        SteadyAppend(s, RESTORE + [SyncDir], drop, x);
      } else if SaysNoPrior(dir, s.nodes) {
        UndoFirst(s, x);
        var undo: seq<Op<Text>> := [Remove(Target), SyncDir];
        var u := Run(s, undo);
        NothingPending(u);
        DropJournal(u, x);
        SteadyAppend(s, undo, drop, x);
      } else {
        DropJournal(s, x);
        assert RecoverOps(s) == [] + drop == drop;
      }
    }
  }

  lemma NoRecovery(s: Disk<Text>, x: Outcome)
    requires Steady(s, x)
    ensures SteadyRun(s, [], x) && Run(s, []) == s
  {}
}
