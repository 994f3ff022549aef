/** The device map in memory and the files on disk: after every request and every I/O error, what a restart
    loads through the full validation is the map in memory. What a process sees of its files does not depend on
    what has been synced, so a commit can be followed on the disk that a restart on the living system finds. */
module TrustStoreMemory {

  import opened Wrappers
  import opened DurableDisk
  import opened StoreFiles
  import opened DeviceRecords
  import opened TrustJournal
  import opened TrustJournalSafety
  import opened TrustJournalCommit
  import opened TrustJournalTheorems
  import opened TrustJournalRecovery
  import opened TrustStoreRuns

  // ----- a restart without power loss -----

  /** The disk as a new process on the same running system finds it: nothing is lost. */
  function Calm(d: Disk<Text>): Disk<Text> {
    Disk(Live(d), [], seq(|d.nodes|, i requires 0 <= i < |d.nodes| => Node(d.nodes[i].content, true)))
  }

  lemma CalmIsPossible(d: Disk<Text>)
    ensures Crashed(d, Calm(d)) && Calm(Calm(d)) == Calm(d)
    ensures Live(Calm(d)) == Live(d) && ImagesOf(Calm(d)) == {Live(d)}
  {
    LiveIsImage(d.durable, d.pending);
    NothingPending(Calm(d));
  }

  predicate SameContents(a: Nodes, b: Nodes) {
    |a| == |b| && forall i | 0 <= i < |a| :: a[i].content == b[i].content
  }

  lemma SameContentsExec(d: Disk<Text>, c: Disk<Text>, op: Op<Text>)
    requires Live(c) == Live(d) && SameContents(c.nodes, d.nodes)
    ensures SameContents(Exec(c, op).nodes, Exec(d, op).nodes)
  {
    hide Live;
  }

  /** What the process does depends only on what it sees. */
  lemma ExecSees(d: Disk<Text>, op: Op<Text>)
    ensures Calm(Exec(d, op)) == Calm(Exec(Calm(d), op))
  {
    hide Exec;
    hide LiveAfter;
    var c := Calm(d);
    NothingPending(c);
    SameContentsExec(d, c, op);
    LiveExec(d, op);
    LiveExec(c, op);
    var e, f := Exec(d, op), Exec(c, op);
    assert Live(e) == Live(f);
    assert Calm(e).nodes == Calm(f).nodes;
  }

  function LiveAfter(dir: Dir, size: nat, op: Op<Text>): Dir {
    match op
    case Create(name) => if name in dir then dir else dir[name := size]
    case Overwrite(name) => if name in dir && dir[name] < size then dir else if name in dir then dir else dir[name := size]
    case Rename(from, to) => if from in dir then (dir - {from})[to := dir[from]] else dir
    case Remove(name) => dir - {name}
    case _ => dir
  }

  lemma LiveExec(d: Disk<Text>, op: Op<Text>)
    ensures Live(Exec(d, op)) == LiveAfter(Live(d), |d.nodes|, op)
  {
    match op
    case Create(name) => PendingSnoc(d.durable, d.pending, Link(name, |d.nodes|));
    case Overwrite(name) => PendingSnoc(d.durable, d.pending, Link(name, |d.nodes|));
    case Rename(from, to) => if from in Live(d) { RenamedIsLive(d, from, to); }
    case Remove(name) => RemovedIsLive(d, name);
    case SyncDir => SyncedIsLive(d);
    case _ =>
  }

  // ----- operations that write nothing -----

  predicate KeepsContents(ops: seq<Op<Text>>) {
    forall i | 0 <= i < |ops| :: ops[i].Rename? || ops[i].Remove? || ops[i].Sync? || ops[i].SyncDir?
  }

  function LiveAfterAll(dir: Dir, size: nat, ops: seq<Op<Text>>): Dir
    decreases |ops|
  {
    if ops == [] then dir else LiveAfterAll(LiveAfter(dir, size, ops[0]), size, ops[1..])
  }

  lemma {:induction false} RunKeepsContents(d: Disk<Text>, ops: seq<Op<Text>>)
    requires KeepsContents(ops)
    ensures Live(Run(d, ops)) == LiveAfterAll(Live(d), |d.nodes|, ops) && SameContents(Run(d, ops).nodes, d.nodes)
    decreases |ops|
  {
    if ops != [] {
      hide Live;
      hide LiveAfter;
      LiveExec(d, ops[0]);
      var e := Exec(d, ops[0]);
      assert SameContents(e.nodes, d.nodes);
      RunKeepsContents(e, ops[1..]);
    }
  }

  lemma TwoSteps(dir: Dir, size: nat, ops: seq<Op<Text>>)
    requires |ops| >= 2
    ensures LiveAfterAll(dir, size, ops) == LiveAfterAll(LiveAfter(LiveAfter(dir, size, ops[0]), size, ops[1]), size, ops[2..])
  {
    hide LiveAfter;
    assert ops[1..][1..] == ops[2..];
  }

  lemma {:induction false} RunSees(d: Disk<Text>, ops: seq<Op<Text>>)
    ensures Calm(Run(d, ops)) == Calm(Run(Calm(d), ops))
    decreases |ops|
  {
    hide Calm;
    hide Exec;
    CalmIsPossible(d);
    if ops != [] {
      ExecSees(d, ops[0]);
      RunSees(Exec(d, ops[0]), ops[1..]);
      RunSees(Exec(Calm(d), ops[0]), ops[1..]);
    }
  }

  // ----- agreement of memory and disk -----

  predicate StoredAs(dir: Dir, nodes: Nodes, devices: Devices) {
    TargetIs(dir, nodes, Some(Serialize(devices))) || (devices == [] && TargetIs(dir, nodes, None))
  }

  predicate AgreesAt(dir: Dir, nodes: Nodes, devices: Devices) {
    && StoredAs(dir, nodes, devices)
    && Apart(dir, nodes)
    && (Journal in dir ==> MarkerAt(dir, nodes) && (Backup in dir ==> dir[Backup] != dir[Journal]))
  }

  /** The target holds exactly the map in memory, and no metadata asks for a rollback. */
  predicate Agrees(d: Disk<Text>, devices: Devices) {
    AgreesAt(Live(d), Calm(d).nodes, devices)
  }

  predicate Represents(x: Outcome, devices: Devices) {
    x == Found(Serialize(devices)) || (devices == [] && x == Missing)
  }

  /** A restart can recover this disk, and the store that it then finds is x. */
  ghost predicate Stands(d: Disk<Text>, x: Outcome) {
    Recoverable(Calm(d)) && Apart(Live(d), Calm(d).nodes) && Resolve(Live(d), Calm(d).nodes) == x
  }

  lemma AgreementStands(d: Disk<Text>, devices: Devices)
    requires Agrees(d, devices)
    ensures Stands(d, OutcomeAt(Live(d), d.nodes, Target))
    ensures Represents(OutcomeAt(Live(d), d.nodes, Target), devices)
    ensures OutcomeOf(Loaded(d)) == OutcomeAt(Live(d), d.nodes, Target)
  {}

  lemma SeenAlike(d: Disk<Text>, e: Disk<Text>)
    requires Calm(d) == Calm(e)
    ensures Live(d) == Live(e)
    ensures forall name :: OutcomeAt(Live(d), d.nodes, name) == OutcomeAt(Live(e), e.nodes, name)
    ensures JournalContent(Live(d), d.nodes) == JournalContent(Live(e), e.nodes)
  {
    assert |d.nodes| == |Calm(d).nodes| == |e.nodes|;
    forall i | 0 <= i < |d.nodes| ensures d.nodes[i].content == e.nodes[i].content {
      assert Calm(d).nodes[i] == Calm(e).nodes[i];
    }
  }

  /** A completed recovery puts the store that stands in the target and leaves no journal. */
  lemma RestartRecovers(d: Disk<Text>, x: Outcome)
    requires Stands(d, x)
    ensures var e := Run(d, RecoverOps(d));
            && OutcomeAt(Live(e), e.nodes, Target) == x
            && Journal !in Live(e) && Apart(Live(e), Calm(e).nodes)
  {
    hide SteadyRun;
    hide Run;
    var c := Calm(d);
    CalmIsPossible(d);
    SeenAlike(d, c);
    assert RecoverOps(d) == RecoverOps(c);
    RecoverableIsSteady(c);
    RecoveryIsSteady(c, x);
    var e, f := Run(d, RecoverOps(d)), Run(c, RecoverOps(c));
    RunSees(d, RecoverOps(d));
    SeenAlike(e, f);
    CalmIsPossible(f);
    LiveIsImage(f.durable, f.pending);
    assert SteadyAt(Live(f), f.nodes, x);
  }

  lemma RestartAgrees(d: Disk<Text>, x: Outcome, devices: Devices)
    requires Stands(d, x) && Represents(x, devices)
    ensures Agrees(Run(d, RecoverOps(d)), devices)
  {
    hide RecoverOps;
    RestartRecovers(d, x);
  }

  // ----- commits -----

  lemma AgreementIsCurrent(d: Disk<Text>, devices: Devices)
    requires Agrees(d, devices) && Journal !in Live(d)
    ensures Current(Calm(d), Loaded(d)) && Clean(Calm(d), Loaded(d))
    ensures Represents(OutcomeOf(Loaded(d)), devices)
  {
    CalmIsPossible(d);
  }

  lemma CalmAgrees(e: Disk<Text>, devices: Devices)
    requires AgreesAt(Live(e), e.nodes, devices)
    ensures Agrees(e, devices)
  {}

  lemma SameAgrees(d: Disk<Text>, e: Disk<Text>, devices: Devices)
    requires Calm(d) == Calm(e) && Agrees(e, devices)
    ensures Agrees(d, devices)
  {
    SeenAlike(d, e);
  }

  /** A commit that passes its commit point leaves exactly the new map on disk, cleaned up or not. */
  lemma CommitAgrees(d: Disk<Text>, devices: Devices, staged: Devices, t: nat, m: nat, fault: Fault)
    requires Agrees(d, devices) && Journal !in Live(d) && FreshNames(d, t, m) && Commits(fault)
    ensures Agrees(Run(d, CommitOps(Loaded(d), Serialize(staged), t, m, fault)), staged)
  {
    hide SafeRun;
    hide Run;
    hide Prepare;
    hide Committing;
    hide AfterPrepare;
    hide Loaded;
    hide Serialize;
    var c, prior, next := Calm(d), Loaded(d), Serialize(staged);
    AgreementIsCurrent(d, devices);
    CalmIsPossible(d);
    PrepareIsSafe(c, prior, next);
    var p := Run(c, Prepare(prior));
    AllSafe(Journaled, p, prior, next);
    CommitPath(p, t, m, fault, prior, next);
    CommittingIsSafe(p, t, m, prior, next);
    var k := Run(p, Committing(prior, next, t, m));
    RunAppend(p, Committing(prior, next, t, m), FinishOps(fault));
    var e := Run(k, FinishOps(fault));
    FinishAgrees(k, fault, prior, next);
    RunAppend(c, Prepare(prior), AfterPrepare(prior, next, t, m, fault));
    RunSees(d, CommitOps(prior, next, t, m, fault));
    CalmAgrees(e, staged);
    SameAgrees(Run(d, CommitOps(prior, next, t, m, fault)), e, staged);
  }

  lemma FinishAgrees(k: Disk<Text>, fault: Fault, prior: Option<StoreImage>, next: StoreImage)
    requires AllIn(Committed, k, prior, next) && BackupIs(Live(k), k.nodes, prior) && Commits(fault)
    ensures var e := Run(k, FinishOps(fault));
            var dir := Live(e);
            && TargetIs(dir, e.nodes, Some(next)) && Apart(dir, e.nodes)
            && (Journal in dir ==> MarkerAt(dir, e.nodes) && (Backup in dir ==> dir[Backup] != dir[Journal]))
  {
    hide SafeRun;
    hide Run;
    FinishIsSafe(k, fault, prior, next);
    var e := Run(k, FinishOps(fault));
    LiveIsImage(e.durable, e.pending);
    assert In(Committed, Live(e), e.nodes, prior, next);
    if fault.CleanupFault? {
      CleanupIsSafe(k, fault.done, prior, next);
    }
  }

  /** A commit that meets an error before it touches the target leaves the old map. */
  lemma AbortAgrees(d: Disk<Text>, devices: Devices, next: StoreImage, t: nat, m: nat, fault: Fault)
    requires Agrees(d, devices) && Journal !in Live(d) && FreshNames(d, t, m) && Aborts(fault)
    ensures Agrees(Run(d, CommitOps(Loaded(d), next, t, m, fault)), devices)
  {
    hide SafeRun;
    hide Run;
    hide Prepare;
    hide AfterPrepare;
    hide Loaded;
    hide Serialize;
    var c, prior := Calm(d), Loaded(d);
    AgreementIsCurrent(d, devices);
    CalmIsPossible(d);
    PrepareIsSafe(c, prior, next);
    var p := Run(c, Prepare(prior));
    AbortPath(p, t, fault, prior, next);
    AbortIgnoresMarker(prior, next, t, m, fault);
    var e := Run(p, AfterPrepare(prior, next, t, m, fault));
    RunAppend(c, Prepare(prior), AfterPrepare(prior, next, t, m, fault));
    RunSees(d, CommitOps(prior, next, t, m, fault));
    CalmAgrees(e, devices);
    SameAgrees(Run(d, CommitOps(prior, next, t, m, fault)), e, devices);
  }

  /** Whatever error a commit meets, a restart finds the old map or the new one. */
  lemma FaultStands(d: Disk<Text>, devices: Devices, staged: Devices, t: nat, m: nat, fault: Fault)
    returns (x: Outcome)
    requires Agrees(d, devices) && Journal !in Live(d) && FreshNames(d, t, m)
    ensures Stands(Run(d, CommitOps(Loaded(d), Serialize(staged), t, m, fault)), x)
    ensures Represents(x, devices) || Represents(x, staged)
  {
    hide SafeRun;
    hide Run;
    hide CommitOps;
    hide Loaded;
    hide Serialize;
    var c, prior, next := Calm(d), Loaded(d), Serialize(staged);
    var ops := CommitOps(prior, next, t, m, fault);
    AgreementIsCurrent(d, devices);
    CalmIsPossible(d);
    CommitIsSafe(c, prior, next, t, m, fault);
    SafePrefix(c, ops, |ops|, prior, next);
    assert ops[..|ops|] == ops;
    var e := Run(c, ops);
    CalmIsPossible(e);
    SafeResolves(e, Calm(e), prior, next);
    RunSees(d, ops);
    SeenAlike(Run(d, ops), e);
    x := Resolve(Calm(e).durable, Calm(e).nodes);
  }

  /** What the in-process rollback reads when it starts: the journal, and the backup exactly if there was a store. */
  lemma RollbackSees(d: Disk<Text>, devices: Devices, next: StoreImage, t: nat, m: nat, fault: Fault)
    requires Agrees(d, devices) && Journal !in Live(d) && FreshNames(d, t, m) && Poisons(fault)
    ensures var prior := Loaded(d);
            var e := Run(d, Prepare(prior) + BeforeRollback(prior, next, t, m, fault));
            && Journal in Live(e) && (Backup in Live(e) <==> prior.Some?)
            && (SaysNoPrior(Live(e), e.nodes) <==> prior.None?)
  {
    hide SafeRun;
    hide Run;
    hide Prepare;
    hide BeforeRollback;
    hide Loaded;
    var c, prior := Calm(d), Loaded(d);
    AgreementIsCurrent(d, devices);
    CalmIsPossible(d);
    PrepareIsSafe(c, prior, next);
    var p := Run(c, Prepare(prior));
    AllSafe(Journaled, p, prior, next);
    BeforeRollbackIsSafe(p, t, m, fault, prior, next);
    var e := Run(p, BeforeRollback(prior, next, t, m, fault));
    RunAppend(c, Prepare(prior), BeforeRollback(prior, next, t, m, fault));
    RunSees(d, Prepare(prior) + BeforeRollback(prior, next, t, m, fault));
    SeenAlike(Run(d, Prepare(prior) + BeforeRollback(prior, next, t, m, fault)), e);
    LiveIsImage(e.durable, e.pending);
    assert In(Rollable, Live(e), e.nodes, prior, next);
  }

  /** A commit that is refused because a journal is in the way leaves the target and the journal as they are; the backup goes. */
  lemma RefusalAgrees(d: Disk<Text>, devices: Devices)
    requires Agrees(d, devices) && Journal in Live(d)
    ensures var e := Run(d, RefusedOps(Loaded(d)));
            && Agrees(e, devices)
            && OutcomeAt(Live(e), e.nodes, Target) == OutcomeAt(Live(d), d.nodes, Target)
            && JournalContent(Live(e), e.nodes) == JournalContent(Live(d), d.nodes)
            && Journal in Live(e) && Backup !in Live(e)
  {
    hide Run;
    hide Serialize;
    var c, prior := Calm(d), Loaded(d);
    CalmIsPossible(d);
    var b := c;
    if prior.Some? {
      var text := StoreText(prior.value);
      b := WithBackup(c, Node(Some(text), true));
      BackupWritten(c, text);
      RunThree(c, BackupOps(prior));
      FileIsLive(c, Backup, Node(Some(text), true));
    } else {
      RunNone(c);
    }
    var e := Run(c, RefusedOps(prior));
    RunAppend(c, BackupOps(prior), [Remove(Backup)]);
    RunOne(b, Remove(Backup));
    RemovedIsLive(b, Backup);
    RefusedView(c, b, e, devices);
    RunSees(d, RefusedOps(prior));
    CalmAgrees(e, devices);
    SameAgrees(Run(d, RefusedOps(prior)), e, devices);
    SeenAlike(Run(d, RefusedOps(prior)), e);
    SeenAlike(d, c);
  }

  /** Writing the backup leaves the nodes of the target and of the journal alone. */
  lemma BackupWriteKeeps(c: Disk<Text>, node: Node<Text>, devices: Devices)
    requires AgreesAt(Live(c), c.nodes, devices) && Journal in Live(c)
    ensures var b := WithBackup(c, node);
            && Live(b) - {Backup} == Live(c) - {Backup} && |b.nodes| >= |c.nodes|
            && forall name | name in {Target, Journal} && name in Live(c) && Live(c)[name] < |c.nodes| ::
                 b.nodes[Live(c)[name]] == c.nodes[Live(c)[name]]
  {
    hide Serialize;
    FileIsLive(c, Backup, node);
  }

  lemma RefusedView(c: Disk<Text>, b: Disk<Text>, e: Disk<Text>, devices: Devices)
    requires AgreesAt(Live(c), c.nodes, devices) && Journal in Live(c)
    requires b == c || exists node :: b == WithBackup(c, node)
    requires Live(e) == Live(b) - {Backup} && e.nodes == b.nodes
    ensures AgreesAt(Live(e), e.nodes, devices) && Journal in Live(e)
    ensures OutcomeAt(Live(e), e.nodes, Target) == OutcomeAt(Live(c), c.nodes, Target)
    ensures JournalContent(Live(e), e.nodes) == JournalContent(Live(c), c.nodes)
  {
    hide Serialize;
    hide Live;
    hide WithBackup;
    if b != c {
      var node :| b == WithBackup(c, node);
      BackupWriteKeeps(c, node, devices);
    }
  }
}
