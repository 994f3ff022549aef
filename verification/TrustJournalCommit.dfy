/** The commit stage by stage: backup, journal, replacement, marker and cleanup, each with the error path of every fault.
    For each stage, every directory that a power loss can leave is carried from the phase before it to the phase after it,
    and the operations in between stay safe. */
module TrustJournalCommit {

  import opened Wrappers
  import opened DurableDisk
  import opened StoreFiles
  import opened TrustJournal
  import opened TrustJournalSafety

  // ----- where a commit may start -----

  /** The running process sees the store of prior and no journal, and every crash would keep that store. */
  ghost predicate Current(d: Disk<Text>, prior: Option<StoreImage>) {
    && Journal !in Live(d)
    && (Backup in Live(d) ==> d.pending == [])
    && (forall dir | dir in ImagesOf(d) ::
          && TargetIs(dir, d.nodes, prior)
          && Apart(dir, d.nodes)
          && (Journal in dir ==> dir[Journal] < |d.nodes|))
  }

  /** No crash can bring back an open journal over a store, or a backup other than the visible one with another content. */
  ghost predicate Clean(d: Disk<Text>, prior: Option<StoreImage>) {
    forall dir | dir in ImagesOf(d) ::
      && HarmlessJournal(dir, d.nodes, prior)
      && (Backup in dir ==> (Backup in Live(d) && dir[Backup] == Live(d)[Backup]) || BackupIs(dir, d.nodes, prior))
  }

  predicate FreshNames(d: Disk<Text>, t: nat, m: nat) {
    t != m && Tmp(t) !in Live(d) && Tmp(m) !in Live(d)
  }

  lemma NothingPending(d: Disk<Text>)
    requires d.pending == []
    ensures ImagesOf(d) == {d.durable} && Live(d) == d.durable
  {}

  // ----- stage 1: backup and journal -----

  /** The disk after the backup file got some content, in place or as a new file. */
  function WithBackup(d: Disk<Text>, node: Node<Text>): Disk<Text> {
    if Holds(d, Backup) then SetNode(d, Backup, node) else WithFile(d, Backup, node)
  }

  /** The content of an older backup, which stays on the disk until the new one is synced. */
  function KeptBackup(d: Disk<Text>): Option<Text> {
    if Holds(d, Backup) then Kept(NodeOf(d, Backup)) else None
  }

  lemma BackupWritten(d: Disk<Text>, text: Text)
    requires Backup in Live(d) ==> Holds(d, Backup)
    ensures var former := KeptBackup(d);
            && Exec(d, Overwrite(Backup)) == WithBackup(d, Node(None, false, former))
            && Exec(WithBackup(d, Node(None, false, former)), Put(Backup, text)) == WithBackup(d, Node(Some(text), false, former))
            && Exec(WithBackup(d, Node(Some(text), false, former)), Sync(Backup)) == WithBackup(d, Node(Some(text), true))
  {
    if Holds(d, Backup) {
    } else {
      NewFile(d, Backup, text);
    }
  }

  lemma BackupKeepsIdle(d: Disk<Text>, node: Node<Text>, prior: Option<StoreImage>, next: StoreImage)
    requires Current(d, prior) && Clean(d, prior) && prior.Some?
    ensures AllIn(Idle, WithBackup(d, node), prior, next)
    ensures node == Node(Some(StoreText(prior.value)), true) ==> AllIn(BackedUp, WithBackup(d, node), prior, next)
  {
    if Holds(d, Backup) {
      NothingPending(d);
    } else {
      NewBackupKeepsIdle(d, node, prior, next);
    }
  }

  lemma NewBackupKeepsIdle(d: Disk<Text>, node: Node<Text>, prior: Option<StoreImage>, next: StoreImage)
    requires Current(d, prior) && Clean(d, prior) && prior.Some? && Backup !in Live(d)
    ensures AllIn(Idle, WithFile(d, Backup, node), prior, next)
    ensures node == Node(Some(StoreText(prior.value)), true) ==> AllIn(BackedUp, WithFile(d, Backup, node), prior, next)
  {
    var e, n := WithFile(d, Backup, node), |d.nodes|;
    PendingSnoc(d.durable, d.pending, Link(Backup, n));
    forall dir | dir in ImagesOf(e)
      ensures In(Idle, dir, e.nodes, prior, next)
      ensures node == Node(Some(StoreText(prior.value)), true) ==> In(BackedUp, dir, e.nodes, prior, next)
    {
      hide In;
      if dir in ImagesOf(d) {
        IdleImage(d, dir, dir, node, prior, next);
      } else {
        var before :| before in ImagesOf(d) && dir == before[Backup := n];
        IdleImage(d, before, dir, node, prior, next);
      }
    }
  }

  lemma IdleImage(d: Disk<Text>, before: Dir, dir: Dir, node: Node<Text>, prior: Option<StoreImage>, next: StoreImage)
    requires Current(d, prior) && Clean(d, prior) && prior.Some? && Backup !in Live(d) && before in ImagesOf(d)
    requires dir == before || dir == before[Backup := |d.nodes|]
    ensures In(Idle, dir, d.nodes + [node], prior, next)
    ensures node == Node(Some(StoreText(prior.value)), true) ==> In(BackedUp, dir, d.nodes + [node], prior, next)
  {
    hide Live;
    assert TargetIs(before, d.nodes, prior);
  }

  lemma BackupIsLive(d: Disk<Text>, node: Node<Text>, prior: Option<StoreImage>)
    requires Current(d, prior) && prior.Some?
    ensures var e := WithBackup(d, node);
            && Live(e).Keys == Live(d).Keys + {Backup}
            && Holds(e, Backup) && NodeOf(e, Backup) == node
            && TargetIs(Live(e), e.nodes, prior)
  {
    LiveIsImage(d.durable, d.pending);
    FileIsLive(d, Backup, node);
  }

  lemma JournalKeeps(d: Disk<Text>, node: Node<Text>, prior: Option<StoreImage>, next: StoreImage)
    requires AllIn(BackedUp, d, prior, next)
    requires node.content in {None, Some(JournalText(false, prior.Some?))} && node.former.None?
    ensures AllIn(Journaled, WithFile(d, Journal, node), prior, next)
  {
    hide In;
    var e := WithFile(d, Journal, node);
    PendingSnoc(d.durable, d.pending, Link(Journal, |d.nodes|));
    forall dir | dir in ImagesOf(d)
      ensures In(Journaled, dir, e.nodes, prior, next) && In(Journaled, dir[Journal := |d.nodes|], e.nodes, prior, next)
    {
      assert In(BackedUp, dir, d.nodes, prior, next);
      JournalAt(dir, d.nodes, node, prior, next);
    }
  }

  lemma JournalAt(dir: Dir, nodes: Nodes, node: Node<Text>, prior: Option<StoreImage>, next: StoreImage)
    requires In(BackedUp, dir, nodes, prior, next)
    requires node.content in {None, Some(JournalText(false, prior.Some?))} && node.former.None?
    ensures In(Journaled, dir, nodes + [node], prior, next)
    ensures In(Journaled, dir[Journal := |nodes|], nodes + [node], prior, next)
  {}

  lemma BackupIsSafe(d: Disk<Text>, prior: Option<StoreImage>, next: StoreImage)
    requires Current(d, prior) && Clean(d, prior)
    ensures var e := Run(d, BackupOps(prior));
            && SafeRun(d, BackupOps(prior), prior, next)
            && AllIn(BackedUp, e, prior, next)
            && Live(e).Keys == Live(d).Keys + (if prior.Some? then {Backup} else {})
            && TargetIs(Live(e), e.nodes, prior) && BackupIs(Live(e), e.nodes, prior) && Apart(Live(e), e.nodes)
  {
    LiveIsImage(d.durable, d.pending);
    AllSafe(Idle, d, prior, next);
    if prior.Some? {
      var text := StoreText(prior.value);
      var former := KeptBackup(d);
      var d1, d2 := WithBackup(d, Node(None, false, former)), WithBackup(d, Node(Some(text), false, former));
      var d3 := WithBackup(d, Node(Some(text), true));
      BackupWritten(d, text);
      BackupKeepsIdle(d, Node(None, false, former), prior, next);
      BackupKeepsIdle(d, Node(Some(text), false, former), prior, next);
      BackupKeepsIdle(d, Node(Some(text), true), prior, next);
      AllSafe(Idle, d1, prior, next);
      AllSafe(Idle, d2, prior, next);
      AllSafe(Idle, d3, prior, next);
      WriteRun(d, d1, d2, d3, BackupOps(prior), prior, next);
      BackupIsLive(d, Node(Some(text), true), prior);
      LiveIsImage(d3.durable, d3.pending);
      assert In(BackedUp, Live(d3), d3.nodes, prior, next);
    }
  }

  lemma JournalIsSafe(b: Disk<Text>, prior: Option<StoreImage>, next: StoreImage)
    requires AllIn(BackedUp, b, prior, next) && Journal !in Live(b)
    ensures var e := WithFile(b, Journal, Node(Some(JournalText(false, prior.Some?)), true));
            && SafeRun(b, JournalOps(prior), prior, next)
            && Run(b, JournalOps(prior)) == e
            && AllIn(Journaled, e, prior, next)
  {
    hide In;
    hide AllIn;
    hide Exec;
    var text := JournalText(false, prior.Some?);
    var d1, d2, d3 := WithFile(b, Journal, Node(None, false)), WithFile(b, Journal, Node(Some(text), false)), WithFile(b, Journal, Node(Some(text), true));
    NewFile(b, Journal, text);
    JournalKeeps(b, Node(None, false), prior, next);
    JournalKeeps(b, Node(Some(text), false), prior, next);
    JournalKeeps(b, Node(Some(text), true), prior, next);
    AllSafe(BackedUp, b, prior, next);
    AllSafe(Journaled, d1, prior, next);
    AllSafe(Journaled, d2, prior, next);
    AllSafe(Journaled, d3, prior, next);
    WriteRun(b, d1, d2, d3, JournalOps(prior), prior, next);
  }

  lemma JournalCompletes(b: Disk<Text>, prior: Option<StoreImage>, next: StoreImage)
    requires TargetIs(Live(b), b.nodes, prior) && BackupIs(Live(b), b.nodes, prior) && Apart(Live(b), b.nodes)
    ensures var e := WithFile(b, Journal, Node(Some(JournalText(false, prior.Some?)), true));
            && In(Prepared, Live(e), e.nodes, prior, next)
            && TargetIs(Live(e), e.nodes, prior)
            && Live(e).Keys == Live(b).Keys + {Journal}
  {
    hide Live;
    FileIsLive(b, Journal, Node(Some(JournalText(false, prior.Some?)), true));
  }

  /** After the preparation, every image still has the old target, and the live one has backup and journal. */
  lemma PrepareIsSafe(d: Disk<Text>, prior: Option<StoreImage>, next: StoreImage)
    requires Current(d, prior) && Clean(d, prior)
    ensures var e := Run(d, Prepare(prior));
            && SafeRun(d, Prepare(prior), prior, next)
            && AllIn(Journaled, e, prior, next)
            && In(Prepared, Live(e), e.nodes, prior, next)
            && TargetIs(Live(e), e.nodes, prior)
            && Live(e).Keys == Live(d).Keys + {Journal} + (if prior.Some? then {Backup} else {})
  {
    hide SafeRun;
    hide Run;
    hide AllIn;
    hide BackupOps;
    hide JournalOps;
    BackupIsSafe(d, prior, next);
    hide In;
    hide Live;
    var b := Run(d, BackupOps(prior));
    JournalIsSafe(b, prior, next);
    JournalCompletes(b, prior, next);
    SafeRunAppend(d, BackupOps(prior), JournalOps(prior), prior, next);
  }

  // ----- stages 2 to 4: barrier, target, barrier, marker, barrier, cleanup -----

  lemma SyncIsSafe(phase: Phase, d: Disk<Text>, prior: Option<StoreImage>, next: StoreImage)
    requires AllIn(Safe, d, prior, next) && In(phase, Live(d), d.nodes, prior, next)
    ensures var e := Run(d, [SyncDir]);
            && SafeRun(d, [SyncDir], prior, next)
            && AllIn(phase, e, prior, next)
            && e == Exec(d, SyncDir) && Live(e) == Live(d) && e.nodes == d.nodes && e.pending == []
  {
    hide In;
    SyncKeeps(phase, d, prior, next);
    SyncedIsLive(d);
    var e := Exec(d, SyncDir);
    AllSafe(phase, e, prior, next);
    SafeOne(d, SyncDir, prior, next);
  }

  /** Renaming a synced temporary file over the target or over the journal. */
  lemma RenameIsSafe(phase: Phase, d: Disk<Text>, from: Name, to: Name, prior: Option<StoreImage>, next: StoreImage)
    requires AllIn(phase, d, prior, next) && from in Live(d)
    requires forall dir | dir in ImagesOf(d) && In(phase, dir, d.nodes, prior, next) ::
               In(phase, Apply(dir, Move(from, to, Live(d)[from])), d.nodes, prior, next)
    ensures var e := Run(d, [Rename(from, to)]);
            && SafeRun(d, [Rename(from, to)], prior, next)
            && AllIn(phase, e, prior, next)
            && Live(e) == Apply(Live(d), Move(from, to, Live(d)[from])) && e.nodes == d.nodes
  {
    hide In;
    RenamedIsLive(d, from, to);
    var e := Exec(d, Rename(from, to));
    assert AllIn(phase, e, prior, next);
    AllSafe(phase, d, prior, next);
    AllSafe(phase, e, prior, next);
    SafeOne(d, Rename(from, to), prior, next);
  }

  lemma RemoveIsSafe(phase: Phase, d: Disk<Text>, name: Name, prior: Option<StoreImage>, next: StoreImage)
    requires AllIn(phase, d, prior, next)
    requires forall dir | In(phase, dir, d.nodes, prior, next) :: In(phase, dir - {name}, d.nodes, prior, next)
    ensures var e := Run(d, [Remove(name)]);
            && SafeRun(d, [Remove(name)], prior, next)
            && AllIn(phase, e, prior, next)
            && Live(e) == Live(d) - {name} && e.nodes == d.nodes
  {
    hide In;
    RemovedIsLive(d, name);
    var e := Exec(d, Remove(name));
    forall dir | dir in ImagesOf(e) ensures In(phase, dir, e.nodes, prior, next) {
      if dir !in ImagesOf(d) {
        var before :| before in ImagesOf(d) && dir == before - {name};
      }
    }
    AllSafe(phase, d, prior, next);
    AllSafe(phase, e, prior, next);
    SafeOne(d, Remove(name), prior, next);
  }

  /** The new target is a file of its own, beside the backup. */
  lemma ReplacedTarget(s: Disk<Text>, t: nat, prior: Option<StoreImage>, next: StoreImage)
    requires s.pending == [] && AllIn(Prepared, s, prior, next)
    ensures var w := WithFile(s, Tmp(t), Node(Some(StoreText(next)), true));
            forall dir | dir in ImagesOf(w) ::
              var after := Apply(dir, Move(Tmp(t), Target, |s.nodes|));
              In(Prepared, after, w.nodes, prior, next) && In(Marked, after, w.nodes, prior, next)
  {
    var n := |s.nodes|;
    var w := WithFile(s, Tmp(t), Node(Some(StoreText(next)), true));
    NothingPending(s);
    PendingSnoc(s.durable, s.pending, Link(Tmp(t), n));
    forall dir | dir in ImagesOf(w)
      ensures var after := Apply(dir, Move(Tmp(t), Target, n));
              In(Prepared, after, w.nodes, prior, next) && In(Marked, after, w.nodes, prior, next)
    {
      assert In(Prepared, s.durable, s.nodes, prior, next);
      ReplacedAt(s.durable, dir, s.nodes, t, prior, next);
    }
  }

  lemma ReplacedAt(before: Dir, dir: Dir, nodes: Nodes, t: nat, prior: Option<StoreImage>, next: StoreImage)
    requires In(Prepared, before, nodes, prior, next)
    requires dir == before || dir == before[Tmp(t) := |nodes|]
    ensures var after, now := Apply(dir, Move(Tmp(t), Target, |nodes|)), nodes + [Node(Some(StoreText(next)), true)];
            In(Prepared, after, now, prior, next) && In(Marked, after, now, prior, next)
  {
    var after, now := Apply(dir, Move(Tmp(t), Target, |nodes|)), nodes + [Node(Some(StoreText(next)), true)];
    assert TextAt(after, now, Journal, JournalText(false, prior.Some?));
  }

  /** The target is replaced while every image keeps the open journal and the backup. */
  lemma ReplaceIsSafe(d: Disk<Text>, t: nat, prior: Option<StoreImage>, next: StoreImage)
    requires AllIn(Safe, d, prior, next) && In(Prepared, Live(d), d.nodes, prior, next) && Tmp(t) !in Live(d)
    ensures var e := Run(d, Replace(next, t));
            && SafeRun(d, Replace(next, t), prior, next)
            && AllIn(Prepared, e, prior, next)
            && In(Marked, Live(e), e.nodes, prior, next)
            && Live(e).Keys == Live(d).Keys + {Target}
  {
    hide SafeRun;
    hide Run;
    hide AllIn;
    hide WriteOps;
    SyncIsSafe(Prepared, d, prior, next);
    var s := Run(d, [SyncDir]);
    WriteTmpKeeps(Prepared, s, t, StoreText(next), 3, prior, next);
    var w := Run(s, WriteOps(Tmp(t), StoreText(next)));
    FileIsLive(s, Tmp(t), Node(Some(StoreText(next)), true));
    TakeAll(WriteOps(Tmp(t), StoreText(next)), 3);
    ReplacedTarget(s, t, prior, next);
    RenameIsSafe(Prepared, w, Tmp(t), Target, prior, next);
    SafeRunAppend(s, WriteOps(Tmp(t), StoreText(next)), [Rename(Tmp(t), Target)], prior, next);
    SafeRunAppend(d, [SyncDir], TargetOps(next, t), prior, next);
  }

  lemma TakeAll<T>(s: seq<T>, n: nat)
    requires n >= |s|
    ensures Take(s, n) == s
  {}

  lemma MarkerSpeaks(nodes: Nodes, n: nat, prior: Option<StoreImage>, next: StoreImage, m: nat)
    requires n < |nodes| && nodes[n] == Node(Some(JournalText(true, prior.Some?)), true)
    ensures forall dir | In(Marked, dir, nodes, prior, next) ::
              var after := Apply(dir, Move(Tmp(m), Journal, n));
              In(Marked, after, nodes, prior, next) && In(Committed, after, nodes, prior, next)
  {
    forall dir | In(Marked, dir, nodes, prior, next)
      ensures var after := Apply(dir, Move(Tmp(m), Journal, n));
              In(Marked, after, nodes, prior, next) && In(Committed, after, nodes, prior, next)
    {
      assert TextAt(Apply(dir, Move(Tmp(m), Journal, n)), nodes, Journal, JournalText(true, prior.Some?));
    }
  }

  /** The marker operations, all of them or up to a failing one, while the target is already new. */
  lemma MarkerOpsAreSafe(d: Disk<Text>, m: nat, done: nat, prior: Option<StoreImage>, next: StoreImage)
    requires AllIn(Marked, d, prior, next) && Tmp(m) !in Live(d)
    ensures var ops := Take(MarkerOps(prior, m), done);
            && SafeRun(d, ops, prior, next)
            && AllIn(Marked, Run(d, ops), prior, next)
            && (done > 3 ==> In(Committed, Live(Run(d, ops)), Run(d, ops).nodes, prior, next)
                             && Live(Run(d, ops)).Keys == Live(d).Keys + {Journal})
  {
    hide SafeRun;
    hide Run;
    hide In;
    hide AllIn;
    hide WriteOps;
    var write := WriteOps(Tmp(m), JournalText(true, prior.Some?));
    if done <= 3 {
      WriteTmpKeeps(Marked, d, m, JournalText(true, prior.Some?), done, prior, next);
      assert Take(MarkerOps(prior, m), done) == Take(write, done);
    } else {
      assert Take(MarkerOps(prior, m), done) == write + [Rename(Tmp(m), Journal)];
      WholeMarkerIsSafe(d, m, prior, next);
    }
  }

  lemma WholeMarkerIsSafe(d: Disk<Text>, m: nat, prior: Option<StoreImage>, next: StoreImage)
    requires AllIn(Marked, d, prior, next) && Tmp(m) !in Live(d)
    ensures var ops := WriteOps(Tmp(m), JournalText(true, prior.Some?)) + [Rename(Tmp(m), Journal)];
            && SafeRun(d, ops, prior, next)
            && AllIn(Marked, Run(d, ops), prior, next)
            && In(Committed, Live(Run(d, ops)), Run(d, ops).nodes, prior, next)
            && Live(Run(d, ops)).Keys == Live(d).Keys + {Journal}
  {
    hide SafeRun;
    hide Run;
    hide In;
    hide AllIn;
    hide WriteOps;
    hide Live;
    hide ImagesOf;
    hide Apply;
    var text := JournalText(true, prior.Some?);
    var write := WriteOps(Tmp(m), text);
    WriteTmpKeeps(Marked, d, m, text, 3, prior, next);
    TakeAll(write, 3);
    var w := Run(d, write);
    FileIsLive(d, Tmp(m), Node(Some(text), true));
    MarkerIsRenamed(w, m, prior, next);
    MovedKeys(Live(w), Tmp(m), Journal, Live(w)[Tmp(m)]);
    SafeRunAppend(d, write, [Rename(Tmp(m), Journal)], prior, next);
  }

  lemma MovedKeys(dir: Dir, from: Name, to: Name, n: nat)
    ensures Apply(dir, Move(from, to, n)).Keys == dir.Keys - {from} + {to}
  {}

  lemma MarkerIsRenamed(w: Disk<Text>, m: nat, prior: Option<StoreImage>, next: StoreImage)
    requires AllIn(Marked, w, prior, next) && Tmp(m) in Live(w) && Live(w)[Tmp(m)] < |w.nodes|
    requires w.nodes[Live(w)[Tmp(m)]] == Node(Some(JournalText(true, prior.Some?)), true)
    ensures var e := Run(w, [Rename(Tmp(m), Journal)]);
            && SafeRun(w, [Rename(Tmp(m), Journal)], prior, next)
            && AllIn(Marked, e, prior, next)
            && In(Committed, Live(e), e.nodes, prior, next)
            && Live(e) == Apply(Live(w), Move(Tmp(m), Journal, Live(w)[Tmp(m)]))
  {
    hide SafeRun;
    hide Run;
    hide In;
    hide AllIn;
    LiveIsImage(w.durable, w.pending);
    MarkerSpeaks(w.nodes, Live(w)[Tmp(m)], prior, next, m);
    RenameIsSafe(Marked, w, Tmp(m), Journal, prior, next);
    MarkedImage(w, prior, next);
  }

  lemma MarkedImage(d: Disk<Text>, prior: Option<StoreImage>, next: StoreImage)
    requires AllIn(Marked, d, prior, next) && Live(d) in ImagesOf(d)
    ensures In(Marked, Live(d), d.nodes, prior, next)
  {}

  /** From the preparation to the durable marker: then every image is committed. */
  lemma CommittingIsSafe(d: Disk<Text>, t: nat, m: nat, prior: Option<StoreImage>, next: StoreImage)
    requires AllIn(Safe, d, prior, next) && In(Prepared, Live(d), d.nodes, prior, next) && FreshNames(d, t, m)
    ensures var e := Run(d, Committing(prior, next, t, m));
            && SafeRun(d, Committing(prior, next, t, m), prior, next)
            && AllIn(Committed, e, prior, next)
            && Live(e).Keys == Live(d).Keys + {Target, Journal} && e.pending == []
            && BackupIs(Live(e), e.nodes, prior)
  {
    hide SafeRun;
    hide Run;
    hide AllIn;
    hide In;
    hide Replace;
    hide MarkerOps;
    ReplaceIsSafe(d, t, prior, next);
    var r := Run(d, Replace(next, t));
    AllSafe(Prepared, r, prior, next);
    SyncIsSafe(Marked, r, prior, next);
    var s := Run(r, [SyncDir]);
    MarkerOpsAreSafe(s, m, 4, prior, next);
    TakeAll(MarkerOps(prior, m), 4);
    var k := Run(s, MarkerOps(prior, m));
    LiveIsImage(k.durable, k.pending);
    MarkedBackup(k, prior, next);
    AllSafe(Marked, k, prior, next);
    SyncIsSafe(Committed, k, prior, next);
    SafeRunAppend(r, [SyncDir], MarkerOps(prior, m), prior, next);
    SafeRunAppend(d, Replace(next, t), Mark(prior, m), prior, next);
    SafeRunAppend(d, Replace(next, t) + Mark(prior, m), [SyncDir], prior, next);
  }

  lemma MarkedBackup(d: Disk<Text>, prior: Option<StoreImage>, next: StoreImage)
    requires AllIn(Marked, d, prior, next) && Live(d) in ImagesOf(d)
    ensures BackupIs(Live(d), d.nodes, prior)
  {
    assert In(Marked, Live(d), d.nodes, prior, next);
  }

  lemma CleanupIsSafe(d: Disk<Text>, done: nat, prior: Option<StoreImage>, next: StoreImage)
    requires AllIn(Committed, d, prior, next)
    ensures var e := Run(d, Take(CLEANUP, done));
            && SafeRun(d, Take(CLEANUP, done), prior, next)
            && AllIn(Committed, e, prior, next)
            && Live(e) == Live(d) - (if done == 0 then {} else if done == 1 then {Backup} else {Backup, Journal})
            && e.nodes == d.nodes
  {
    hide SafeRun;
    hide Run;
    AllSafe(Committed, d, prior, next);
    RemoveIsSafe(Committed, d, Backup, prior, next);
    var b := Run(d, [Remove(Backup)]);
    RemoveIsSafe(Committed, b, Journal, prior, next);
    SafeRunAppend(d, [Remove(Backup)], [Remove(Journal)], prior, next);
    assert CLEANUP == [Remove(Backup)] + [Remove(Journal)];
    if done == 0 {
      NoOps(d, prior, next);
    } else if done == 1 {
      assert Take(CLEANUP, 1) == [Remove(Backup)];
    }
  }

  lemma NoOps(d: Disk<Text>, prior: Option<StoreImage>, next: StoreImage)
    requires AllIn(Safe, d, prior, next)
    ensures SafeRun(d, [], prior, next) && Run(d, []) == d
  {}

  // ----- error paths -----

  /** An abort before the target was touched removes the journal and the backup. */
  lemma AbortIsSafe(d: Disk<Text>, prior: Option<StoreImage>, next: StoreImage)
    requires AllIn(Journaled, d, prior, next)
    ensures && SafeRun(d, ABORT, prior, next)
            && AllIn(Journaled, Run(d, ABORT), prior, next)
            && Live(Run(d, ABORT)) == Live(d) - {Journal, Backup}
            && Run(d, ABORT).nodes == d.nodes
  {
    hide SafeRun;
    hide Run;
    RemoveIsSafe(Journaled, d, Journal, prior, next);
    var j := Run(d, [Remove(Journal)]);
    RemoveIsSafe(Journaled, j, Backup, prior, next);
    SafeRunAppend(d, [Remove(Journal)], [Remove(Backup)], prior, next);
    assert ABORT == [Remove(Journal)] + [Remove(Backup)];
  }

  lemma TmpRemovalIsSafe(phase: Phase, d: Disk<Text>, t: nat, prior: Option<StoreImage>, next: StoreImage)
    requires AllIn(phase, d, prior, next) && phase != Idle
    ensures var e := Run(d, [Remove(Tmp(t))]);
            && SafeRun(d, [Remove(Tmp(t))], prior, next)
            && AllIn(phase, e, prior, next)
            && Live(e) == Live(d) - {Tmp(t)} && e.nodes == d.nodes
  {
    hide In;
    TmpRemovalKeeps(phase, d, t, prior, next);
    RemovedIsLive(d, Tmp(t));
    AllSafe(phase, d, prior, next);
    AllSafe(phase, Exec(d, Remove(Tmp(t))), prior, next);
    SafeOne(d, Remove(Tmp(t)), prior, next);
  }

  /** The in-process rollback restores the backup, or removes a target that had no predecessor. */
  lemma RollbackIsSafe(d: Disk<Text>, prior: Option<StoreImage>, next: StoreImage)
    requires AllIn(Rollable, d, prior, next)
    ensures var ops := RollbackOps(prior.Some?, prior.None?);
            var e := Run(d, ops);
            && SafeRun(d, ops, prior, next)
            && TargetIs(Live(e), e.nodes, prior)
            && Journal !in Live(e) && Backup !in Live(e) && e.pending == []
  {
    hide SafeRun;
    hide Run;
    LiveIsImage(d.durable, d.pending);
    var undo := if prior.Some? then RESTORE else [Remove(Target)];
    if prior.Some? {
      RestoreIsSafe(d, prior, next);
    } else {
      UndoIsSafe(d, next);
    }
    var u := Run(d, undo);
    SyncIsSafe(Safe, u, prior, next);
    var s := Run(u, [SyncDir]);
    RemoveIsSafe(Safe, s, Journal, prior, next);
    var j := Run(s, [Remove(Journal)]);
    SyncIsSafe(Safe, j, prior, next);
    SafeRunAppend(s, [Remove(Journal)], [SyncDir], prior, next);
    SafeRunAppend(u, [SyncDir], [Remove(Journal)] + [SyncDir], prior, next);
    SafeRunAppend(d, undo, [SyncDir] + ([Remove(Journal)] + [SyncDir]), prior, next);
    assert RollbackOps(prior.Some?, prior.None?) == undo + ([SyncDir] + ([Remove(Journal)] + [SyncDir]));
  }

  lemma RestoredIsSafe(dir: Dir, nodes: Nodes, n: nat, prior: Option<StoreImage>, next: StoreImage)
    requires In(Rollable, dir, nodes, prior, next) && prior.Some?
    requires n < |nodes| && nodes[n] == Node(Some(StoreText(prior.value)), true)
    ensures In(Safe, Apply(dir, Move(Backup, Target, n)), nodes, prior, next)
    ensures TargetIs(Apply(dir, Move(Backup, Target, n)), nodes, prior)
  {}

  lemma UndoneIsSafe(dir: Dir, nodes: Nodes, next: StoreImage)
    requires In(Rollable, dir, nodes, None, next)
    ensures In(Safe, dir - {Target}, nodes, None, next)
  {}

  lemma RestoreIsSafe(d: Disk<Text>, prior: Option<StoreImage>, next: StoreImage)
    requires AllIn(Rollable, d, prior, next) && prior.Some?
    ensures var e := Run(d, RESTORE);
            && SafeRun(d, RESTORE, prior, next)
            && AllIn(Safe, e, prior, next)
            && In(Safe, Live(e), e.nodes, prior, next)
            && TargetIs(Live(e), e.nodes, prior) && Backup !in Live(e)
  {
    hide SafeRun;
    hide Run;
    LiveIsImage(d.durable, d.pending);
    var n := LiveBackup(d, prior, next);
    AllSafe(Rollable, d, prior, next);
    RenamedIsLive(d, Backup, Target);
    var r := Exec(d, Rename(Backup, Target));
    forall dir | dir in ImagesOf(d) ensures In(Safe, Apply(dir, Move(Backup, Target, n)), d.nodes, prior, next) {
      RestoredIsSafe(dir, d.nodes, n, prior, next);
    }
    RestoredIsSafe(Live(d), d.nodes, n, prior, next);
    hide In;
    StableSync(r, prior);
    SafeOne(d, Rename(Backup, Target), prior, next);
    SafeOne(r, Sync(Target), prior, next);
    SafeRunAppend(d, [Rename(Backup, Target)], [Sync(Target)], prior, next);
    assert RESTORE == [Rename(Backup, Target)] + [Sync(Target)];
  }

  lemma LiveBackup(d: Disk<Text>, prior: Option<StoreImage>, next: StoreImage) returns (n: nat)
    requires In(Rollable, Live(d), d.nodes, prior, next) && prior.Some?
    ensures Backup in Live(d) && Live(d)[Backup] == n < |d.nodes|
    ensures d.nodes[n] == Node(Some(StoreText(prior.value)), true)
  {
    n := Live(d)[Backup];
  }

  lemma StableSync(d: Disk<Text>, store: Option<StoreImage>)
    requires TargetIs(Live(d), d.nodes, store) && store.Some?
    ensures Exec(d, Sync(Target)) == d
  {}

  lemma UndoIsSafe(d: Disk<Text>, next: StoreImage)
    requires AllIn(Rollable, d, None, next)
    ensures var e := Run(d, [Remove(Target)]);
            && SafeRun(d, [Remove(Target)], None, next)
            && AllIn(Safe, e, None, next)
            && In(Safe, Live(e), e.nodes, None, next)
            && TargetIs(Live(e), e.nodes, None) && Backup !in Live(e)
  {
    hide SafeRun;
    hide Run;
    LiveIsImage(d.durable, d.pending);
    assert In(Rollable, Live(d), d.nodes, None, next);
    UndoneIsSafe(Live(d), d.nodes, next);
    AllSafe(Rollable, d, None, next);
    RemovedIsLive(d, Target);
    var r := Exec(d, Remove(Target));
    forall dir | dir in ImagesOf(d) ensures In(Safe, dir - {Target}, d.nodes, None, next) {
      UndoneIsSafe(dir, d.nodes, next);
    }
    hide In;
    forall dir | dir in ImagesOf(r) ensures In(Safe, dir, r.nodes, None, next) {
      if dir !in ImagesOf(d) {
        var before :| before in ImagesOf(d) && dir == before - {Target};
      }
    }
    SafeOne(d, Remove(Target), None, next);
  }
}
