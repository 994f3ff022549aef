/** Every directory that a power loss can leave behind during a commit is safe: it resolves to the store
    before the commit or to the store after it. The phases say what holds of one such directory between two stages
    of the commit, and which directory operations keep it. */
module TrustJournalSafety {

  import opened Wrappers
  import opened DurableDisk
  import opened StoreFiles
  import opened TrustJournal

  /** The points of a commit that matter to recovery. */
  datatype Phase = Idle | BackedUp | Journaled | Prepared | Marked | Committed | Rollable | Safe

  predicate TextAt(dir: Dir, nodes: Nodes, name: Name, text: Text) {
    name in dir && dir[name] < |nodes| && nodes[dir[name]] == Node(Some(text), true)
  }

  predicate TargetIs(dir: Dir, nodes: Nodes, store: Option<StoreImage>) {
    if store.Some? then TextAt(dir, nodes, Target, StoreText(store.value)) else Target !in dir
  }

  predicate BackupIs(dir: Dir, nodes: Nodes, store: Option<StoreImage>) {
    if store.Some? then TextAt(dir, nodes, Backup, StoreText(store.value)) else Backup !in dir
  }

  /** The backup is a file of its own, beside a target. */
  predicate Apart(dir: Dir, nodes: Nodes) {
    Backup in dir ==> Target in dir && dir[Backup] < |nodes| && dir[Backup] != dir[Target]
  }

  predicate MarkerAt(dir: Dir, nodes: Nodes) {
    TextAt(dir, nodes, Journal, JournalText(true, true)) || TextAt(dir, nodes, Journal, JournalText(true, false))
  }

  predicate OldOrNew(dir: Dir, nodes: Nodes, prior: Option<StoreImage>, next: StoreImage) {
    TargetIs(dir, nodes, prior) || TargetIs(dir, nodes, Some(next))
  }

  /** A journal entry whose text is the expected COMMITTING text, or unreadable. */
  predicate OpenJournalAt(dir: Dir, nodes: Nodes, prior: Option<StoreImage>) {
    && Journal in dir && dir[Journal] < |nodes|
    && nodes[dir[Journal]].content in {None, Some(JournalText(false, prior.Some?))} && nodes[dir[Journal]].former.None?
  }

  /** A journal that asks for nothing that is not there already: a marker, or an open one where there is no store. */
  predicate HarmlessJournal(dir: Dir, nodes: Nodes, prior: Option<StoreImage>) {
    Journal in dir ==> MarkerAt(dir, nodes) || (prior.None? && OpenJournalAt(dir, nodes, prior))
  }

  /** Between two commits: the target is current and no journal asks for a rollback. */
  predicate IdleAt(dir: Dir, nodes: Nodes, prior: Option<StoreImage>) {
    && Apart(dir, nodes)
    && TargetIs(dir, nodes, prior)
    && HarmlessJournal(dir, nodes, prior)
  }

  /** What holds of one possible directory in a phase of the commit from prior to next. */
  predicate In(phase: Phase, dir: Dir, nodes: Nodes, prior: Option<StoreImage>, next: StoreImage) {
    Apart(dir, nodes) &&
    match phase
    case Idle =>
      IdleAt(dir, nodes, prior)
    case BackedUp =>
      && IdleAt(dir, nodes, prior)
      && (Backup in dir ==> BackupIs(dir, nodes, prior))
    case Journaled =>
      && TargetIs(dir, nodes, prior)
      && (Backup in dir ==> prior.Some? && BackupIs(dir, nodes, prior))
      && (Journal in dir ==> MarkerAt(dir, nodes) || OpenJournalAt(dir, nodes, prior))
    case Prepared =>
      && OldOrNew(dir, nodes, prior, next)
      && BackupIs(dir, nodes, prior)
      && TextAt(dir, nodes, Journal, JournalText(false, prior.Some?))
    case Marked =>
      && TargetIs(dir, nodes, Some(next))
      && BackupIs(dir, nodes, prior)
      && exists c :: TextAt(dir, nodes, Journal, JournalText(c, prior.Some?))
    case Committed =>
      && TargetIs(dir, nodes, Some(next))
      && (Journal in dir ==> MarkerAt(dir, nodes))
    case Rollable =>
      && OldOrNew(dir, nodes, prior, next)
      && BackupIs(dir, nodes, prior)
      && exists c :: TextAt(dir, nodes, Journal, JournalText(c, prior.Some?))
    case Safe =>
      && OldOrNew(dir, nodes, prior, next)
      && (Journal in dir && !MarkerAt(dir, nodes) ==>
            && OpenJournalAt(dir, nodes, prior)
            && (Backup in dir ==> prior.Some? && BackupIs(dir, nodes, prior))
            && (Backup !in dir ==>
                  || TargetIs(dir, nodes, prior)
                  || (prior.None? && TextAt(dir, nodes, Journal, JournalText(false, false)))))
  }

  ghost predicate AllIn(phase: Phase, d: Disk<Text>, prior: Option<StoreImage>, next: StoreImage) {
    forall dir | dir in ImagesOf(d) :: In(phase, dir, d.nodes, prior, next)
  }

  lemma EveryPhaseIsSafe(phase: Phase, dir: Dir, nodes: Nodes, prior: Option<StoreImage>, next: StoreImage)
    requires In(phase, dir, nodes, prior, next)
    ensures In(Safe, dir, nodes, prior, next)
  {}

  lemma AllSafe(phase: Phase, d: Disk<Text>, prior: Option<StoreImage>, next: StoreImage)
    requires AllIn(phase, d, prior, next)
    ensures AllIn(Safe, d, prior, next)
  {
    forall dir | dir in ImagesOf(d) ensures In(Safe, dir, d.nodes, prior, next) {
      EveryPhaseIsSafe(phase, dir, d.nodes, prior, next);
    }
  }

  // ----- runs that are safe at every point -----

  ghost predicate SafeRun(d: Disk<Text>, ops: seq<Op<Text>>, prior: Option<StoreImage>, next: StoreImage)
    decreases |ops|
  {
    AllIn(Safe, d, prior, next) && (ops != [] ==> SafeRun(Exec(d, ops[0]), ops[1..], prior, next))
  }

  lemma {:induction false} SafeRunAppend(d: Disk<Text>, a: seq<Op<Text>>, b: seq<Op<Text>>, prior: Option<StoreImage>, next: StoreImage)
    requires SafeRun(d, a, prior, next) && SafeRun(Run(d, a), b, prior, next)
    ensures SafeRun(d, a + b, prior, next)
    ensures Run(d, a + b) == Run(Run(d, a), b)
    decreases |a|
  {
    RunAppend(d, a, b);
    if a == [] {
      assert a + b == b;
    } else {
      assert (a + b)[1..] == a[1..] + b;
      SafeRunAppend(Exec(d, a[0]), a[1..], b, prior, next);
    }
  }

  lemma {:induction false} SafePrefix(d: Disk<Text>, ops: seq<Op<Text>>, k: nat, prior: Option<StoreImage>, next: StoreImage)
    requires SafeRun(d, ops, prior, next) && k <= |ops|
    ensures SafeRun(d, ops[..k], prior, next)
    ensures AllIn(Safe, Run(d, ops[..k]), prior, next)
    decreases k
  {
    if k > 0 {
      assert ops[..k][1..] == ops[1..][..k - 1];
      SafePrefix(Exec(d, ops[0]), ops[1..], k - 1, prior, next);
    }
  }

  lemma SafeOne(d: Disk<Text>, op: Op<Text>, prior: Option<StoreImage>, next: StoreImage)
    requires AllIn(Safe, d, prior, next) && AllIn(Safe, Exec(d, op), prior, next)
    ensures SafeRun(d, [op], prior, next) && Run(d, [op]) == Exec(d, op)
  {
    assert [op][1..] == [];
    assert SafeRun(Exec(d, op), [], prior, next);
  }

  // ----- one directory change -----

  /** The disk after a new file was linked under a name and got some content. */
  function WithFile(d: Disk<Text>, name: Name, node: Node<Text>): Disk<Text> {
    d.(pending := d.pending + [Link(name, |d.nodes|)], nodes := d.nodes + [node])
  }

  lemma FileIsLive(d: Disk<Text>, name: Name, node: Node<Text>)
    ensures Live(WithFile(d, name, node)) == Live(d)[name := |d.nodes|]
    ensures Holds(WithFile(d, name, node), name)
    ensures NodeOf(WithFile(d, name, node), name) == node
  {
    PendingSnoc(d.durable, d.pending, Link(name, |d.nodes|));
  }

  /** Writing a new file is three operations whose only effect is on the new node. */
  lemma NewFile(d: Disk<Text>, name: Name, text: Text)
    requires name !in Live(d)
    ensures var w := WriteOps(name, text);
            && Exec(d, w[0]) == WithFile(d, name, Node(None, false))
            && Exec(WithFile(d, name, Node(None, false)), w[1]) == WithFile(d, name, Node(Some(text), false))
            && Exec(WithFile(d, name, Node(Some(text), false)), w[2]) == WithFile(d, name, Node(Some(text), true))
  {
    FileIsLive(d, name, Node(None, false));
    FileIsLive(d, name, Node(Some(text), false));
    var n := |d.nodes|;
    assert (d.nodes + [Node(None, false)])[n := Node(Some(text), false)] == d.nodes + [Node(Some(text), false)];
    assert (d.nodes + [Node(Some(text), false)])[n := Node(Some(text), true)] == d.nodes + [Node(Some(text), true)];
  }

  lemma RenamedIsLive(d: Disk<Text>, from: Name, to: Name)
    requires from in Live(d)
    ensures Live(Exec(d, Rename(from, to))) == Apply(Live(d), Move(from, to, Live(d)[from]))
    ensures ImagesOf(Exec(d, Rename(from, to)))
         == ImagesOf(d) + set dir | dir in ImagesOf(d) :: Apply(dir, Move(from, to, Live(d)[from]))
  {
    PendingSnoc(d.durable, d.pending, Move(from, to, Live(d)[from]));
  }

  lemma RemovedIsLive(d: Disk<Text>, name: Name)
    ensures Live(Exec(d, Remove(name))) == Live(d) - {name}
    ensures forall dir | dir in ImagesOf(Exec(d, Remove(name))) ::
              dir in ImagesOf(d) || exists before | before in ImagesOf(d) :: dir == before - {name}
  {
    PendingSnoc(d.durable, d.pending, Unlink(name));
    assert Live(d) - {name} == if name in Live(d) then Apply(Live(d), Unlink(name)) else Live(d);
  }

  lemma SyncedIsLive(d: Disk<Text>)
    ensures var e := Exec(d, SyncDir);
            Live(e) == Live(d) && ImagesOf(e) == {Live(d)} && Live(d) in ImagesOf(d) && e.pending == []
  {
    LiveIsImage(d.durable, d.pending);
  }

  lemma SyncKeeps(phase: Phase, d: Disk<Text>, prior: Option<StoreImage>, next: StoreImage)
    requires In(phase, Live(d), d.nodes, prior, next)
    ensures AllIn(phase, Exec(d, SyncDir), prior, next)
  {
    SyncedIsLive(d);
  }

  // ----- temporary files do not matter -----

  lemma TmpIsInvisible(phase: Phase, dir: Dir, nodes: Nodes, t: nat, n: nat, node: Node<Text>,
                       prior: Option<StoreImage>, next: StoreImage)
    requires In(phase, dir, nodes, prior, next) && phase != Idle
    ensures In(phase, dir, nodes + [node], prior, next)
    ensures In(phase, dir[Tmp(t) := n], nodes + [node], prior, next)
    ensures In(phase, dir - {Tmp(t)}, nodes, prior, next)
  {}

  lemma TmpFileKeeps(phase: Phase, d: Disk<Text>, t: nat, node: Node<Text>, prior: Option<StoreImage>, next: StoreImage)
    requires AllIn(phase, d, prior, next) && phase != Idle
    ensures AllIn(phase, WithFile(d, Tmp(t), node), prior, next)
  {
    hide In;
    var n := |d.nodes|;
    PendingSnoc(d.durable, d.pending, Link(Tmp(t), n));
    forall dir | dir in ImagesOf(d)
      ensures In(phase, dir, d.nodes + [node], prior, next)
      ensures In(phase, dir[Tmp(t) := n], d.nodes + [node], prior, next)
    {
      TmpIsInvisible(phase, dir, d.nodes, t, n, node, prior, next);
    }
  }

  lemma TmpRemovalKeeps(phase: Phase, d: Disk<Text>, t: nat, prior: Option<StoreImage>, next: StoreImage)
    requires AllIn(phase, d, prior, next) && phase != Idle
    ensures AllIn(phase, Exec(d, Remove(Tmp(t))), prior, next)
  {
    hide In;
    var e := Exec(d, Remove(Tmp(t)));
    RemovedIsLive(d, Tmp(t));
    forall dir | dir in ImagesOf(e) ensures In(phase, dir, e.nodes, prior, next) {
      if dir !in ImagesOf(d) {
        var before :| before in ImagesOf(d) && dir == before - {Tmp(t)};
        TmpIsInvisible(phase, before, d.nodes, t, 0, Node(None, false), prior, next);
      }
    }
  }

  /** Writing a temporary file keeps the phase at each of its operations, however many were done. */
  lemma WriteTmpKeeps(phase: Phase, d: Disk<Text>, t: nat, text: Text, done: nat, prior: Option<StoreImage>, next: StoreImage)
    requires AllIn(phase, d, prior, next) && phase != Idle && Tmp(t) !in Live(d)
    ensures var ops := Take(WriteOps(Tmp(t), text), done);
            && SafeRun(d, ops, prior, next)
            && AllIn(phase, Run(d, ops), prior, next)
            && Run(d, ops) == (if done == 0 then d
                               else WithFile(d, Tmp(t), if done == 1 then Node(None, false) else Node(Some(text), done > 2)))
  {
    hide In;
    hide AllIn;
    hide Exec;
    NewFile(d, Tmp(t), text);
    var w := WriteOps(Tmp(t), text);
    var d1 := WithFile(d, Tmp(t), Node(None, false));
    var d2 := WithFile(d, Tmp(t), Node(Some(text), false));
    var d3 := WithFile(d, Tmp(t), Node(Some(text), true));
    TmpFileKeeps(phase, d, t, Node(None, false), prior, next);
    TmpFileKeeps(phase, d, t, Node(Some(text), false), prior, next);
    TmpFileKeeps(phase, d, t, Node(Some(text), true), prior, next);
    AllSafe(phase, d, prior, next);
    AllSafe(phase, d1, prior, next);
    AllSafe(phase, d2, prior, next);
    AllSafe(phase, d3, prior, next);
    WriteRun(d, d1, d2, d3, w, prior, next);
    if done < 3 {
      SafePrefix(d, w, done, prior, next);
    }
  }

  /** The four disks along a run of three operations. */
  lemma WriteRun(d: Disk<Text>, d1: Disk<Text>, d2: Disk<Text>, d3: Disk<Text>, w: seq<Op<Text>>,
                 prior: Option<StoreImage>, next: StoreImage)
    requires |w| == 3 && d1 == Exec(d, w[0]) && d2 == Exec(d1, w[1]) && d3 == Exec(d2, w[2])
    requires AllIn(Safe, d, prior, next) && AllIn(Safe, d1, prior, next)
    requires AllIn(Safe, d2, prior, next) && AllIn(Safe, d3, prior, next)
    ensures SafeRun(d, w, prior, next)
    ensures Run(d, w[..0]) == d && Run(d, w[..1]) == d1 && Run(d, w[..2]) == d2 && Run(d, w) == d3
  {
    hide AllIn;
    hide Exec;
    SafeOne(d, w[0], prior, next);
    SafeOne(d1, w[1], prior, next);
    SafeOne(d2, w[2], prior, next);
    SafeRunAppend(d, [w[0]], [w[1]], prior, next);
    SafeRunAppend(d, [w[0]] + [w[1]], [w[2]], prior, next);
    assert w[..1] == [w[0]] && w[..2] == [w[0]] + [w[1]] && w == [w[0]] + [w[1]] + [w[2]];
  }
}
