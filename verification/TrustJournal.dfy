/** The write-ahead-logged commit of the device trust store, its rollback and its startup recovery,
    as sequences of file operations that a power loss may cut anywhere. */
module TrustJournal {

  import opened Wrappers
  import opened DurableDisk
  import opened StoreFiles

  /** The two kinds of text that the store writes. */
  datatype Text = StoreText(image: StoreImage) | JournalText(committed: bool, hasPriorCommit: bool)

  type Nodes = seq<Node<Text>>

  /** What a name yields to a reader. */
  datatype Outcome = Missing | Found(image: StoreImage) | Broken

  // ----- the operations of one commit -----

  function BackupOps(prior: Option<StoreImage>): seq<Op<Text>> {
    if prior.Some? then [Overwrite(Backup), Put(Backup, StoreText(prior.value)), Sync(Backup)] else []
  }

  function JournalOps(prior: Option<StoreImage>): seq<Op<Text>> {
    WriteOps(Journal, JournalText(false, prior.Some?))
  }

  /** A new file, written and synced under a temporary or metadata name. */
  function WriteOps(name: Name, text: Text): (ops: seq<Op<Text>>)
    ensures |ops| == 3
  {
    [Create(name), Put(name, text), Sync(name)]
  }

  function TargetOps(next: StoreImage, tmp: nat): seq<Op<Text>> {
    WriteOps(Tmp(tmp), StoreText(next)) + [Rename(Tmp(tmp), Target)]
  }

  function MarkerOps(prior: Option<StoreImage>, tmp: nat): (ops: seq<Op<Text>>)
    ensures |ops| == 4
  {
    WriteOps(Tmp(tmp), JournalText(true, prior.Some?)) + [Rename(Tmp(tmp), Journal)]
  }

  /** What an error path removes while the target is still old. */
  const ABORT: seq<Op<Text>> := [Remove(Journal), Remove(Backup)]

  const RESTORE: seq<Op<Text>> := [Rename(Backup, Target), Sync(Target)]

  const CLEANUP: seq<Op<Text>> := [Remove(Backup), Remove(Journal)]

  /** The rollback that follows a failed commit barrier, for a journal that says hasPriorCommit. */
  function RollbackOps(restore: bool, undo: bool): seq<Op<Text>> {
    (if restore then RESTORE + [SyncDir]
     else if undo then [Remove(Target), SyncDir]
     else [])
    + [Remove(Journal), SyncDir]
  }

  /** The I/O error, if any, that a commit meets; numbers count the operations done before the error. */
  datatype Fault =
    | NoFault
    | PrepareSyncFault
    | TargetFault(done: nat)
    | CommitSyncFault(rolledBack: nat)
    | MarkerFault(done: nat, rolledBack: nat)
    | CleanupFault(done: nat)

  function Take<T>(s: seq<T>, n: nat): seq<T> {
    if n < |s| then s[..n] else s
  }

  function Prepare(prior: Option<StoreImage>): seq<Op<Text>> {
    BackupOps(prior) + JournalOps(prior)
  }

  /** The barrier after the preparation and the replacement of the target. */
  function Replace(next: StoreImage, tmp: nat): seq<Op<Text>> {
    [SyncDir] + TargetOps(next, tmp)
  }

  /** The barrier after the replacement and the transition of the journal. */
  function Mark(prior: Option<StoreImage>, tmp: nat): seq<Op<Text>> {
    [SyncDir] + MarkerOps(prior, tmp)
  }

  /** What follows the preparation, down to the error path that the fault selects. */
  function AfterPrepare(prior: Option<StoreImage>, next: StoreImage, t: nat, m: nat, fault: Fault): seq<Op<Text>> {
    var rollback := RollbackOps(prior.Some?, prior.None?);
    match fault
    case PrepareSyncFault => ABORT
    case TargetFault(done) =>
      [SyncDir] + Take(WriteOps(Tmp(t), StoreText(next)), done) + [Remove(Tmp(t))] + ABORT
    case CommitSyncFault(rolledBack) => Replace(next, t) + Take(rollback, rolledBack)
    case MarkerFault(done, rolledBack) =>
      Replace(next, t) + [SyncDir] + Take(MarkerOps(prior, m), done) + [Remove(Tmp(m))] + Take(rollback, rolledBack)
    case CleanupFault(done) => Committing(prior, next, t, m) + Take(CLEANUP, done)
    case NoFault => Committing(prior, next, t, m) + CLEANUP + [SyncDir]
  }

  /** From the preparation to the durable commit marker. */
  function Committing(prior: Option<StoreImage>, next: StoreImage, t: nat, m: nat): seq<Op<Text>> {
    Replace(next, t) + Mark(prior, m) + [SyncDir]
  }

  function CommitOps(prior: Option<StoreImage>, next: StoreImage, t: nat, m: nat, fault: Fault): seq<Op<Text>> {
    Prepare(prior) + AfterPrepare(prior, next, t, m, fault)
  }

  /** The commit found the journal of an earlier commit: its backup is written and removed again. */
  function RefusedOps(prior: Option<StoreImage>): seq<Op<Text>> {
    BackupOps(prior) + [Remove(Backup)]
  }

  // ----- recovery -----

  function OutcomeAt(dir: Dir, nodes: Nodes, name: Name): Outcome {
    if name !in dir then Missing
    else if dir[name] >= |nodes| then Broken
    else
      match nodes[dir[name]].content
      case Some(StoreText(image)) => Found(image)
      case _ => Broken
  }

  function JournalContent(dir: Dir, nodes: Nodes): Option<Text> {
    if Journal in dir && dir[Journal] < |nodes| then nodes[dir[Journal]].content else None
  }

  predicate SaysCommitted(dir: Dir, nodes: Nodes) {
    JournalContent(dir, nodes) in {Some(JournalText(true, false)), Some(JournalText(true, true))}
  }

  /** A journal that is parsed, is not a commit marker and denies a prior commit. */
  predicate SaysNoPrior(dir: Dir, nodes: Nodes) {
    JournalContent(dir, nodes) in {Some(JournalText(false, false)), Some(JournalText(true, false))}
  }

  /** The startup recovery, from what the process sees in the directory. */
  function RecoverOps(d: Disk<Text>): seq<Op<Text>> {
    var dir := Live(d);
    if Journal !in dir then []
    else if SaysCommitted(dir, d.nodes) then CLEANUP + [SyncDir]
    else RollbackOps(Backup in dir, SaysNoPrior(dir, d.nodes))
  }

  /** What recovery makes of a directory, said without its steps: the store that a restart loads. */
  function Resolve(dir: Dir, nodes: Nodes): Outcome {
    if Journal !in dir || SaysCommitted(dir, nodes) then OutcomeAt(dir, nodes, Target)
    else if Backup in dir then OutcomeAt(dir, nodes, Backup)
    else if SaysNoPrior(dir, nodes) then Missing
    else OutcomeAt(dir, nodes, Target)
  }

  function OutcomeOf(prior: Option<StoreImage>): Outcome {
    if prior.Some? then Found(prior.value) else Missing
  }
}
