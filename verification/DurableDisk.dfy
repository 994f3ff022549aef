/** One directory of a POSIX file system as a crash sees it: names become durable when the directory is
    synced, file contents when the file is synced, and a crash keeps any subset of the rest. */
module DurableDisk {

  import opened Wrappers

  datatype Name = Target | Journal | Backup | Tmp(id: nat)

  type Dir = map<Name, nat>

  /** A change of the directory that the next directory sync makes durable. */
  datatype DirOp = Link(name: Name, node: nat) | Unlink(name: Name) | Move(from: Name, to: Name, node: nat)

  /** The content of a file; None stands for an empty, partial or otherwise unreadable text. A file that was overwritten
      and not synced since still has its former content to fall back to. */
  datatype FileNode<T> = Node(content: Option<T>, stable: bool, former: Option<T> := None)

  type Node<T> = n: FileNode<T> | n.stable ==> n.former.None? witness Node(None, true)

  datatype Disk<T> = Disk(durable: Dir, pending: seq<DirOp>, nodes: seq<Node<T>>)

  /** The file operations of the stores. */
  datatype Op<T> =
    | Create(name: Name)
    | Overwrite(name: Name)
    | Put(name: Name, text: T)
    | Sync(name: Name)
    | Rename(from: Name, to: Name)
    | Remove(name: Name)
    | SyncDir

  function Apply(dir: Dir, op: DirOp): Dir {
    match op
    case Link(name, node) => dir[name := node]
    case Unlink(name) => dir - {name}
    case Move(from, to, node) => (dir - {from})[to := node]
  }

  function ApplyAll(dir: Dir, ops: seq<DirOp>): Dir {
    if ops == [] then dir else Apply(ApplyAll(dir, ops[..|ops| - 1]), ops[|ops| - 1])
  }

  /** The directories that a crash can leave behind: each pending change is either kept or lost. */
  function Images(dir: Dir, ops: seq<DirOp>): set<Dir> {
    if ops == [] then {dir}
    else
      var earlier := Images(dir, ops[..|ops| - 1]);
      earlier + set image | image in earlier :: Apply(image, ops[|ops| - 1])
  }

  /** The directory as the running process sees it. */
  function Live<T>(d: Disk<T>): Dir {
    ApplyAll(d.durable, d.pending)
  }

  function ImagesOf<T>(d: Disk<T>): set<Dir> {
    Images(d.durable, d.pending)
  }

  predicate Holds<T>(d: Disk<T>, name: Name) {
    name in Live(d) && Live(d)[name] < |d.nodes|
  }

  function NodeOf<T>(d: Disk<T>, name: Name): Node<T>
    requires Holds(d, name)
  {
    d.nodes[Live(d)[name]]
  }

  function SetNode<T>(d: Disk<T>, name: Name, node: Node<T>): Disk<T>
    requires Holds(d, name)
  {
    d.(nodes := d.nodes[Live(d)[name] := node])
  }

  /** What the disk still holds of a file before it is overwritten. */
  function Kept<T>(node: Node<T>): Option<T> {
    if node.stable then node.content else node.former
  }

  /** An exclusive creation: a new empty file, unless the name is taken. */
  function CreateFile<T>(d: Disk<T>, name: Name): Disk<T> {
    if name in Live(d) then d
    else d.(nodes := d.nodes + [Node(None, false)], pending := d.pending + [Link(name, |d.nodes|)])
  }

  function Exec<T>(d: Disk<T>, op: Op<T>): Disk<T> {
    match op
    case Create(name) => CreateFile(d, name)
    case Overwrite(name) =>
      if Holds(d, name) then SetNode(d, name, Node(None, false, Kept(NodeOf(d, name)))) else CreateFile(d, name)
    case Put(name, text) =>
      if Holds(d, name) then SetNode(d, name, Node(Some(text), false, NodeOf(d, name).former)) else d
    case Sync(name) =>
      if Holds(d, name) then SetNode(d, name, Node(NodeOf(d, name).content, true)) else d
    case Rename(from, to) =>
      if from in Live(d) then d.(pending := d.pending + [Move(from, to, Live(d)[from])]) else d
    case Remove(name) =>
      if name in Live(d) then d.(pending := d.pending + [Unlink(name)]) else d
    case SyncDir => d.(durable := Live(d), pending := [])
  }

  function Run<T>(d: Disk<T>, ops: seq<Op<T>>): Disk<T>
    decreases |ops|
  {
    if ops == [] then d else Run(Exec(d, ops[0]), ops[1..])
  }

  /** A power loss: any subset of the pending directory changes is lost, and an unsynced file
      holds its new content, its former one, or nothing readable. */
  ghost predicate Crashed<T(!new)>(d: Disk<T>, s: Disk<T>) {
    && s.durable in ImagesOf(d)
    && s.pending == []
    && |s.nodes| == |d.nodes|
    && forall i | 0 <= i < |d.nodes| :: SurvivesAs(d.nodes[i], s.nodes[i])
  }

  predicate SurvivesAs<T(==)>(before: Node<T>, after: Node<T>) {
    && after.stable
    && (after.content == before.content || (!before.stable && after.content in {None, before.former}))
  }

  // ----- algebra of runs and images -----

  lemma {:induction false} RunAppend<T>(d: Disk<T>, a: seq<Op<T>>, b: seq<Op<T>>)
    ensures Run(d, a + b) == Run(Run(d, a), b)
    decreases |a|
  {
    if a == [] {
      assert a + b == b;
    } else {
      assert (a + b)[1..] == a[1..] + b;
      RunAppend(Exec(d, a[0]), a[1..], b);
    }
  }

  lemma RunNone<T>(d: Disk<T>)
    ensures Run(d, []) == d
  {}

  lemma RunOne<T>(d: Disk<T>, op: Op<T>)
    ensures Run(d, [op]) == Exec(d, op)
  {
    assert [op][1..] == [];
  }

  lemma RunThree<T>(d: Disk<T>, ops: seq<Op<T>>)
    requires |ops| == 3
    ensures Run(d, ops) == Exec(Exec(Exec(d, ops[0]), ops[1]), ops[2])
  {
    hide Exec;
    RunOne(d, ops[0]);
    RunOne(Exec(d, ops[0]), ops[1]);
    RunOne(Exec(Exec(d, ops[0]), ops[1]), ops[2]);
    RunAppend(d, [ops[0]], [ops[1]]);
    RunAppend(d, [ops[0]] + [ops[1]], [ops[2]]);
    assert ops == [ops[0]] + [ops[1]] + [ops[2]];
  }

  lemma PendingSnoc(dir: Dir, ops: seq<DirOp>, op: DirOp)
    ensures ApplyAll(dir, ops + [op]) == Apply(ApplyAll(dir, ops), op)
    ensures Images(dir, ops + [op]) == Images(dir, ops) + set image | image in Images(dir, ops) :: Apply(image, op)
  {
    assert (ops + [op])[..|ops|] == ops;
  }

  lemma {:induction false} LiveIsImage(dir: Dir, ops: seq<DirOp>)
    ensures ApplyAll(dir, ops) in Images(dir, ops)
    ensures dir in Images(dir, ops)
  {
    if ops != [] { LiveIsImage(dir, ops[..|ops| - 1]); }
  }
}
