/** The checkpoint engine: snapshots before mutations, and undo as the inverse of a run of mutations. */
module Checkpoints {

  import opened Wrappers

  type Path = string

  /** A file: text that survives a read and a write; other bytes, which read as some lossy text; or a file that is
      too large or unreadable. */
  datatype File = TextFile(text: string) | LossyFile(text: string, bytes: nat) | OpaqueFile(bytes: nat)

  type Files = map<Path, File>

  datatype Snapshot = Snapshot(path: Path, existed: bool, content: Option<string>)

  datatype Checkpoint = Checkpoint(seqNo: int, snapshots: seq<Snapshot>)

  datatype UndoError = NothingToUndo | NotFound | RestoreFailed

  // ----- one snapshot, one restore -----

  function ReadContent(f: File): Option<string> {
    match f
    case TextFile(text) => Some(text)
    case LossyFile(text, _) => Some(text)
    case OpaqueFile(_) => None
  }

  function SnapshotOf(files: Files, path: Path): Snapshot {
    if path in files then Snapshot(path, true, ReadContent(files[path])) else Snapshot(path, false, None)
  }

  function SnapshotsOf(files: Files, paths: seq<Path>): seq<Snapshot> {
    seq(|paths|, i requires 0 <= i < |paths| => SnapshotOf(files, paths[i]))
  }

  function Restore(files: Files, snap: Snapshot): Files {
    if snap.existed && snap.content.Some? then files[snap.path := TextFile(snap.content.value)]
    else if !snap.existed then files - {snap.path}
    else files
  }

  function RestoreAll(files: Files, snaps: seq<Snapshot>): Files {
    if snaps == [] then files else Restore(RestoreAll(files, snaps[..|snaps| - 1]), snaps[|snaps| - 1])
  }

  // ----- the engine -----

  datatype Engine = Engine(files: Files, checkpoints: seq<Checkpoint>, nextSeq: int)

  /** A path outside of the workspace stops the snapshot, after its number was taken. */
  function SnapshotStep(maxCheckpoints: nat, e: Engine, paths: seq<Path>, inside: bool): Engine {
    if !inside then e.(nextSeq := e.nextSeq + 1)
    else
      var window := if |e.checkpoints| > 0 && |e.checkpoints| >= maxCheckpoints then e.checkpoints[1..] else e.checkpoints;
      e.(checkpoints := window + [Checkpoint(e.nextSeq, SnapshotsOf(e.files, paths))], nextSeq := e.nextSeq + 1)
  }

  function IndexOfSeq(checkpoints: seq<Checkpoint>, seqNo: int): (i: nat)
    ensures i <= |checkpoints| && (i < |checkpoints| ==> checkpoints[i].seqNo == seqNo)
    ensures forall j | 0 <= j < i :: checkpoints[j].seqNo != seqNo
  {
    if checkpoints == [] then 0 else if checkpoints[0].seqNo == seqNo then 0 else 1 + IndexOfSeq(checkpoints[1..], seqNo)
  }

  function TargetIndex(e: Engine, seqNo: Option<int>): nat {
    match seqNo
    case Some(n) => IndexOfSeq(e.checkpoints, n)
    case None => if e.checkpoints == [] then 0 else |e.checkpoints| - 1
  }

  /** Restore one checkpoint and drop it with all later ones; an I/O error stops in the middle and drops nothing. */
  function UndoStep(e: Engine, seqNo: Option<int>, failAt: Option<nat>): (Engine, Result<(), UndoError>) {
    if e.checkpoints == [] then (e, Err(NothingToUndo))
    else
      var i := TargetIndex(e, seqNo);
      if i >= |e.checkpoints| then (e, Err(NotFound))
      else
        var snaps := e.checkpoints[i].snapshots;
        if failAt.Some? && failAt.value < |snaps|
        then (e.(files := RestoreAll(e.files, snaps[..failAt.value])), Err(RestoreFailed))
        else (e.(files := RestoreAll(e.files, snaps), checkpoints := e.checkpoints[..i]), Ok(()))
  }

  // ----- undo inverts a mutation -----

  /** The file can be brought back from its snapshot. */
  predicate Restorable(files: Files, path: Path) {
    path in files ==> files[path].TextFile?
  }

  predicate SameAt(a: Files, b: Files, path: Path) {
    (path in a <==> path in b) && (path in a ==> a[path] == b[path])
  }

  ghost predicate OnlyTouches(before: Files, after: Files, paths: seq<Path>) {
    forall path | path !in paths :: SameAt(before, after, path)
  }

  lemma SameEverywhere(a: Files, b: Files)
    requires forall path :: SameAt(a, b, path)
    ensures a == b
  {
    forall path ensures path in a <==> path in b { assert SameAt(a, b, path); }
    forall path | path in a ensures a[path] == b[path] { assert SameAt(a, b, path); }
  }

  /** A restored snapshot brings back the file as it was, exactly when it was text or absent or did not change. */
  lemma RestoreOne(before: Files, after: Files, path: Path)
    ensures SameAt(Restore(after, SnapshotOf(before, path)), before, path)
       <==> Restorable(before, path) || (!Lossy(before, path) && SameAt(after, before, path))
    ensures forall other | other != path :: SameAt(Restore(after, SnapshotOf(before, path)), after, other)
  {}

  predicate Lossy(files: Files, path: Path) {
    path in files && files[path].LossyFile?
  }

  /** After the snapshots of the state before are restored, every snapshotted file is as before, and no other changed. */
  lemma {:induction false} RestoreAllAt(before: Files, after: Files, paths: seq<Path>, path: Path)
    requires forall p | p in paths :: Restorable(before, p)
    ensures var r := RestoreAll(after, SnapshotsOf(before, paths));
            if path in paths then SameAt(r, before, path) else SameAt(r, after, path)
    decreases |paths|
  {
    var snaps := SnapshotsOf(before, paths);
    if paths != [] {
      var n := |paths| - 1;
      var init, last := paths[..n], paths[n];
      assert snaps[..n] == SnapshotsOf(before, init);
      assert paths == init + [last];
      RestoreAllAt(before, after, init, path);
      RestoreOne(before, RestoreAll(after, snaps[..n]), last);
    }
  }

  /** One plain undo inverts one mutation that touched only snapshotted files. */
  lemma UndoInvertsOne(before: Files, after: Files, paths: seq<Path>)
    requires OnlyTouches(before, after, paths) && forall p | p in paths :: Restorable(before, p)
    ensures RestoreAll(after, SnapshotsOf(before, paths)) == before
  {
    var r := RestoreAll(after, SnapshotsOf(before, paths));
    forall path ensures SameAt(r, before, path) {
      RestoreAllAt(before, after, paths, path);
      if path !in paths { assert SameAt(before, after, path); }
    }
    SameEverywhere(r, before);
  }

  // ----- runs of mutations -----

  /** A history: the files before each mutation and at the end, and the paths that each mutation announced. */
  ghost predicate History(states: seq<Files>, paths: seq<seq<Path>>) {
    && |states| == |paths| + 1
    && forall i | 0 <= i < |paths| ::
         OnlyTouches(states[i], states[i + 1], paths[i]) && forall p | p in paths[i] :: Restorable(states[i], p)
  }

  /** The engine holds checkpoints of the last mutations of the history, at least one unless there were none. */
  predicate Remembers(e: Engine, states: seq<Files>, paths: seq<seq<Path>>, width: nat)
    requires |states| == |paths| + 1
  {
    && |e.checkpoints| == width <= |paths|
    && e.files == states[|paths|]
    && forall i | 0 <= i < width ::
         e.checkpoints[i].snapshots == SnapshotsOf(states[|paths| - width + i], paths[|paths| - width + i])
  }

  /** A mutation: a snapshot of the announced files, then any change to them. */
  lemma MutationIsRemembered(maxCheckpoints: nat, e: Engine, states: seq<Files>, paths: seq<seq<Path>>, width: nat,
                             announced: seq<Path>, after: Files)
    requires History(states, paths) && Remembers(e, states, paths, width)
    requires OnlyTouches(e.files, after, announced) && forall p | p in announced :: Restorable(e.files, p)
    ensures History(states + [after], paths + [announced])
    ensures var w := if width > 0 && width >= maxCheckpoints then width else width + 1;
            Remembers(SnapshotStep(maxCheckpoints, e, announced, true).(files := after), states + [after], paths + [announced], w)
  {
    var longer, all := states + [after], paths + [announced];
    forall i | 0 <= i < |all|
      ensures OnlyTouches(longer[i], longer[i + 1], all[i]) && forall p | p in all[i] :: Restorable(longer[i], p)
    {
      if i < |paths| { assert longer[i] == states[i] && longer[i + 1] == states[i + 1] && all[i] == paths[i]; }
    }
  }

  /** A plain undo goes back by one mutation. */
  lemma UndoGoesBack(e: Engine, states: seq<Files>, paths: seq<seq<Path>>, width: nat)
    requires History(states, paths) && Remembers(e, states, paths, width) && width > 0
    ensures var (r, ok) := UndoStep(e, None, None);
            && ok == Ok(())
            && |states[..|paths|]| == |paths[..|paths| - 1]| + 1
            && History(states[..|paths|], paths[..|paths| - 1])
            && Remembers(r, states[..|paths|], paths[..|paths| - 1], width - 1)
  {
    var n := |paths| - 1;
    assert OnlyTouches(states[n], states[n + 1], paths[n]);
    UndoInvertsOne(states[n], states[n + 1], paths[n]);
    assert e.checkpoints[width - 1].snapshots == SnapshotsOf(states[n], paths[n]);
  }

  function UndoTimes(e: Engine, k: nat): Engine
    decreases k
  {
    if k == 0 then e else UndoTimes(UndoStep(e, None, None).0, k - 1)
  }

  /** Undo inverts a run: as many plain undos as there are checkpoints, or fewer, bring back the contents and the
      existence of all files as they were before that many last mutations. */
  lemma {:induction false} UndoInvertsRun(e: Engine, states: seq<Files>, paths: seq<seq<Path>>, width: nat, k: nat)
    requires History(states, paths) && Remembers(e, states, paths, width) && k <= width
    ensures UndoTimes(e, k).files == states[|paths| - k]
    decreases k
  {
    hide UndoStep;
    if k > 0 {
      UndoGoesBack(e, states, paths, width);
      UndoInvertsRun(UndoStep(e, None, None).0, states[..|paths|], paths[..|paths| - 1], width - 1, k - 1);
    }
  }

  /** The engine after a whole history: each mutation is announced to a snapshot first. */
  function AfterHistory(maxCheckpoints: nat, states: seq<Files>, paths: seq<seq<Path>>): Engine
    requires |states| == |paths| + 1
  {
    if paths == [] then Engine(states[0], [], 1)
    else
      var n := |paths| - 1;
      SnapshotStep(maxCheckpoints, AfterHistory(maxCheckpoints, states[..n + 1], paths[..n]), paths[n], true).(files := states[n + 1])
  }

  lemma {:induction false} HistoryIsRemembered(maxCheckpoints: nat, states: seq<Files>, paths: seq<seq<Path>>)
    requires History(states, paths) && maxCheckpoints > 0
    ensures Remembers(AfterHistory(maxCheckpoints, states, paths), states, paths, if |paths| < maxCheckpoints then |paths| else maxCheckpoints)
    decreases |paths|
  {
    hide SnapshotStep;
    if paths != [] {
      var n := |paths| - 1;
      var earlier, done := states[..n + 1], paths[..n];
      assert History(earlier, done);
      HistoryIsRemembered(maxCheckpoints, earlier, done);
      var e := AfterHistory(maxCheckpoints, earlier, done);
      assert OnlyTouches(states[n], states[n + 1], paths[n]);
      MutationIsRemembered(maxCheckpoints, e, earlier, done, if n < maxCheckpoints then n else maxCheckpoints, paths[n], states[n + 1]);
      assert earlier + [states[n + 1]] == states && done + [paths[n]] == paths;
    }
  }

  /** Undo inverts a history: after any number of announced mutations of text files, as many plain undos as the
      window holds, or fewer, bring back exactly the files before that many last mutations. */
  lemma UndoInvertsHistory(maxCheckpoints: nat, states: seq<Files>, paths: seq<seq<Path>>, k: nat)
    requires History(states, paths) && maxCheckpoints > 0 && k <= |paths| && k <= maxCheckpoints
    ensures UndoTimes(AfterHistory(maxCheckpoints, states, paths), k).files == states[|paths| - k]
  {
    HistoryIsRemembered(maxCheckpoints, states, paths);
    UndoInvertsRun(AfterHistory(maxCheckpoints, states, paths), states, paths,
                   if |paths| < maxCheckpoints then |paths| else maxCheckpoints, k);
  }

  /** Undoing to an older checkpoint restores its files only: the result is the state before that mutation if and
      only if no other file has changed since. */
  lemma UndoToIsExact(e: Engine, states: seq<Files>, paths: seq<seq<Path>>, width: nat, i: nat)
    requires History(states, paths) && Remembers(e, states, paths, width) && i < width
    requires forall j | 0 <= j < i :: e.checkpoints[j].seqNo != e.checkpoints[i].seqNo
    ensures var m := |paths| - width + i;
            UndoStep(e, Some(e.checkpoints[i].seqNo), None).0.files == states[m] <==> OnlyTouches(states[m], e.files, paths[m])
  {
    var m := |paths| - width + i;
    assert IndexOfSeq(e.checkpoints, e.checkpoints[i].seqNo) == i;
    var r := RestoreAll(e.files, SnapshotsOf(states[m], paths[m]));
    assert UndoStep(e, Some(e.checkpoints[i].seqNo), None).0.files == r;
    assert forall p | p in paths[m] :: Restorable(states[m], p);
    if OnlyTouches(states[m], e.files, paths[m]) {
      UndoInvertsOne(states[m], e.files, paths[m]);
    }
    if r == states[m] {
      forall path | path !in paths[m] ensures SameAt(states[m], e.files, path) {
        RestoreAllAt(states[m], e.files, paths[m], path);
      }
    }
  }

  // ----- sequence numbers -----

  /** The numbers of the checkpoints increase, and the next one is beyond them. */
  predicate SeqsIncrease(e: Engine) {
    && (forall i, j | 0 <= i < j < |e.checkpoints| :: e.checkpoints[i].seqNo < e.checkpoints[j].seqNo)
    && forall i | 0 <= i < |e.checkpoints| :: e.checkpoints[i].seqNo < e.nextSeq
  }

  /** Whatever is snapshotted or refused, the numbers stay increasing and are never reused. */
  lemma SnapshotsNumberOn(maxCheckpoints: nat, e: Engine, paths: seq<Path>, inside: bool)
    requires SeqsIncrease(e)
    ensures var r := SnapshotStep(maxCheckpoints, e, paths, inside);
            SeqsIncrease(r) && r.nextSeq > e.nextSeq
  {
    hide SnapshotsOf;
  }

  lemma UndoKeepsNumbers(e: Engine, seqNo: Option<int>, failAt: Option<nat>)
    requires SeqsIncrease(e)
    ensures var (r, _) := UndoStep(e, seqNo, failAt);
            SeqsIncrease(r) && r.nextSeq == e.nextSeq && r.checkpoints <= e.checkpoints
  {
    hide RestoreAll;
  }

  // ----- what each operation does -----

  /** What a snapshot holds of a file: nothing of one that is absent, unreadable or too large, else its text. */
  predicate Records(files: Files, path: Path, snap: Snapshot) {
    && snap.path == path && (snap.existed <==> path in files)
    && (snap.content.Some? <==> path in files && !files[path].OpaqueFile?)
    && (snap.content.Some? ==> snap.content.value == files[path].text)
  }

  /** A snapshot inside of the workspace becomes the newest checkpoint, and the oldest one goes only when the window
      is full; a refused one uses up its number. */
  lemma SnapshotOutcome(maxCheckpoints: nat, e: Engine, paths: seq<Path>, inside: bool)
    ensures var r := SnapshotStep(maxCheckpoints, e, paths, inside);
            && r.files == e.files && r.nextSeq == e.nextSeq + 1
            && (!inside ==> r.checkpoints == e.checkpoints)
            && (inside ==>
                  var kept := if 0 < |e.checkpoints| && |e.checkpoints| >= maxCheckpoints then |e.checkpoints| - 1 else |e.checkpoints|;
                  && |r.checkpoints| == kept + 1 && r.checkpoints[..kept] == e.checkpoints[|e.checkpoints| - kept..]
                  && r.checkpoints[kept].seqNo == e.nextSeq && |r.checkpoints[kept].snapshots| == |paths|
                  && forall i | 0 <= i < |paths| :: Records(e.files, paths[i], r.checkpoints[kept].snapshots[i]))
  {
    var taken := SnapshotsOf(e.files, paths);
    forall i | 0 <= i < |paths| ensures Records(e.files, paths[i], taken[i]) {}
    hide SnapshotsOf;
    hide Records;
  }

  /** An undo fails without checkpoints, with an unknown number and when a file cannot be restored; otherwise it drops
      the checkpoint that it went back to, the newest unless a number is given, and all later ones. */
  lemma UndoOutcome(e: Engine, seqNo: Option<int>, failAt: Option<nat>, i: nat)
    requires SeqsIncrease(e) && i < |e.checkpoints|
    requires if seqNo.Some? then e.checkpoints[i].seqNo == seqNo.value else i == |e.checkpoints| - 1
    ensures var (after, r) := UndoStep(e, seqNo, failAt);
            var fails := failAt.Some? && failAt.value < |e.checkpoints[i].snapshots|;
            && r == (if fails then Err(RestoreFailed) else Ok(()))
            && after.checkpoints == (if fails then e.checkpoints else e.checkpoints[..i])
            && after.nextSeq == e.nextSeq
            && var restored := if fails then e.checkpoints[i].snapshots[..failAt.value] else e.checkpoints[i].snapshots;
               forall path :: FromSnapshots(e.files, after.files, path, restored)
  {
    assert IndexOfSeq(e.checkpoints, e.checkpoints[i].seqNo) == i;
    var snaps := e.checkpoints[i].snapshots;
    forall path ensures FromSnapshots(e.files, RestoreAll(e.files, snaps), path, snaps) {
      RestoredFrom(e.files, path, snaps);
    }
    if failAt.Some? && failAt.value < |snaps| {
      forall path ensures FromSnapshots(e.files, RestoreAll(e.files, snaps[..failAt.value]), path, snaps[..failAt.value]) {
        RestoredFrom(e.files, path, snaps[..failAt.value]);
      }
    }
  }

  lemma UndoRefuses(e: Engine, seqNo: Option<int>, failAt: Option<nat>)
    ensures UndoStep(e, seqNo, failAt).1 == Err(NothingToUndo) <==> e.checkpoints == []
    ensures UndoStep(e, seqNo, failAt).1 == Err(NotFound)
       <==> e.checkpoints != [] && seqNo.Some? && forall j | 0 <= j < |e.checkpoints| :: e.checkpoints[j].seqNo != seqNo.value
    ensures UndoStep(e, seqNo, failAt).1 in {Err(NothingToUndo), Err(NotFound)} ==> UndoStep(e, seqNo, failAt).0 == e
  {}

  /** The last snapshot of the path that says anything decides; without one the file is as it was. */
  predicate FromSnapshots(before: Files, after: Files, path: Path, snaps: seq<Snapshot>) {
    if snaps == [] then SameAt(before, after, path)
    else
      var last := snaps[|snaps| - 1];
      if last.path == path && !last.existed then path !in after
      else if last.path == path && last.content.Some? then path in after && after[path] == TextFile(last.content.value)
      else FromSnapshots(before, after, path, snaps[..|snaps| - 1])
  }

  lemma {:induction false} RestoredFrom(files: Files, path: Path, snaps: seq<Snapshot>)
    ensures FromSnapshots(files, RestoreAll(files, snaps), path, snaps)
    decreases |snaps|
  {
    if snaps != [] {
      var init, last := snaps[..|snaps| - 1], snaps[|snaps| - 1];
      RestoredFrom(files, path, init);
      if last.path != path || (last.existed && last.content.None?) {
        SameFrom(files, RestoreAll(files, init), RestoreAll(files, snaps), path, init);
      }
    }
  }

  lemma {:induction false} SameFrom(before: Files, x: Files, y: Files, path: Path, snaps: seq<Snapshot>)
    requires FromSnapshots(before, x, path, snaps) && SameAt(x, y, path)
    ensures FromSnapshots(before, y, path, snaps)
    decreases |snaps|
  {
    if snaps != [] && FromSnapshots(before, x, path, snaps[..|snaps| - 1]) {
      SameFrom(before, x, y, path, snaps[..|snaps| - 1]);
    }
  }

  // ----- the object -----

  class DshCheckpointEngine {
    const maxCheckpoints: nat
    var files: Files
    var checkpoints: seq<Checkpoint>
    var nextSeq: int

    function View(): Engine
      reads this
    {
      Engine(files, checkpoints, nextSeq)
    }

    constructor (maxCheckpoints: nat, files: Files)
      ensures this.maxCheckpoints == maxCheckpoints && View() == Engine(files, [], 1) && SeqsIncrease(View())
    {
      this.maxCheckpoints, this.files := maxCheckpoints, files;
      checkpoints, nextSeq := [], 1;
    }

    /** Snapshot the files before a tool changes them; false when a path leaves the workspace. */
    method TakeSnapshot(paths: seq<Path>, insideWorkspace: Path -> bool) returns (ok: bool)
      modifies this`checkpoints, this`nextSeq
      ensures ok == forall i | 0 <= i < |paths| :: insideWorkspace(paths[i])
      ensures View() == SnapshotStep(maxCheckpoints, old(View()), paths, ok)
    {
      var seqNo := nextSeq;
      nextSeq := nextSeq + 1;
      var snapshots: seq<Snapshot> := [];
      for i := 0 to |paths|
        invariant |snapshots| == i && forall j | 0 <= j < i :: snapshots[j] == SnapshotOf(files, paths[j]) && insideWorkspace(paths[j])
      {
        if !insideWorkspace(paths[i]) { return false; }
        snapshots := snapshots + [SnapshotOf(files, paths[i])];
      }
      assert snapshots == SnapshotsOf(files, paths);
      if |checkpoints| > 0 && |checkpoints| >= maxCheckpoints {
        checkpoints := checkpoints[1..];
      }
      checkpoints := checkpoints + [Checkpoint(seqNo, snapshots)];
      return true;
    }

    method Undo(seqNo: Option<int>, failAt: Option<nat>) returns (r: Result<(), UndoError>)
      modifies this`files, this`checkpoints
      ensures (View(), r) == UndoStep(old(View()), seqNo, failAt)
    {
      if checkpoints == [] { return Err(NothingToUndo); }
      var target := TargetIndex(View(), seqNo);
      if target >= |checkpoints| { return Err(NotFound); }
      var snaps := checkpoints[target].snapshots;
      for i := 0 to |snaps|
        invariant files == RestoreAll(old(files), snaps[..i]) && checkpoints == old(checkpoints)
        invariant failAt.Some? ==> i <= failAt.value
      {
        if failAt == Some(i) { return Err(RestoreFailed); }
        assert snaps[..i + 1][..i] == snaps[..i];
        files := Restore(files, snaps[i]);
      }
      assert snaps[..|snaps|] == snaps;
      checkpoints := checkpoints[..target];
      return Ok(());
    }
  }
}
