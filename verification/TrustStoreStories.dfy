/** Whole runs of the device store file: commits with I/O errors, restarts, and power losses at any point of them. */
module TrustStoreStories {

  import opened Wrappers
  import opened DurableDisk
  import opened StoreFiles
  import opened TrustJournal
  import opened TrustJournalSafety
  import opened TrustJournalCommit
  import opened TrustJournalTheorems
  import opened TrustJournalRecovery
  import opened TrustStoreRuns
  import opened TrustStoreAftermath

  /** A commit that ends, with an error or without, and if it left its journal the commits that are then refused and the
      restart; a power loss during a commit or the refused ones; a power loss between two commits. Restarts follow a
      power loss, and each may be cut by another one. */
  datatype Episode =
    | Ended(next: StoreImage, t: nat, m: nat, fault: Fault, refused: nat)
    | PowerLoss(next: StoreImage, t: nat, m: nat, fault: Fault, refused: nat, k: nat, chain: seq<Disk<Text>>)
    | IdleLoss(chain: seq<Disk<Text>>)

  ghost predicate Possible(d: Disk<Text>, prior: Option<StoreImage>, e: Episode) {
    match e
    case Ended(_, t, m, _, _) => FreshNames(d, t, m)
    case PowerLoss(next, t, m, fault, refused, k, chain) =>
      && FreshNames(d, t, m)
      && k <= |EpisodeOps(prior, next, t, m, fault, refused)| && Restarts(chain)
      && Crashed(Run(d, EpisodeOps(prior, next, t, m, fault, refused)[..k]), chain[0])
    case IdleLoss(chain) => Restarts(chain) && Crashed(d, chain[0])
  }

  /** The commit, if there is one, gets through its first directory sync. */
  predicate PassesBarrier(prior: Option<StoreImage>, e: Episode) {
    match e
    case Ended(_, _, _, fault, _) => !fault.PrepareSyncFault?
    case PowerLoss(_, _, _, fault, _, k, _) => !fault.PrepareSyncFault? && k > |Prepare(prior)|
    case IdleLoss(_) => true
  }

  function AfterEpisode(d: Disk<Text>, prior: Option<StoreImage>, e: Episode): Disk<Text>
    requires !e.Ended? ==> |e.chain| > 0
  {
    match e
    case Ended(next, t, m, fault, refused) =>
      var ended := Run(d, EpisodeOps(prior, next, t, m, fault, refused));
      Run(ended, RecoverOps(ended))
    case PowerLoss(_, _, _, _, _, _, chain) => Recovered(chain)
    case IdleLoss(chain) => Recovered(chain)
  }

  /** Whether the next commit may rely on the disk, known from what happened. */
  predicate TidyAfter(prior: Option<StoreImage>, e: Episode) {
    e.Ended? ==> TidyEnd(prior, e.next, e.fault)
  }

  /** The stores that an episode may leave. */
  function Possibilities(prior: Option<StoreImage>, e: Episode): set<Option<StoreImage>> {
    match e
    case Ended(next, _, _, fault, _) =>
      if LeavesNoJournal(prior, fault) || Commits(fault) then {StoreAfter(prior, next, fault)} else {prior, Some(next)}
    case PowerLoss(next, t, m, fault, _, k, _) =>
      if Commits(fault) && k >= CommitPoint(prior, next, t, m) then {Some(next)} else {prior, Some(next)}
    case IdleLoss(_) => {prior}
  }

  /** A run: every episode starts from the disk that the previous one left. After an untidy commit, the next one
      gets through its first directory sync, or power is lost before it begins. */
  ghost predicate Story(disks: seq<Disk<Text>>, tidy: seq<bool>, episodes: seq<Episode>) {
    && |disks| == |tidy| == |episodes| + 1 && tidy[0]
    && forall i | 0 <= i < |episodes| ::
         && Possible(disks[i], Loaded(disks[i]), episodes[i])
         && (tidy[i] || PassesBarrier(Loaded(disks[i]), episodes[i]))
         && (!episodes[i].Ended? ==> |episodes[i].chain| > 0)
         && disks[i + 1] == AfterEpisode(disks[i], Loaded(disks[i]), episodes[i])
         && tidy[i + 1] == TidyAfter(Loaded(disks[i]), episodes[i])
  }

  // ----- one episode -----

  lemma SteadyIsSettled(e: Disk<Text>, x: Outcome)
    requires Steady(e, x) && e.pending == [] && !x.Broken?
    requires Journal !in Live(e) && OutcomeAt(Live(e), e.nodes, Target) == x
    ensures Settled(e, StoreOf(x)) && Clean(e, StoreOf(x))
  {
    hide Steady;
    hide Clean;
    hide Current;
    SteadyIsCurrent(e, x);
    forall s | Crashed(e, s)
      ensures Resolve(s.durable, s.nodes) == x && Recoverable(s) && Apart(s.durable, s.nodes)
    {
      SteadySurvives(e, s, x);
      assert SteadyAt(s.durable, s.nodes, x) by { assert Steady(s, x); NothingPending(s); }
      assert forall i | 0 <= i < |s.nodes| :: s.nodes[i].stable by { assert Crashed(e, s); }
    }
  }

  /** Any number of recoveries after a power loss, all but the last one cut short. */
  lemma LossIsSettled(chain: seq<Disk<Text>>, x: Outcome)
    requires Restarts(chain) && Recoverable(chain[0]) && Apart(chain[0].durable, chain[0].nodes)
    requires Resolve(chain[0].durable, chain[0].nodes) == x && !x.Broken?
    ensures Settled(Recovered(chain), StoreOf(x)) && Clean(Recovered(chain), StoreOf(x))
  {
    hide Run;
    hide RecoverOps;
    hide Steady;
    hide Resolve;
    RecoverableIsSteady(chain[0]);
    RestartsAreSteady(chain, x);
    RecoveryIsSteady(chain[|chain| - 1], x);
    SteadyIsSettled(Recovered(chain), x);
  }

  /** A power loss repairs what an untidy commit left. */
  lemma PowerLossRepairs(d: Disk<Text>, store: Option<StoreImage>, chain: seq<Disk<Text>>)
    requires Settled(d, store) && Restarts(chain) && Crashed(d, chain[0])
    ensures Settled(Recovered(chain), store) && Clean(Recovered(chain), store)
  {
    hide Resolve;
    hide Crashed;
    LossIsSettled(chain, OutcomeOf(store));
  }

  /** The store that a power loss during a commit or among the refused ones leaves. */
  lemma LossResolves(d: Disk<Text>, prior: Option<StoreImage>, e: Episode)
    requires e.PowerLoss? && Current(d, prior) && Possible(d, prior, e) && (Clean(d, prior) || PassesBarrier(prior, e))
    ensures var s := e.chain[0];
            Recoverable(s) && Apart(s.durable, s.nodes) && Resolve(s.durable, s.nodes) in {OutcomeOf(prior), Found(e.next)}
    ensures Commits(e.fault) && e.k >= CommitPoint(prior, e.next, e.t, e.m) ==> Resolve(e.chain[0].durable, e.chain[0].nodes) == Found(e.next)
  {
    hide Run;
    hide SafeRun;
    hide AllIn;
    hide Crashed;
    hide Resolve;
    hide Clean;
    hide CommitPoint;
    hide Current;
    hide LeavesNoJournal;
    var ops, s := CommitOps(prior, e.next, e.t, e.m, e.fault), e.chain[0];
    if e.k <= |ops| {
      assert EpisodeOps(prior, e.next, e.t, e.m, e.fault, e.refused)[..e.k] == ops[..e.k];
      if Clean(d, prior) {
        CommitIsSafe(d, prior, e.next, e.t, e.m, e.fault);
        SafePrefix(d, ops, e.k, prior, e.next);
      } else {
        BeyondBarrierIsSafe(d, prior, e.next, e.t, e.m, e.fault, e.k);
      }
      hide CommitOps;
      SafeResolves(Run(d, ops[..e.k]), s, prior, e.next);
      if Commits(e.fault) && e.k >= CommitPoint(prior, e.next, e.t, e.m) {
        CommittedIsDurable(d, prior, e.next, e.t, e.m, e.fault, e.k, s);
      }
    } else {
      hide CommitOps;
      LossAmongRefusals(d, prior, e.next, e.t, e.m, e.fault, e.refused, e.k, s);
    }
  }

  lemma LossDuringCommit(d: Disk<Text>, prior: Option<StoreImage>, e: Episode)
    requires e.PowerLoss? && Settled(d, prior) && Possible(d, prior, e) && (Clean(d, prior) || PassesBarrier(prior, e))
    ensures var r := Recovered(e.chain);
            exists store :: store in Possibilities(prior, e) && Settled(r, store) && Clean(r, store)
  {
    hide Run;
    hide CommitOps;
    hide Crashed;
    hide Resolve;
    hide Clean;
    hide CommitPoint;
    hide Current;
    LossResolves(d, prior, e);
    var x := Resolve(e.chain[0].durable, e.chain[0].nodes);
    hide Settled;
    LossIsSettled(e.chain, x);
    assert StoreOf(x) in Possibilities(prior, e);
  }

  lemma EndedEpisode(d: Disk<Text>, prior: Option<StoreImage>, e: Episode) returns (store: Option<StoreImage>)
    requires e.Ended? && Settled(d, prior) && Possible(d, prior, e) && (Clean(d, prior) || PassesBarrier(prior, e))
    ensures var r := AfterEpisode(d, prior, e);
            Settled(r, store) && (Clean(r, store) <==> TidyAfter(prior, e)) && store in Possibilities(prior, e)
  {
    hide Run;
    hide CommitOps;
    hide RecoverOps;
    hide Clean;
    hide Current;
    hide Crashed;
    hide Resolve;
    hide LeavesNoJournal;
    hide Tidy;
    if Commits(e.fault) && !LeavesNoJournal(prior, e.fault) {
      RefusedAndRestarted(d, prior, e.next, e.t, e.m, e.fault, e.refused);
      store := Some(e.next);
    } else {
      var ops := CommitOps(prior, e.next, e.t, e.m, e.fault);
      assert ops + [] == ops;
      store := EndedAndRestarted(d, prior, e.next, e.t, e.m, e.fault);
    }
  }

  /** After every episode, each power loss leaves one of the possible stores; the disk is clean exactly when the
      episode was tidy. */
  lemma EpisodeIsSound(d: Disk<Text>, prior: Option<StoreImage>, ep: Episode)
    requires Settled(d, prior) && Possible(d, prior, ep) && (Clean(d, prior) || PassesBarrier(prior, ep))
    ensures !ep.Ended? ==> |ep.chain| > 0
    ensures var e := AfterEpisode(d, prior, ep);
            && Settled(e, Loaded(e)) && (Clean(e, Loaded(e)) <==> TidyAfter(prior, ep))
            && Loaded(e) in Possibilities(prior, ep)
  {
    hide Run;
    hide EpisodeOps;
    hide RecoverOps;
    hide Crashed;
    hide Clean;
    hide CommitPoint;
    hide TidyEnd;
    hide LeavesNoJournal;
    hide Resolve;
    hide Current;
    hide Loaded;
    var e := AfterEpisode(d, prior, ep);
    var store: Option<StoreImage>;
    match ep {
      case Ended(_, _, _, _, _) =>
        store := EndedEpisode(d, prior, ep);
      case PowerLoss(_, _, _, _, _, _, _) =>
        LossDuringCommit(d, prior, ep);
        store :| store in Possibilities(prior, ep) && Settled(e, store) && Clean(e, store);
      case IdleLoss(chain) =>
        PowerLossRepairs(d, prior, chain);
        store := prior;
    }
    CurrentIsLoaded(e, store);
  }

  /** Over any run of commits, I/O errors, restarts and power losses, the file always holds one whole store, the one
      that the episode says, and every power loss keeps it. */
  lemma {:induction false} StoryIsSound(disks: seq<Disk<Text>>, tidy: seq<bool>, episodes: seq<Episode>, i: nat)
    requires Story(disks, tidy, episodes) && i < |disks|
    requires Settled(disks[0], Loaded(disks[0])) && Clean(disks[0], Loaded(disks[0]))
    ensures Settled(disks[i], Loaded(disks[i])) && (Clean(disks[i], Loaded(disks[i])) <==> tidy[i])
    ensures i > 0 ==> Loaded(disks[i]) in Possibilities(Loaded(disks[i - 1]), episodes[i - 1])
    decreases i
  {
    hide Settled;
    hide Clean;
    hide Possible;
    hide AfterEpisode;
    hide PassesBarrier;
    hide TidyAfter;
    hide Loaded;
    hide Possibilities;
    if i > 0 {
      StoryIsSound(disks, tidy, episodes, i - 1);
      EpisodeIsSound(disks[i - 1], Loaded(disks[i - 1]), episodes[i - 1]);
    }
  }

  /** The directory that a host starts with is settled and clean. */
  lemma EmptyDirectoryIsSettled()
    ensures var d: Disk<Text> := Disk(map[], [], []); Loaded(d) == None && Settled(d, None) && Clean(d, None)
  {
    AloneIsSettled(Disk(map[], [], []), None);
  }
}
