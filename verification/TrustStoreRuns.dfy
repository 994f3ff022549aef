/** One commit of the device store file, cut by a power loss at any point, and the restarts that may
    themselves lose power. */
module TrustStoreRuns {

  import opened Wrappers
  import opened DurableDisk
  import opened StoreFiles
  import opened TrustJournal
  import opened TrustJournalSafety
  import opened TrustJournalCommit
  import opened TrustJournalTheorems
  import opened TrustJournalRecovery

  // ----- restarts -----

  /** A restart on disk a whose recovery loses power and leaves disk b. */
  ghost predicate CutShort(a: Disk<Text>, b: Disk<Text>) {
    exists k: nat | k <= |RecoverOps(a)| :: Crashed(Run(a, RecoverOps(a)[..k]), b)
  }

  /** Any number of restarts whose recovery was cut short. */
  ghost predicate Restarts(chain: seq<Disk<Text>>) {
    |chain| > 0 && forall i | 0 < i < |chain| :: CutShort(chain[i - 1], chain[i])
  }

  lemma RecoverableIsSteady(s: Disk<Text>)
    requires Recoverable(s) && Apart(s.durable, s.nodes)
    ensures Steady(s, Resolve(s.durable, s.nodes))
  {
    NothingPending(s);
  }

  lemma SteadySurvives(d: Disk<Text>, s: Disk<Text>, x: Outcome)
    requires Steady(d, x) && Crashed(d, s)
    ensures Steady(s, x) && s.pending == []
  {
    NothingPending(s);
    assert SteadyAt(s.durable, d.nodes, x);
    assert s.nodes == d.nodes by {
      forall i | 0 <= i < |d.nodes| ensures s.nodes[i] == d.nodes[i] {
        assert SurvivesAs(d.nodes[i], s.nodes[i]);
      }
    }
  }

  lemma {:induction false} RestartsAreSteady(chain: seq<Disk<Text>>, x: Outcome)
    requires Restarts(chain) && Steady(chain[0], x) && chain[0].pending == []
    ensures var last := chain[|chain| - 1]; Steady(last, x) && last.pending == []
    decreases |chain|
  {
    hide Steady;
    hide Crashed;
    hide Run;
    hide RecoverOps;
    if |chain| > 1 {
      var init := chain[..|chain| - 1];
      assert Restarts(init) by {
        forall i | 0 < i < |init| ensures CutShort(init[i - 1], init[i]) {
          assert CutShort(chain[i - 1], chain[i]);
        }
      }
      RestartsAreSteady(init, x);
      var a, b := init[|init| - 1], chain[|chain| - 1];
      assert CutShort(a, b) by { assert a == chain[|chain| - 2]; }
      var k: nat :| k <= |RecoverOps(a)| && Crashed(Run(a, RecoverOps(a)[..k]), b);
      RecoveryIsSteady(a, x);
      SteadyPrefix(a, RecoverOps(a), k, x);
      SteadySurvives(Run(a, RecoverOps(a)[..k]), b, x);
    }
  }

  /** The disk after the last restart has recovered completely. */
  function Recovered(chain: seq<Disk<Text>>): Disk<Text>
    requires |chain| > 0
  {
    var last := chain[|chain| - 1];
    Run(last, RecoverOps(last))
  }

  function StoreOf(x: Outcome): Option<StoreImage> {
    match x
    case Found(image) => Some(image)
    case _ => None
  }

  lemma SteadyIsCurrent(e: Disk<Text>, x: Outcome)
    requires Steady(e, x) && e.pending == [] && !x.Broken?
    requires Journal !in Live(e) && OutcomeAt(Live(e), e.nodes, Target) == x
    ensures Current(e, StoreOf(x)) && Clean(e, StoreOf(x))
  {
    NothingPending(e);
    assert SteadyAt(e.durable, e.nodes, x);
  }

  /** Crash atomicity, end to end: power is lost at any point of a commit, then any number of recoveries are
      cut short, and the final restart loads exactly the old or exactly the new store, ready for a commit. */
  lemma CrashAtomicity(d: Disk<Text>, prior: Option<StoreImage>, next: StoreImage, t: nat, m: nat, fault: Fault,
                       k: nat, chain: seq<Disk<Text>>)
    requires Current(d, prior) && Clean(d, prior) && FreshNames(d, t, m)
    requires k <= |CommitOps(prior, next, t, m, fault)| && Restarts(chain)
    requires Crashed(Run(d, CommitOps(prior, next, t, m, fault)[..k]), chain[0])
    ensures var e := Recovered(chain);
            var x := OutcomeAt(Live(e), e.nodes, Target);
            && x in {OutcomeOf(prior), Found(next)}
            && Current(e, StoreOf(x)) && Clean(e, StoreOf(x))
    ensures Commits(fault) && k >= CommitPoint(prior, next, t, m) ==>
              OutcomeAt(Live(Recovered(chain)), Recovered(chain).nodes, Target) == Found(next)
  {
    hide Run;
    hide CommitOps;
    hide RecoverOps;
    hide Crashed;
    hide Current;
    hide Clean;
    hide Steady;
    hide CommitPoint;
    hide Resolve;
    var s := chain[0];
    CommitIsAtomic(d, prior, next, t, m, fault, k, s);
    var x := Resolve(s.durable, s.nodes);
    RecoverableIsSteady(s);
    RestartsAreSteady(chain, x);
    var last := chain[|chain| - 1];
    RecoveryIsSteady(last, x);
    SteadyIsCurrent(Recovered(chain), x);
    if Commits(fault) && k >= CommitPoint(prior, next, t, m) {
      CommittedIsDurable(d, prior, next, t, m, fault, k, s);
    }
  }

  /** A commit without I/O error ends with the new store, no metadata and nothing pending, whatever was pending before. */
  lemma CompletedIsCurrent(d: Disk<Text>, prior: Option<StoreImage>, next: StoreImage, t: nat, m: nat)
    requires Current(d, prior) && FreshNames(d, t, m)
    ensures var e := Run(d, CommitOps(prior, next, t, m, NoFault));
            Current(e, Some(next)) && Clean(e, Some(next)) && e.pending == []
  {
    hide SafeRun;
    hide Run;
    hide Prepare;
    hide Committing;
    var c := MarkerIsDurable(d, prior, next, t, m);
    FinishIsSafe(c, NoFault, prior, next);
    CommitEnds(prior, next, t, m, NoFault);
    RunAppend(d, Prepare(prior) + Committing(prior, next, t, m), FinishOps(NoFault));
    var e := Run(c, FinishOps(NoFault));
    NothingPending(e);
    assert In(Committed, e.durable, e.nodes, prior, next);
  }

  /** The store that a restart on this disk loads. */
  function Loaded(d: Disk<Text>): Option<StoreImage> {
    StoreOf(OutcomeAt(Live(d), d.nodes, Target))
  }

  lemma CurrentIsLoaded(d: Disk<Text>, prior: Option<StoreImage>)
    requires Current(d, prior)
    ensures Loaded(d) == prior
  {
    LiveIsImage(d.durable, d.pending);
    assert TargetIs(Live(d), d.nodes, prior);
  }
}
