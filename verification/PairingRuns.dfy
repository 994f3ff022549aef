/** Pairing over whole runs: the theorems, and the link between live candidates and their tokens. */
module PairingRuns {

  import opened Wrappers
  import opened DeviceRequests
  import opened Pairing
  import opened PairingSafety

  // ----- live candidates are linked to their tokens -----

  /** A candidate and its token point at each other; a candidate whose token is gone has expired. */
  predicate CandidateLinked(r: Registry, c: CandidateId, now: int)
    requires c in r.candidates
  {
    var x := r.candidates[c];
    if x.tokenHash in r.tokens then r.tokens[x.tokenHash].inReview == Some(c) && r.tokens[x.tokenHash].expiresAt == x.expiresAt
    else now > x.expiresAt
  }

  predicate TokenLinked(r: Registry, h: Hash)
    requires h in r.tokens
  {
    r.tokens[h].inReview.Some? ==>
      var c := r.tokens[h].inReview.value;
      c in r.candidates && r.candidates[c].tokenHash == h
  }

  predicate Linked(cfg: Config, r: Registry, now: int) {
    && (forall c | c in r.candidates :: CandidateLinked(r, c, now))
    && (forall h | h in r.tokens :: TokenLinked(r, h))
    && |r.tokens| <= cfg.maxPending
  }

  lemma TimePasses(cfg: Config, r: Registry, now: int, later: int)
    requires Linked(cfg, r, now) && now <= later
    ensures Linked(cfg, r, later)
  {
    forall c | c in r.candidates ensures CandidateLinked(r, c, later) {
      assert CandidateLinked(r, c, now);
    }
  }

  lemma Fewer<K, V>(m: map<K, V>, n: map<K, V>)
    requires forall k | k in n :: k in m
    ensures |n| <= |m|
  {
    assert n.Keys <= m.Keys;
    SubsetSize(n.Keys, m.Keys);
    assert |n| == |n.Keys| && |m| == |m.Keys|;
  }

  lemma {:induction false} SubsetSize<T>(a: set<T>, b: set<T>)
    requires a <= b
    ensures |a| <= |b|
    decreases |a|
  {
    if a != {} {
      var x :| x in a;
      SubsetSize(a - {x}, b - {x});
    }
  }

  lemma BurnIsLinked(cfg: Config, r: Registry, id: CandidateId, now: int)
    requires Linked(cfg, r, now)
    ensures Linked(cfg, Burn(r, id), now)
  {
    var q := Burn(r, id);
    if id in r.candidates {
      assert CandidateLinked(r, id, now);
      forall c | c in q.candidates ensures CandidateLinked(q, c, now) {
        assert CandidateLinked(r, c, now);
      }
      forall h | h in q.tokens ensures TokenLinked(q, h) {
        assert TokenLinked(r, h);
      }
      Fewer(r.tokens, q.tokens);
    }
  }

  lemma PruneIsLinked(cfg: Config, r: Registry, now: int)
    requires Linked(cfg, r, now)
    ensures Linked(cfg, PruneExpired(r, now), now)
  {
    var q := PruneExpired(r, now);
    forall c | c in q.candidates ensures CandidateLinked(q, c, now) {
      assert CandidateLinked(r, c, now);
    }
    forall h | h in q.tokens ensures TokenLinked(q, h) {
      assert TokenLinked(r, h);
      if r.tokens[h].inReview.Some? {
        var c := r.tokens[h].inReview.value;
        forall g | g in r.tokens && r.tokens[g].inReview == Some(c) ensures g == h {
          assert TokenLinked(r, g);
        }
      }
    }
    Fewer(r.tokens, q.tokens);
  }

  lemma CreateIsLinked(cfg: Config, r: Registry, step: Step, now: int)
    requires Linked(cfg, r, now) && step.Create? && step.hash !in r.tokens
    requires forall c | c in r.candidates :: r.candidates[c].tokenHash != step.hash
    ensures Linked(cfg, CreateToken(cfg, r, step.host, step.ttl, step.allowed, step.hash, now).0, now)
  {
    hide PruneExpired;
    hide Linked;
    var p := PruneExpired(r, now);
    PruneIsLinked(cfg, r, now);
    PruneShrinks(r, now);
    var (_, created) := CreateToken(cfg, r, step.host, step.ttl, step.allowed, step.hash, now);
    if created.Ok? {
      NewTokenIsLinked(cfg, p, step.hash, created.value, now);
    }
  }

  lemma NewTokenIsLinked(cfg: Config, p: Registry, hash: Hash, record: TokenRecord, now: int)
    requires Linked(cfg, p, now) && |p.tokens| < cfg.maxPending && hash !in p.tokens && record.inReview.None?
    requires forall c | c in p.candidates :: p.candidates[c].tokenHash != hash
    ensures Linked(cfg, p.(tokens := p.tokens[hash := record]), now)
  {
    var q := p.(tokens := p.tokens[hash := record]);
    forall c | c in q.candidates ensures CandidateLinked(q, c, now) {
      assert CandidateLinked(p, c, now);
    }
    forall h | h in q.tokens ensures TokenLinked(q, h) {
      if h != hash { assert TokenLinked(p, h); }
    }
    OneMoreKey(p.tokens, hash, record);
  }

  lemma OneMoreKey<K, V>(m: map<K, V>, k: K, v: V)
    requires k !in m
    ensures |m[k := v]| == |m| + 1
  {
    assert m[k := v].Keys == m.Keys + {k};
    assert |m[k := v]| == |m[k := v].Keys| && |m| == |m.Keys|;
  }

  lemma VerifyIsLinked(cfg: Config, r: Registry, step: Step, now: int)
    requires Linked(cfg, r, now) && step.Verify? && step.newId !in r.candidates
    requires forall h | h in r.tokens :: r.tokens[h].inReview != Some(step.newId)
    ensures Linked(cfg, VerifyCandidate(r, step.token, step.key, step.displayName, step.seenHost, step.newId, now).0, now)
  {
    hide Linked;
    var (q, verified) := VerifyCandidate(r, step.token, step.key, step.displayName, step.seenHost, step.newId, now);
    if verified.Ok? {
      ReviewIsLinked(cfg, r, q, step.token, step.newId, now);
    } else if q != r {
      TokenDropIsLinked(cfg, r, step.token, now);
    }
  }

  lemma ReviewIsLinked(cfg: Config, r: Registry, q: Registry, hash: Hash, id: CandidateId, now: int)
    requires Linked(cfg, r, now) && hash in r.tokens && r.tokens[hash].inReview.None? && id !in r.candidates
    requires id in q.candidates && q.candidates == r.candidates[id := q.candidates[id]]
    requires q.candidates[id].tokenHash == hash && q.candidates[id].expiresAt == r.tokens[hash].expiresAt
    requires q.tokens == r.tokens[hash := r.tokens[hash].(inReview := Some(id))]
    ensures Linked(cfg, q, now)
  {
    forall c | c in q.candidates ensures CandidateLinked(q, c, now) {
      if c != id { assert CandidateLinked(r, c, now); }
    }
    forall h | h in q.tokens ensures TokenLinked(q, h) {
      assert TokenLinked(r, h);
    }
    assert q.tokens.Keys == r.tokens.Keys;
  }

  /** A failed verification deletes an expired token, or one without a review. */
  lemma TokenDropIsLinked(cfg: Config, r: Registry, hash: Hash, now: int)
    requires Linked(cfg, r, now) && hash in r.tokens
    requires Expired(r.tokens[hash], now) || r.tokens[hash].inReview.None?
    ensures Linked(cfg, r.(tokens := r.tokens - {hash}), now)
  {
    var q := r.(tokens := r.tokens - {hash});
    forall c | c in q.candidates ensures CandidateLinked(q, c, now) {
      assert CandidateLinked(r, c, now);
    }
    forall h | h in q.tokens ensures TokenLinked(q, h) {
      assert TokenLinked(r, h);
    }
    Fewer(r.tokens, q.tokens);
  }

  lemma ClaimIsLinked(cfg: Config, r: Registry, id: CandidateId, now: int)
    requires Linked(cfg, r, now)
    ensures Linked(cfg, Claim(r, id, now).0, now)
  {
    BurnIsLinked(cfg, r, id, now);
    var q := Claim(r, id, now).0;
    if q != r && id in q.candidates {
      forall c | c in q.candidates ensures CandidateLinked(q, c, now) { assert CandidateLinked(r, c, now); }
      forall h | h in q.tokens ensures TokenLinked(q, h) { assert TokenLinked(r, h); }
    }
  }

  lemma StepIsLinked(cfg: Config, s: State, step: Step, now: int)
    requires Safe(cfg, s) && DrawsFresh(s, step) && Linked(cfg, s.registry, now)
    ensures Linked(cfg, Next(cfg, s, step, now).registry, now)
  {
    hide Linked;
    hide Safe;
    hide Burn;
    hide Claim;
    hide CreateToken;
    hide VerifyCandidate;
    hide Stage;
    match step
    case Create(_, _, _, hash) =>
      FreshHash(cfg, s, hash);
      CreateIsLinked(cfg, s.registry, step, now);
    case Verify(_, _, _, _, newId) =>
      FreshId(cfg, s, newId);
      LinkedReviews(cfg, s.registry, newId, now);
      VerifyIsLinked(cfg, s.registry, step, now);
    case Confirm(id, _) => ClaimIsLinked(cfg, s.registry, id, now);
    case Enroll(id, _, _) => BurnIsLinked(cfg, s.registry, id, now);
    case Finish(id) => BurnIsLinked(cfg, s.registry, id, now);
    case RejectPairing(id) => BurnIsLinked(cfg, s.registry, id, now);
    case DevicesChange(_) =>
  }

  lemma FreshHash(cfg: Config, s: State, hash: Hash)
    requires Safe(cfg, s) && !KnownHash(s.log, hash)
    ensures hash !in s.registry.tokens
    ensures forall c | c in s.registry.candidates :: s.registry.candidates[c].tokenHash != hash
  {
    if hash in s.registry.tokens {
      IssuedIsKnown(s.log, hash, s.registry.tokens[hash].allowed, s.registry.tokens[hash].host);
    }
    forall c | c in s.registry.candidates ensures s.registry.candidates[c].tokenHash != hash {
      var x := s.registry.candidates[c];
      assert TermsMatchLog(s.log, c, x);
      IssuedIsKnown(s.log, x.tokenHash, x.maxAllowed, x.host);
    }
  }

  lemma FreshId(cfg: Config, s: State, id: CandidateId)
    requires Safe(cfg, s) && !KnownId(s.log, id)
    ensures id !in s.registry.candidates
  {
    if id in s.registry.candidates {
      var x := s.registry.candidates[id];
      assert TermsMatchLog(s.log, id, x);
      ReviewIsKnown(s.log, x.tokenHash, id, x.remoteStaticPublicKey);
    }
  }

  lemma LinkedReviews(cfg: Config, r: Registry, id: CandidateId, now: int)
    requires Linked(cfg, r, now) && id !in r.candidates
    ensures forall h | h in r.tokens :: r.tokens[h].inReview != Some(id)
  {
    forall h | h in r.tokens ensures r.tokens[h].inReview != Some(id) {
      assert TokenLinked(r, h);
    }
  }

  // ----- whole runs -----

  ghost predicate RunOf(cfg: Config, states: seq<State>, steps: seq<Step>, times: seq<int>) {
    && |states| == |steps| + 1 == |times|
    && states[0] == State(Registry(map[], map[]), map[], states[0].devices, [])
    && forall i | 0 <= i < |steps| ::
         && times[i] <= times[i + 1]
         && DrawsFresh(states[i], steps[i])
         && states[i + 1] == Next(cfg, states[i], steps[i], times[i])
  }

  lemma StartIsSafe(cfg: Config, s: State, now: int)
    requires s == State(Registry(map[], map[]), map[], s.devices, [])
    ensures Safe(cfg, s) && Linked(cfg, s.registry, now)
  {}

  lemma {:induction false} EveryStateIsSafe(cfg: Config, states: seq<State>, steps: seq<Step>, times: seq<int>, i: nat)
    requires RunOf(cfg, states, steps, times) && i < |states|
    ensures Safe(cfg, states[i]) && Linked(cfg, states[i].registry, times[i])
    decreases i
  {
    hide Safe;
    hide Linked;
    hide Next;
    hide DrawsFresh;
    if i == 0 {
      StartIsSafe(cfg, states[0], times[0]);
    } else {
      EveryStateIsSafe(cfg, states, steps, times, i - 1);
      StepIsSafe(cfg, states[i - 1], steps[i - 1], times[i - 1]);
      StepIsLinked(cfg, states[i - 1], steps[i - 1], times[i - 1]);
      TimePasses(cfg, states[i].registry, times[i - 1], times[i]);
    }
  }

  /** Each token leads to at most one candidate. */
  lemma OneCandidatePerToken(cfg: Config, states: seq<State>, steps: seq<Step>, times: seq<int>, i: nat,
                             j: nat, k: nat, hash: Hash, c: CandidateId, d: CandidateId)
    requires RunOf(cfg, states, steps, times) && i < |states|
    requires ReviewedAt(states[i].log, j, hash, c) && ReviewedAt(states[i].log, k, hash, d)
    ensures j == k && c == d
  {
    EveryStateIsSafe(cfg, states, steps, times, i);
  }

  /** Each candidate is claimed, declined or found expired at most once, and only one of these. */
  lemma OneOutcomePerCandidate(cfg: Config, states: seq<State>, steps: seq<Step>, times: seq<int>, i: nat, j: nat, k: nat, c: CandidateId)
    requires RunOf(cfg, states, steps, times) && i < |states|
    requires DecidedAt(states[i].log, j, c) && DecidedAt(states[i].log, k, c)
    ensures j == k
  {
    EveryStateIsSafe(cfg, states, steps, times, i);
    assert OneOutcome(states[i]);
  }

  /** Each token enrolls at most one device, for the key that was reviewed, inside the allowlist and the trust
      domain that the token was issued with. */
  lemma OneDevicePerToken(cfg: Config, states: seq<State>, steps: seq<Step>, times: seq<int>, i: nat, j: nat, hash: Hash, c: CandidateId)
    requires RunOf(cfg, states, steps, times) && i < |states| && EnrolledAt(states[i].log, j, hash, c)
    ensures WithinTerms(cfg, states[i].log, states[i].log[j])
    ensures forall k, d: CandidateId | EnrolledAt(states[i].log, k, hash, d) :: k == j && d == c
  {
    EveryStateIsSafe(cfg, states, steps, times, i);
    assert OneEnrollment(states[i]) && EnrollmentsWithinTerms(cfg, states[i]);
  }

  // ----- how many candidates are live -----

  function Live(r: Registry, now: int): set<CandidateId> {
    set c | c in r.candidates && now <= r.candidates[c].expiresAt
  }

  lemma {:induction false} DistinctTokens(r: Registry, live: set<CandidateId>)
    requires forall c | c in live :: c in r.candidates && r.candidates[c].tokenHash in r.tokens
    requires forall c | c in live :: r.tokens[r.candidates[c].tokenHash].inReview == Some(c)
    ensures |live| == |set c | c in live :: r.candidates[c].tokenHash|
    decreases |live|
  {
    if live != {} {
      var x :| x in live;
      DistinctTokens(r, live - {x});
      var rest := set c | c in live - {x} :: r.candidates[c].tokenHash;
      assert (set c | c in live :: r.candidates[c].tokenHash) == rest + {r.candidates[x].tokenHash};
      assert r.candidates[x].tokenHash !in rest;
    }
  }

  /** Live pairing state stays linked: every unexpired candidate and its token point at each other, so there are
      never more of them than the registry allows tokens. */
  lemma LiveCandidatesFit(cfg: Config, states: seq<State>, steps: seq<Step>, times: seq<int>, i: nat)
    requires RunOf(cfg, states, steps, times) && i < |states|
    ensures var r := states[i].registry;
            && (forall c | c in Live(r, times[i]) ::
                  r.candidates[c].tokenHash in r.tokens && r.tokens[r.candidates[c].tokenHash].inReview == Some(c))
            && |Live(r, times[i])| <= |r.tokens| <= cfg.maxPending
  {
    hide Safe;
    EveryStateIsSafe(cfg, states, steps, times, i);
    var r, now := states[i].registry, times[i];
    forall c | c in Live(r, now)
      ensures r.candidates[c].tokenHash in r.tokens && r.tokens[r.candidates[c].tokenHash].inReview == Some(c)
    {
      assert CandidateLinked(r, c, now);
    }
    DistinctTokens(r, Live(r, now));
    SubsetSize(set c | c in Live(r, now) :: r.candidates[c].tokenHash, r.tokens.Keys);
  }

  // ----- expired orphans -----

  /** A candidate under review whose token is gone; the bound above does not cover it. */
  predicate Orphan(r: Registry, id: CandidateId) {
    id in r.candidates && r.candidates[id].phase == Pending && r.candidates[id].tokenHash !in r.tokens
  }

  /** Presenting an expired token again, while its candidate is still under review. */
  predicate Orphans(r: Registry, step: Step, now: int, id: CandidateId) {
    && step.Verify? && step.token in r.tokens && Expired(r.tokens[step.token], now)
    && r.tokens[step.token].inReview == Some(id) && id in r.candidates && r.candidates[id].phase == Pending
  }

  /** Somebody decides about the candidate. */
  predicate Settles(step: Step, id: CandidateId) {
    (step.Confirm? && step.id == id) || (step.RejectPairing? && step.rejected == id)
  }

  lemma PrunedOrphan(cfg: Config, r: Registry, now: int, id: CandidateId)
    requires Linked(cfg, r, now)
    ensures Orphan(PruneExpired(r, now), id) <==> Orphan(r, id)
  {
    var q := PruneExpired(r, now);
    if id in r.candidates {
      assert CandidateLinked(r, id, now);
      if h :| h in r.tokens && Expired(r.tokens[h], now) && r.tokens[h].inReview == Some(id) {
        assert TokenLinked(r, h);
      }
    }
  }

  lemma BurnedOrphan(cfg: Config, r: Registry, now: int, c: CandidateId, id: CandidateId)
    requires Linked(cfg, r, now)
    ensures Orphan(Burn(r, c), id) <==> Orphan(r, id) && c != id
  {
    if id in r.candidates && c in r.candidates {
      assert CandidateLinked(r, id, now) && CandidateLinked(r, c, now);
    }
  }

  lemma ClaimedOrphan(cfg: Config, r: Registry, now: int, c: CandidateId, id: CandidateId)
    requires Linked(cfg, r, now)
    ensures Orphan(Claim(r, c, now).0, id) <==> Orphan(r, id) && c != id
  {
    BurnedOrphan(cfg, r, now, c, id);
    if id in r.candidates { assert CandidateLinked(r, id, now); }
  }

  lemma VerifiedOrphan(cfg: Config, r: Registry, step: Step, now: int, id: CandidateId)
    requires Linked(cfg, r, now) && step.Verify? && step.newId !in r.candidates
    ensures Orphan(VerifyCandidate(r, step.token, step.key, step.displayName, step.seenHost, step.newId, now).0, id)
       <==> Orphan(r, id) || Orphans(r, step, now, id)
  {
    if id in r.candidates { assert CandidateLinked(r, id, now); }
    if step.token in r.tokens { assert TokenLinked(r, step.token); }
  }

  /** The exact condition for one step: a candidate is an orphan afterwards if and only if it was one and nobody
      decides about it, or its expired token is presented again. */
  lemma StepOrphans(cfg: Config, s: State, step: Step, now: int, id: CandidateId)
    requires Safe(cfg, s) && Linked(cfg, s.registry, now) && DrawsFresh(s, step)
    ensures Orphan(Next(cfg, s, step, now).registry, id)
       <==> (Orphan(s.registry, id) && !Settles(step, id)) || Orphans(s.registry, step, now, id)
  {
    hide Safe;
    hide Linked;
    hide Claim;
    hide Burn;
    hide PruneExpired;
    hide VerifyCandidate;
    hide Stage;
    match step
    case Create(_, _, _, hash) =>
      FreshHash(cfg, s, hash);
      PruneShrinks(s.registry, now);
      PrunedOrphan(cfg, s.registry, now, id);
    case Verify(_, _, _, _, newId) =>
      FreshId(cfg, s, newId);
      VerifiedOrphan(cfg, s.registry, step, now, id);
    case Confirm(c, _) => ClaimedOrphan(cfg, s.registry, now, c, id);
    case Enroll(c, _, _) =>
      BurnedOrphan(cfg, s.registry, now, c, id);
      if Orphan(s.registry, id) { PendingIsNotConfirmed(cfg, s, id); }
    case Finish(c) =>
      BurnedOrphan(cfg, s.registry, now, c, id);
      if Orphan(s.registry, id) { PendingIsNotConfirmed(cfg, s, id); }
    case RejectPairing(c) => BurnedOrphan(cfg, s.registry, now, c, id);
    case DevicesChange(_) =>
  }

  /** Over every run: an orphan is still there later if and only if nobody has decided about it in between. */
  lemma {:induction false} OrphanStaysUntilSettled(cfg: Config, states: seq<State>, steps: seq<Step>, times: seq<int>,
                                                   i: nat, j: nat, id: CandidateId)
    requires RunOf(cfg, states, steps, times) && i <= j < |states| && Orphan(states[i].registry, id)
    ensures Orphan(states[j].registry, id) <==> forall k | i <= k < j :: !Settles(steps[k], id)
    ensures id in states[j].registry.candidates <==> Orphan(states[j].registry, id)
    ensures KnownId(states[j].log, id)
    decreases j
  {
    hide Safe;
    hide Linked;
    hide Next;
    hide Orphan;
    hide KnownId;
    if i == j {
      EveryStateIsSafe(cfg, states, steps, times, i);
      OrphanIsKnown(cfg, states[i], id);
    } else {
      OrphanStaysUntilSettled(cfg, states, steps, times, i, j - 1, id);
      var s, step, now := states[j - 1], steps[j - 1], times[j - 1];
      EveryStateIsSafe(cfg, states, steps, times, j - 1);
      StepOrphans(cfg, s, step, now, id);
      KnownStays(cfg, s, step, now, id);
      if Orphan(s.registry, id) {
        SettledLeaves(cfg, s, step, now, id);
        if !Settles(step, id) { OrphanIsThere(states[j].registry, id); }
      } else {
        AbsentStays(cfg, s, step, now, id);
        assert !Orphans(s.registry, step, now, id);
      }
    }
  }

  lemma OrphanIsThere(r: Registry, id: CandidateId)
    requires Orphan(r, id)
    ensures id in r.candidates
  {}

  lemma OrphanIsKnown(cfg: Config, s: State, id: CandidateId)
    requires Safe(cfg, s) && Orphan(s.registry, id)
    ensures KnownId(s.log, id) && id in s.registry.candidates
  {
    assert TermsMatchLog(s.log, id, s.registry.candidates[id]);
    ReviewIsKnown(s.log, s.registry.candidates[id].tokenHash, id, s.registry.candidates[id].remoteStaticPublicKey);
  }

  lemma KnownStays(cfg: Config, s: State, step: Step, now: int, id: CandidateId)
    requires KnownId(s.log, id)
    ensures KnownId(Next(cfg, s, step, now).log, id)
  {
    hide Claim;
    hide Reject;
    hide Burn;
    hide CreateToken;
    hide VerifyCandidate;
    hide Stage;
    var t := Next(cfg, s, step, now);
    if t.log != s.log {
      LogGrows(s.log, t.log[|s.log|]);
      assert t.log == s.log + [t.log[|s.log|]];
    }
  }

  /** An id that was drawn never names another candidate. */
  lemma AbsentStays(cfg: Config, s: State, step: Step, now: int, id: CandidateId)
    requires DrawsFresh(s, step) && KnownId(s.log, id) && id !in s.registry.candidates
    ensures id !in Next(cfg, s, step, now).registry.candidates
  {
    hide KnownId;
    hide Stage;
    PruneShrinks(s.registry, now);
    hide PruneExpired;
  }

  /** An orphan that is settled leaves the table. */
  lemma SettledLeaves(cfg: Config, s: State, step: Step, now: int, id: CandidateId)
    requires Linked(cfg, s.registry, now) && Orphan(s.registry, id)
    ensures Settles(step, id) ==> id !in Next(cfg, s, step, now).registry.candidates
    ensures !Orphans(s.registry, step, now, id)
  {
    assert CandidateLinked(s.registry, id, now);
    if step.Verify? && step.token in s.registry.tokens { assert TokenLinked(s.registry, step.token); }
  }
}
