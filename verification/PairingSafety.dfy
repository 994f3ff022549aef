/** The invariant of pairing and its preservation, one lemma for each kind of step: tokens, candidates and confirmations
    match what has happened, and nothing in the log happens a second time. Whole runs, and what the invariant
    means for them, follow in PairingRuns. */
module PairingSafety {

  import opened Wrappers
  import opened Protocol
  import opened DeviceRecords
  import opened DeviceRequests
  import opened Pairing

  // ----- what every state keeps -----

  ghost predicate ReviewedAt(log: seq<Event>, i: int, hash: Hash, id: CandidateId) {
    0 <= i < |log| && log[i].Reviewed? && log[i].hash == hash && log[i].id == id
  }

  predicate Decides(e: Event, id: CandidateId) {
    e == Claimed(id) || e == Declined(id) || e == Lapsed(id)
  }

  ghost predicate DecidedAt(log: seq<Event>, i: int, id: CandidateId) {
    0 <= i < |log| && Decides(log[i], id)
  }

  ghost predicate EnrolledAt(log: seq<Event>, i: int, hash: Hash, id: CandidateId) {
    0 <= i < |log| && log[i].Enrolled? && log[i].hash == hash && log[i].id == id
  }

  ghost predicate IssuedAs(log: seq<Event>, hash: Hash, allowed: seq<Capability>, host: Host) {
    Issued(hash, allowed, host) in log
  }

  /** The ids drawn so far. */
  ghost predicate KnownHash(log: seq<Event>, hash: Hash) {
    exists i | 0 <= i < |log| :: log[i].Issued? && log[i].hash == hash
  }

  ghost predicate KnownId(log: seq<Event>, id: CandidateId) {
    exists i | 0 <= i < |log| :: log[i].Reviewed? && log[i].id == id
  }

  /** A token without a review was never reviewed; one with a review was reviewed for that candidate. */
  ghost predicate TokensMatchLog(s: State) {
    && (forall h | h in s.registry.tokens :: IssuedAs(s.log, h, s.registry.tokens[h].allowed, s.registry.tokens[h].host))
    && forall i, h: Hash, c: CandidateId | ReviewedAt(s.log, i, h, c) && h in s.registry.tokens :: s.registry.tokens[h].inReview == Some(c)
  }

  /** A candidate comes from a review of its token and carries the terms that the token was issued with. */
  ghost predicate TermsMatchLog(log: seq<Event>, id: CandidateId, c: Candidate) {
    && Reviewed(c.tokenHash, id, c.remoteStaticPublicKey) in log
    && IssuedAs(log, c.tokenHash, c.maxAllowed, c.host)
  }

  ghost predicate CandidatesMatchLog(s: State) {
    forall c | c in s.registry.candidates ::
      && TermsMatchLog(s.log, c, s.registry.candidates[c])
      && (s.registry.candidates[c].phase == Pending ==> forall i :: !DecidedAt(s.log, i, c))
  }

  ghost predicate ConfirmationsMatchLog(s: State) {
    forall c | c in s.confirmations ::
      && TermsMatchLog(s.log, c, s.confirmations[c].tx)
      && Claimed(c) in s.log
      && (s.confirmations[c].progress.AwaitingHost? ==> forall i, h: Hash :: !EnrolledAt(s.log, i, h, c))
  }

  ghost predicate EventsAreKnown(s: State) {
    && (forall i, h: Hash, c: CandidateId | ReviewedAt(s.log, i, h, c) :: KnownHash(s.log, h))
    && (forall i, c: CandidateId | DecidedAt(s.log, i, c) :: KnownId(s.log, c))
    && (forall i, h: Hash, c: CandidateId | EnrolledAt(s.log, i, h, c) :: c in s.confirmations && s.confirmations[c].tx.tokenHash == h)
  }

  ghost predicate OneReview(s: State) {
    && (forall i, j, h: Hash, c: CandidateId, d: CandidateId | ReviewedAt(s.log, i, h, c) && ReviewedAt(s.log, j, h, d) :: i == j)
    && (forall i, j, h: Hash, g: Hash, c: CandidateId | ReviewedAt(s.log, i, h, c) && ReviewedAt(s.log, j, g, c) :: i == j)
  }

  ghost predicate OneOutcome(s: State) {
    forall i, j, c: CandidateId | DecidedAt(s.log, i, c) && DecidedAt(s.log, j, c) :: i == j
  }

  ghost predicate OneEnrollment(s: State) {
    forall i, j, h: Hash, c: CandidateId, d: CandidateId | EnrolledAt(s.log, i, h, c) && EnrolledAt(s.log, j, h, d) :: i == j
  }

  /** An enrollment stays inside the terms of its token, for the key that was reviewed. */
  ghost predicate WithinTerms(cfg: Config, log: seq<Event>, e: Event)
    requires e.Enrolled?
  {
    exists key, allowed, host ::
      && Reviewed(e.hash, e.id, key) in log && IssuedAs(log, e.hash, allowed, host)
      && IsSubset(e.granted, allowed) && IsSubset(e.record.grantedCapabilities, allowed)
      && e.record.trustDomainId == host.trustDomainId && e.record.deviceId == cfg.fp(key)
  }

  ghost predicate EnrollmentsWithinTerms(cfg: Config, s: State) {
    forall i | 0 <= i < |s.log| && s.log[i].Enrolled? :: WithinTerms(cfg, s.log, s.log[i])
  }

  ghost predicate Safe(cfg: Config, s: State) {
    && TokensMatchLog(s) && CandidatesMatchLog(s) && ConfirmationsMatchLog(s) && EventsAreKnown(s)
    && OneReview(s) && OneOutcome(s) && OneEnrollment(s) && EnrollmentsWithinTerms(cfg, s)
  }

  /** Random ids do not repeat. */
  ghost predicate DrawsFresh(s: State, step: Step) {
    && (step.Create? ==> !KnownHash(s.log, step.hash))
    && (step.Verify? ==> !KnownId(s.log, step.newId))
  }

  // ----- one more event -----

  lemma LogGrows(log: seq<Event>, e: Event)
    ensures forall i, h: Hash, c: CandidateId :: ReviewedAt(log + [e], i, h, c) <==>
              ReviewedAt(log, i, h, c) || (i == |log| && e.Reviewed? && e.hash == h && e.id == c)
    ensures forall i, c: CandidateId :: DecidedAt(log + [e], i, c) <==> DecidedAt(log, i, c) || (i == |log| && Decides(e, c))
    ensures forall i, h: Hash, c: CandidateId :: EnrolledAt(log + [e], i, h, c) <==>
              EnrolledAt(log, i, h, c) || (i == |log| && e.Enrolled? && e.hash == h && e.id == c)
    ensures forall x :: x in log + [e] <==> x in log || x == e
    ensures forall h: Hash :: KnownHash(log, h) || (e.Issued? && e.hash == h) ==> KnownHash(log + [e], h)
    ensures forall c: CandidateId :: KnownId(log, c) || (e.Reviewed? && e.id == c) ==> KnownId(log + [e], c)
  {
    var longer := log + [e];
    assert longer[|log|] == e;
    forall h: Hash | KnownHash(log, h) ensures KnownHash(longer, h) {
      var i :| 0 <= i < |log| && log[i].Issued? && log[i].hash == h;
      assert longer[i] == log[i];
    }
    forall c: CandidateId | KnownId(log, c) ensures KnownId(longer, c) {
      var i :| 0 <= i < |log| && log[i].Reviewed? && log[i].id == c;
      assert longer[i] == log[i];
    }
  }

  lemma ReviewIsKnown(log: seq<Event>, hash: Hash, id: CandidateId, key: seq<Octet>)
    requires Reviewed(hash, id, key) in log
    ensures KnownId(log, id) && exists i :: ReviewedAt(log, i, hash, id)
  {
    var i :| 0 <= i < |log| && log[i] == Reviewed(hash, id, key);
    assert ReviewedAt(log, i, hash, id);
  }

  lemma DecisionIsAt(log: seq<Event>, e: Event, id: CandidateId)
    requires e in log && Decides(e, id)
    ensures exists i :: DecidedAt(log, i, id)
  {
    var i :| 0 <= i < |log| && log[i] == e;
    assert DecidedAt(log, i, id);
  }

  lemma EnrollmentsGrow(cfg: Config, s: State, t: State, e: Event)
    requires EnrollmentsWithinTerms(cfg, s) && t.log == s.log + [e]
    requires e.Enrolled? ==> WithinTerms(cfg, t.log, e)
    ensures EnrollmentsWithinTerms(cfg, t)
  {
    hide IsSubset;
    LogGrows(s.log, e);
    forall i | 0 <= i < |t.log| && t.log[i].Enrolled? ensures WithinTerms(cfg, t.log, t.log[i]) {
      if i < |s.log| { assert WithinTerms(cfg, s.log, s.log[i]); }
    }
  }

  lemma TermsGrow(s: State, t: State, e: Event)
    requires t.log == s.log + [e]
    ensures forall id: CandidateId, c | TermsMatchLog(s.log, id, c) :: TermsMatchLog(t.log, id, c)
    ensures forall h: Hash, allowed, host | IssuedAs(s.log, h, allowed, host) :: IssuedAs(t.log, h, allowed, host)
  {}

  /** Nothing in the log happens a second time, if the new event does not repeat an old one. */
  lemma NoRepetition(s: State, t: State, e: Event)
    requires OneReview(s) && OneOutcome(s) && OneEnrollment(s) && t.log == s.log + [e]
    requires e.Reviewed? ==> forall i, c: CandidateId :: !ReviewedAt(s.log, i, e.hash, c)
    requires e.Reviewed? ==> forall i, h: Hash :: !ReviewedAt(s.log, i, h, e.id)
    requires (e.Claimed? || e.Declined? || e.Lapsed?) ==> forall i :: !DecidedAt(s.log, i, e.id)
    requires e.Enrolled? ==> forall i, c: CandidateId :: !EnrolledAt(s.log, i, e.hash, c)
    ensures OneReview(t) && OneOutcome(t) && OneEnrollment(t)
  {
    hide ReviewedAt;
    hide DecidedAt;
    hide EnrolledAt;
    LogGrows(s.log, e);
  }

  lemma KnowledgeGrows(s: State, t: State, e: Event)
    requires EventsAreKnown(s) && t.log == s.log + [e]
    requires e.Reviewed? ==> KnownHash(s.log, e.hash)
    requires (e.Claimed? || e.Declined? || e.Lapsed?) ==> KnownId(s.log, e.id)
    requires e.Enrolled? ==> e.id in t.confirmations && t.confirmations[e.id].tx.tokenHash == e.hash
    requires forall c | c in s.confirmations :: c in t.confirmations && t.confirmations[c].tx == s.confirmations[c].tx
    ensures EventsAreKnown(t)
  {
    hide KnownHash;
    hide KnownId;
    hide ReviewedAt;
    hide DecidedAt;
    hide EnrolledAt;
    LogGrows(s.log, e);
  }

  /** The registry lost some tokens and candidates. */
  predicate Shrinks(r: Registry, q: Registry) {
    && (forall h | h in q.tokens :: h in r.tokens && q.tokens[h] == r.tokens[h])
    && (forall c | c in q.candidates :: c in r.candidates && q.candidates[c] == r.candidates[c])
  }

  lemma ShrinkIsSafe(cfg: Config, s: State, t: State)
    requires Safe(cfg, s) && Shrinks(s.registry, t.registry) && t.log == s.log
    requires t.confirmations == s.confirmations
    ensures Safe(cfg, t)
  {
    hide TermsMatchLog;
    hide IssuedAs;
    hide WithinTerms;
  }

  lemma BurnShrinks(r: Registry, id: CandidateId)
    ensures Shrinks(r, Burn(r, id))
    ensures id !in Burn(r, id).candidates
  {}

  lemma PruneShrinks(r: Registry, now: int)
    ensures Shrinks(r, PruneExpired(r, now))
  {}

  // ----- every step -----

  lemma CreateIsSafe(cfg: Config, s: State, step: Step, now: int)
    requires Safe(cfg, s) && step.Create? && DrawsFresh(s, step)
    ensures Safe(cfg, Next(cfg, s, step, now))
  {
    hide PruneExpired;
    var t := Next(cfg, s, step, now);
    var pruned := s.(registry := PruneExpired(s.registry, now));
    PruneShrinks(s.registry, now);
    ShrinkIsSafe(cfg, s, pruned);
    if t.log != s.log {
      IssueIsSafe(cfg, pruned, t, step.hash, CreateToken(cfg, s.registry, step.host, step.ttl, step.allowed, step.hash, now).1.value);
    }
  }

  lemma IssueIsSafe(cfg: Config, s: State, t: State, hash: Hash, record: TokenRecord)
    requires Safe(cfg, s) && !KnownHash(s.log, hash) && record.inReview.None?
    requires t == s.(registry := s.registry.(tokens := s.registry.tokens[hash := record]), log := s.log + [Issued(hash, record.allowed, record.host)])
    ensures Safe(cfg, t)
  {
    hide WithinTerms;
    hide TermsMatchLog;
    hide KnownHash;
    hide KnownId;
    hide ReviewedAt;
    hide DecidedAt;
    hide EnrolledAt;
    hide OneReview;
    hide OneOutcome;
    hide OneEnrollment;
    var e := Issued(hash, record.allowed, record.host);
    LogGrows(s.log, e);
    TermsGrow(s, t, e);
    EnrollmentsGrow(cfg, s, t, e);
    NoRepetition(s, t, e);
    KnowledgeGrows(s, t, e);
  }

  lemma ReviewIsSafe(cfg: Config, s: State, t: State, hash: Hash, id: CandidateId, c: Candidate)
    requires Safe(cfg, s) && hash in s.registry.tokens && s.registry.tokens[hash].inReview.None? && !KnownId(s.log, id)
    requires c.tokenHash == hash && c.maxAllowed == s.registry.tokens[hash].allowed && c.host == s.registry.tokens[hash].host
    requires t.registry.tokens == s.registry.tokens[hash := s.registry.tokens[hash].(inReview := Some(id))]
    requires t.registry.candidates == s.registry.candidates[id := c]
    requires t.confirmations == s.confirmations && t.log == s.log + [Reviewed(hash, id, c.remoteStaticPublicKey)]
    ensures Safe(cfg, t)
  {
    hide WithinTerms;
    hide TermsMatchLog;
    hide KnownHash;
    hide KnownId;
    hide ReviewedAt;
    hide DecidedAt;
    hide EnrolledAt;
    hide OneReview;
    hide OneOutcome;
    hide OneEnrollment;
    var e := Reviewed(hash, id, c.remoteStaticPublicKey);
    LogGrows(s.log, e);
    TermsGrow(s, t, e);
    EnrollmentsGrow(cfg, s, t, e);
    ReviewedIdsAreKnown(s.log);
    IssuedIsKnown(s.log, hash, c.maxAllowed, c.host);
    NoRepetition(s, t, e);
    KnowledgeGrows(s, t, e);
    NewTerms(s.log, e, id, c);
  }

  lemma NewTerms(log: seq<Event>, e: Event, id: CandidateId, c: Candidate)
    requires e == Reviewed(c.tokenHash, id, c.remoteStaticPublicKey) && IssuedAs(log, c.tokenHash, c.maxAllowed, c.host)
    ensures TermsMatchLog(log + [e], id, c)
  {}

  lemma ReviewedIdsAreKnown(log: seq<Event>)
    ensures forall i, h: Hash, c: CandidateId | ReviewedAt(log, i, h, c) :: KnownId(log, c)
  {}

  lemma IssuedIsKnown(log: seq<Event>, hash: Hash, allowed: seq<Capability>, host: Host)
    requires IssuedAs(log, hash, allowed, host)
    ensures KnownHash(log, hash)
  {
    var i :| 0 <= i < |log| && log[i] == Issued(hash, allowed, host);
  }

  lemma VerifyIsSafe(cfg: Config, s: State, step: Step, now: int)
    requires Safe(cfg, s) && step.Verify? && DrawsFresh(s, step)
    ensures Safe(cfg, Next(cfg, s, step, now))
  {
    hide Safe;
    hide KnownId;
    hide KnownHash;
    var t := Next(cfg, s, step, now);
    var (registry, r) := VerifyCandidate(s.registry, step.token, step.key, step.displayName, step.seenHost, step.newId, now);
    if r.Ok? {
      ReviewIsSafe(cfg, s, t, step.token, step.newId, r.value);
    } else {
      assert Shrinks(s.registry, registry);
      ShrinkIsSafe(cfg, s, t);
    }
  }

  /** A decision about a pending candidate. */
  lemma DecisionIsSafe(cfg: Config, s: State, t: State, id: CandidateId, e: Event, granted: seq<Capability>)
    requires Safe(cfg, s) && id in s.registry.candidates && s.registry.candidates[id].phase == Pending
    requires Decides(e, id) && t.log == s.log + [e]
    requires forall h | h in t.registry.tokens :: h in s.registry.tokens && t.registry.tokens[h] == s.registry.tokens[h]
    requires forall c | c in t.registry.candidates ::
               c in s.registry.candidates && t.registry.candidates[c] == Decided(s, c, id)
    requires t.confirmations
          == if e.Claimed? then s.confirmations[id := Confirmation(Decided(s, id, id), granted, AwaitingHost)] else s.confirmations
    ensures Safe(cfg, t)
  {
    var c := s.registry.candidates[id];
    LogGrows(s.log, e);
    TermsGrow(s, t, e);
    EnrollmentsGrow(cfg, s, t, e);
    ReviewIsKnown(s.log, c.tokenHash, id, c.remoteStaticPublicKey);
    PendingIsNotConfirmed(cfg, s, id);
    NoRepetition(s, t, e);
    KnowledgeGrows(s, t, e);
    assert TermsMatchLog(t.log, id, Decided(s, id, id));
    DecisionKeepsRecords(s, t, id, e, granted);
  }

  /** The candidate as it stands after a decision about decided. */
  function Decided(s: State, c: CandidateId, decided: CandidateId): Candidate
    requires c in s.registry.candidates
  {
    if c == decided then s.registry.candidates[c].(phase := Confirming) else s.registry.candidates[c]
  }

  lemma DecisionKeepsRecords(s: State, t: State, id: CandidateId, e: Event, granted: seq<Capability>)
    requires TokensMatchLog(s) && CandidatesMatchLog(s) && ConfirmationsMatchLog(s) && id in s.registry.candidates
    requires Decides(e, id) && t.log == s.log + [e] && TermsMatchLog(t.log, id, Decided(s, id, id))
    requires forall h | h in t.registry.tokens :: h in s.registry.tokens && t.registry.tokens[h] == s.registry.tokens[h]
    requires forall c | c in t.registry.candidates :: c in s.registry.candidates && t.registry.candidates[c] == Decided(s, c, id)
    requires forall i, h: Hash :: !EnrolledAt(s.log, i, h, id)
    requires t.confirmations
          == if e.Claimed? then s.confirmations[id := Confirmation(Decided(s, id, id), granted, AwaitingHost)] else s.confirmations
    ensures TokensMatchLog(t) && CandidatesMatchLog(t) && ConfirmationsMatchLog(t)
  {
    hide TermsMatchLog;
    hide IssuedAs;
    hide KnownHash;
    hide KnownId;
    hide ReviewedAt;
    hide DecidedAt;
    hide EnrolledAt;
    LogGrows(s.log, e);
    TermsGrow(s, t, e);
  }

  lemma PendingIsNotConfirmed(cfg: Config, s: State, id: CandidateId)
    requires Safe(cfg, s) && id in s.registry.candidates && s.registry.candidates[id].phase == Pending
    ensures id !in s.confirmations && forall i, h: Hash :: !EnrolledAt(s.log, i, h, id)
  {
    if id in s.confirmations {
      DecisionIsAt(s.log, Claimed(id), id);
    }
  }

  lemma ConfirmIsSafe(cfg: Config, s: State, step: Step, now: int)
    requires Safe(cfg, s) && step.Confirm?
    ensures Safe(cfg, Next(cfg, s, step, now))
  {
    hide Safe;
    var t, id := Next(cfg, s, step, now), step.id;
    if id in s.registry.candidates && s.registry.candidates[id].phase == Pending {
      if now > s.registry.candidates[id].expiresAt {
        BurnShrinks(s.registry, id);
        assert t.registry != s.registry;
        DecisionIsSafe(cfg, s, t, id, Lapsed(id), []);
      } else {
        DecisionIsSafe(cfg, s, t, id, Claimed(id), step.granted);
      }
    }
  }

  lemma RejectIsSafe(cfg: Config, s: State, step: Step, now: int)
    requires Safe(cfg, s) && step.RejectPairing?
    ensures Safe(cfg, Next(cfg, s, step, now))
  {
    hide Safe;
    var t, id := Next(cfg, s, step, now), step.rejected;
    if id in s.registry.candidates && s.registry.candidates[id].phase == Pending {
      BurnShrinks(s.registry, id);
      DecisionIsSafe(cfg, s, t, id, Declined(id), []);
    }
  }

  lemma EndIsSafe(cfg: Config, s: State, id: CandidateId, progress: Progress, burn: bool)
    requires Safe(cfg, s) && id in s.confirmations && !progress.AwaitingHost?
    ensures Safe(cfg, s.(registry := if burn then Burn(s.registry, id) else s.registry,
                         confirmations := s.confirmations[id := s.confirmations[id].(progress := progress)]))
  {
    hide TermsMatchLog;
    hide WithinTerms;
    hide Burn;
    hide IssuedAs;
    hide KnownHash;
    hide KnownId;
    hide ReviewedAt;
    hide DecidedAt;
    hide EnrolledAt;
    BurnShrinks(s.registry, id);
    var u := s.(registry := if burn then Burn(s.registry, id) else s.registry);
    ShrinkIsSafe(cfg, s, u);
  }

  lemma EnrollIsSafe(cfg: Config, s: State, step: Step, now: int)
    requires Safe(cfg, s) && step.Enroll?
    ensures Safe(cfg, Next(cfg, s, step, now))
  {
    hide Safe;
    hide Stage;
    var t, id := Next(cfg, s, step, now), step.claimed;
    if id in s.confirmations && s.confirmations[id].progress.AwaitingHost? {
      var c := s.confirmations[id];
      var progress := t.confirmations[id].progress;
      var req := Trust(c.tx.remoteStaticPublicKey, c.tx.displayName, c.granted, c.tx.host.trustDomainId);
      var stage := Stage(cfg.fp, cfg.maxDevices, s.devices, req, now);
      var u := s.(confirmations := s.confirmations[id := c.(progress := progress)]);
      EndIsSafe(cfg, s, id, progress, progress.Over?);
      if t.log != s.log {
        StagedRecord(cfg, s.devices, req, now);
        EnrollmentIsSafe(cfg, s, u, t, id, stage.answer.record);
      } else {
        SameIsSafe(cfg, if progress.Over? then u.(registry := Burn(s.registry, id)) else u, t);
      }
    }
  }

  lemma SameIsSafe(cfg: Config, s: State, t: State)
    requires Safe(cfg, s) && t == s.(devices := t.devices)
    ensures Safe(cfg, t)
  {}

  /** What a successful trust request returns. */
  lemma StagedRecord(cfg: Config, devices: Devices, req: Request, now: int)
    requires req.Trust? && Stage(cfg.fp, cfg.maxDevices, devices, req, now).Change?
    ensures var answer := Stage(cfg.fp, cfg.maxDevices, devices, req, now).answer;
            && answer.Snapshot?
            && answer.record.deviceId == cfg.fp(req.key) && answer.record.trustDomainId == req.domain
            && answer.record.grantedCapabilities == AsSet(req.capabilities)
  {}

  lemma EnrollmentIsSafe(cfg: Config, s: State, u: State, t: State, id: CandidateId, record: StoredDeviceRecord)
    requires Safe(cfg, s) && Safe(cfg, u) && id in s.confirmations && s.confirmations[id].progress.AwaitingHost?
    requires u.registry == s.registry && u.log == s.log
    requires forall c :: c in u.confirmations <==> c in s.confirmations
    requires id in u.confirmations && u.confirmations[id].tx == s.confirmations[id].tx && !u.confirmations[id].progress.AwaitingHost?
    requires var c := s.confirmations[id];
             && IsSubset(c.granted, c.tx.maxAllowed) && record.grantedCapabilities == AsSet(c.granted)
             && record.trustDomainId == c.tx.host.trustDomainId && record.deviceId == cfg.fp(c.tx.remoteStaticPublicKey)
             && t == u.(devices := t.devices, log := s.log + [Enrolled(c.tx.tokenHash, id, record, c.granted)])
    ensures Safe(cfg, t)
  {
    var c := s.confirmations[id];
    var e := Enrolled(c.tx.tokenHash, id, record, c.granted);
    EnrollmentTerms(cfg, s.log, id, c, record);
    NotEnrolledYet(cfg, s, id);
    hide WithinTerms;
    hide IsSubset;
    hide TermsMatchLog;
    hide EnrolledAt;
    EnrollmentsGrow(cfg, u, t, e);
    NoRepetition(u, t, e);
    KnowledgeGrows(u, t, e);
    EnrollmentKeepsRecords(u, t, id, e);
  }

  lemma EnrollmentTerms(cfg: Config, log: seq<Event>, id: CandidateId, c: Confirmation, record: StoredDeviceRecord)
    requires TermsMatchLog(log, id, c.tx) && IsSubset(c.granted, c.tx.maxAllowed)
    requires record.grantedCapabilities == AsSet(c.granted)
    requires record.trustDomainId == c.tx.host.trustDomainId && record.deviceId == cfg.fp(c.tx.remoteStaticPublicKey)
    ensures var e := Enrolled(c.tx.tokenHash, id, record, c.granted); WithinTerms(cfg, log + [e], e)
  {
    var e := Enrolled(c.tx.tokenHash, id, record, c.granted);
    var longer := log + [e];
    assert Reviewed(e.hash, e.id, c.tx.remoteStaticPublicKey) in longer && IssuedAs(longer, e.hash, c.tx.maxAllowed, c.tx.host);
  }

  lemma EnrollmentKeepsRecords(u: State, t: State, id: CandidateId, e: Event)
    requires TokensMatchLog(u) && CandidatesMatchLog(u) && ConfirmationsMatchLog(u)
    requires e.Enrolled? && e.id == id && t.log == u.log + [e] && t.registry == u.registry && t.confirmations == u.confirmations
    requires id in u.confirmations && !u.confirmations[id].progress.AwaitingHost?
    ensures TokensMatchLog(t) && CandidatesMatchLog(t) && ConfirmationsMatchLog(t)
  {
    hide TermsMatchLog;
    hide IssuedAs;
    hide KnownHash;
    hide KnownId;
    hide ReviewedAt;
    hide DecidedAt;
    hide EnrolledAt;
    LogGrows(u.log, e);
    TermsGrow(u, t, e);
  }

  lemma NotEnrolledYet(cfg: Config, s: State, id: CandidateId)
    requires Safe(cfg, s) && id in s.confirmations && s.confirmations[id].progress.AwaitingHost?
    ensures forall i, d: CandidateId :: !EnrolledAt(s.log, i, s.confirmations[id].tx.tokenHash, d)
  {
    forall d | d in s.confirmations && s.confirmations[d].tx.tokenHash == s.confirmations[id].tx.tokenHash ensures d == id {
      OneTokenOneConfirmation(cfg, s, id, d);
    }
  }

  lemma OneTokenOneConfirmation(cfg: Config, s: State, c: CandidateId, d: CandidateId)
    requires Safe(cfg, s) && c in s.confirmations && d in s.confirmations
    requires s.confirmations[c].tx.tokenHash == s.confirmations[d].tx.tokenHash
    ensures c == d
  {
    var h := s.confirmations[c].tx.tokenHash;
    ReviewIsKnown(s.log, h, c, s.confirmations[c].tx.remoteStaticPublicKey);
    ReviewIsKnown(s.log, h, d, s.confirmations[d].tx.remoteStaticPublicKey);
    var j :| ReviewedAt(s.log, j, h, c);
    var k :| ReviewedAt(s.log, k, h, d);
    assert j == k;
  }

  lemma StepIsSafe(cfg: Config, s: State, step: Step, now: int)
    requires Safe(cfg, s) && DrawsFresh(s, step)
    ensures Safe(cfg, Next(cfg, s, step, now))
  {
    match step
    case Create(_, _, _, _) => CreateIsSafe(cfg, s, step, now);
    case Verify(_, _, _, _, _) => VerifyIsSafe(cfg, s, step, now);
    case Confirm(_, _) => ConfirmIsSafe(cfg, s, step, now);
    case Enroll(_, _, _) => EnrollIsSafe(cfg, s, step, now);
    case RejectPairing(_) => RejectIsSafe(cfg, s, step, now);
    case Finish(id) => FinishIsSafe(cfg, s, id, now);
    case DevicesChange(devices) => SameIsSafe(cfg, s, s.(devices := devices));
  }

  lemma FinishIsSafe(cfg: Config, s: State, id: CandidateId, now: int)
    requires Safe(cfg, s)
    ensures Safe(cfg, Next(cfg, s, Finish(id), now))
  {
    hide Safe;
    hide Burn;
    var t := Next(cfg, s, Finish(id), now);
    if id in s.confirmations && s.confirmations[id].progress.AwaitingStore? {
      EndIsSafe(cfg, s, id, t.confirmations[id].progress, true);
    }
  }
}
