/** What each step of pairing does, exactly: when a token is issued, verified, claimed, rejected and enrolled, with which
    terms, and over whole runs that a device is enrolled under the host that issued its token. */
module PairingOutcomes {

  import opened Wrappers
  import opened Protocol
  import opened DeviceRecords
  import opened DeviceRequests
  import opened Pairing
  import opened PairingSafety
  import opened PairingRuns

  /** Pruning takes the expired tokens, and the candidates under their review; everything else stays as it is. */
  lemma PruneOutcome(r: Registry, now: int)
    ensures var p := PruneExpired(r, now);
            && (forall h :: h in p.tokens <==> h in r.tokens && now <= r.tokens[h].expiresAt)
            && (forall h | h in p.tokens :: p.tokens[h] == r.tokens[h])
            && (forall c :: c in p.candidates <==>
                  c in r.candidates && forall h | h in r.tokens && r.tokens[h].inReview == Some(c) :: now <= r.tokens[h].expiresAt)
            && (forall c | c in p.candidates :: p.candidates[c] == r.candidates[c])
  {}

  /** A token: issued when there is room and its time to live is allowed, for the least privilege unless more is asked. */
  lemma CreateOutcome(cfg: Config, r: Registry, host: Host, ttl: Option<int>, allowed: Option<seq<Capability>>, hash: Hash, now: int)
    ensures var (q, answer) := CreateToken(cfg, r, host, ttl, allowed, hash, now);
            var p := PruneExpired(r, now);
            var room, timely := |p.tokens| < cfg.maxPending, ttl.Some? ==> 1 <= ttl.value <= cfg.maxTtl;
            && (answer.Ok? <==> room && timely)
            && (answer == Err(TokensExhausted) <==> !room)
            && (answer == Err(BadTtl) <==> room && !timely)
            && q.candidates == p.candidates
            && (answer.Err? ==> q.tokens == p.tokens)
            && (answer.Ok? ==>
                  && q.tokens == p.tokens[hash := answer.value]
                  && answer.value.expiresAt == now + (if ttl.Some? then ttl.value else cfg.defaultTtl)
                  && answer.value.allowed == (if allowed.Some? then allowed.value else [Observe])
                  && answer.value.host == host && answer.value.inReview == None)
  {
    hide PruneExpired;
  }

  /** A token is reviewed once, in time and for its own host; a late one and one of another host are spent. */
  lemma VerifyOutcome(r: Registry, hash: Hash, key: seq<Octet>, name: string, host: Host, id: CandidateId, now: int)
    ensures var (q, answer) := VerifyCandidate(r, hash, key, name, host, id, now);
            var known := hash in r.tokens;
            var late := known && now > r.tokens[hash].expiresAt;
            var free := known && r.tokens[hash].inReview == None;
            var own := known && r.tokens[hash].host == host;
            && (answer.Ok? <==> known && !late && free && own)
            && (answer.Err? ==> answer.error == PairingFailed && q.candidates == r.candidates)
            && (answer.Err? ==> q.tokens == if late || (free && !own) then r.tokens - {hash} else r.tokens)
            && (answer.Ok? ==>
                  && q.tokens == r.tokens[hash := r.tokens[hash].(inReview := Some(id))]
                  && q.candidates == r.candidates[id := answer.value]
                  && answer.value == Candidate(key, name, r.tokens[hash].allowed, hash, r.tokens[hash].host, r.tokens[hash].expiresAt, Pending))
  {}

  /** The first confirmation in time wins the candidate; a late one burns it with its token. */
  lemma ClaimOutcome(r: Registry, id: CandidateId, now: int)
    ensures var (q, answer) := Claim(r, id, now);
            var pending := id in r.candidates && r.candidates[id].phase == Pending;
            && (answer.Ok? <==> pending && now <= r.candidates[id].expiresAt)
            && (answer.Err? ==> answer.error == PairingFailed)
            && (answer.Ok? ==> q.tokens == r.tokens && q.candidates == r.candidates[id := answer.value]
                               && answer.value == r.candidates[id].(phase := Confirming))
            && (answer.Err? && !pending ==> q == r)
            && (answer.Err? && pending ==> q.candidates == r.candidates - {id} && q.tokens == r.tokens - {r.candidates[id].tokenHash})
  {}

  /** A rejection takes a pending candidate and its token, and nothing that is being confirmed. */
  lemma RejectOutcome(r: Registry, id: CandidateId)
    ensures var (q, rejected) := Reject(r, id);
            && (rejected <==> id in r.candidates && r.candidates[id].phase == Pending)
            && (!rejected ==> q == r)
            && (rejected ==> q.candidates == r.candidates - {id} && q.tokens == r.tokens - {r.candidates[id].tokenHash})
  {}

  predicate Burned(before: Registry, after: Registry, id: CandidateId) {
    && after.candidates == before.candidates - {id}
    && after.tokens == if id in before.candidates then before.tokens - {before.candidates[id].tokenHash} else before.tokens
  }

  lemma BurnBurns(r: Registry, id: CandidateId)
    ensures Burned(r, Burn(r, id), id)
  {}

  /** The answer of the host lookup decides: a failed lookup, another host or an escalation ends the confirmation and burns
      candidate and token; otherwise the device is enrolled if the store takes it, and the store's answer is awaited. */
  lemma EnrollOutcome(cfg: Config, s: State, id: CandidateId, host: Option<Host>, committed: bool, now: int)
    requires id in s.confirmations && s.confirmations[id].progress.AwaitingHost?
    ensures var t := Next(cfg, s, Enroll(id, host, committed), now);
            var c := s.confirmations[id];
            var same, within := host == Some(c.tx.host), forall g | g in c.granted :: g in c.tx.maxAllowed;
            var staged := Stage(cfg.fp, cfg.maxDevices, s.devices, Trust(c.tx.remoteStaticPublicKey, c.tx.displayName, c.granted, c.tx.host.trustDomainId), now);
            && t.confirmations.Keys == s.confirmations.Keys && id in t.confirmations
            && (forall other | other in s.confirmations && other != id :: t.confirmations[other] == s.confirmations[other])
            && t.confirmations[id].tx == c.tx && t.confirmations[id].granted == c.granted
            && var end := t.confirmations[id].progress;
               && (host.None? ==> end == Over(Err(HostUnavailable)))
               && (host.Some? && !same ==> end == Over(Err(HostRotated)))
               && (same && !within ==> end == Over(Err(EscalationDenied)))
               && (same && within && staged.Refused? ==> end == AwaitingStore(Err(staged.error)))
               && (same && within && staged.Change? && !committed ==> end == AwaitingStore(Err(CommitFailed)))
               && (same && within && staged.Change? && committed ==> end == AwaitingStore(Ok(staged.answer)))
               && (if same && within then t.registry == s.registry else Burned(s.registry, t.registry, id))
               && (if same && within && staged.Change? && committed
                   then t.devices == staged.devices && t.log == s.log + [Enrolled(c.tx.tokenHash, id, staged.answer.record, c.granted)]
                   else t.devices == s.devices && t.log == s.log)
  {
    BurnBurns(s.registry, id);
    hide Burn;
    var c := s.confirmations[id];
    TrustAnswers(cfg, s.devices, Trust(c.tx.remoteStaticPublicKey, c.tx.displayName, c.granted, c.tx.host.trustDomainId), now);
    hide Stage;
  }

  lemma TrustAnswers(cfg: Config, devices: Devices, req: Request, now: int)
    requires req.Trust?
    ensures var staged := Stage(cfg.fp, cfg.maxDevices, devices, req, now);
            !staged.NoChange? && (staged.Change? ==> staged.answer.Snapshot?)
  {}

  /** Whatever the store answered, the confirmation ends with that answer, and candidate and token are burned. */
  lemma FinishOutcome(cfg: Config, s: State, id: CandidateId, now: int)
    requires id in s.confirmations && s.confirmations[id].progress.AwaitingStore?
    ensures var t, result := Next(cfg, s, Finish(id), now), s.confirmations[id].progress.result;
            && t.confirmations == s.confirmations[id := s.confirmations[id].(progress :=
                 Over(if result.Ok? then Ok(result.value) else Err(Enrollment(result.error))))]
            && Burned(s.registry, t.registry, id) && t.devices == s.devices && t.log == s.log
  {
    BurnBurns(s.registry, id);
    hide Burn;
  }

  // ----- whole runs -----

  lemma OneEventAStep(cfg: Config, s: State, step: Step, now: int)
    ensures var t := Next(cfg, s, step, now);
            t.log == s.log
            || (|t.log| == |s.log| + 1 && t.log[..|s.log|] == s.log && (t.log[|s.log|].Enrolled? ==> step.Enroll?))
  {
    hide Claim;
    hide Reject;
    hide Burn;
    hide CreateToken;
    hide VerifyCandidate;
    hide Stage;
  }

  /** The step that enrolled a device: the host of that moment was the one that issued the token. */
  ghost predicate EnrolledIn(states: seq<State>, steps: seq<Step>, k: nat, e: Event)
    requires |states| == |steps| + 1 && k < |steps| && e.Enrolled?
  {
    && steps[k].Enroll? && steps[k].claimed == e.id && steps[k].committed && steps[k].currentHost.Some?
    && exists allowed :: Issued(e.hash, allowed, steps[k].currentHost.value) in states[k].log
  }

  lemma EnrolledUnder(cfg: Config, s: State, step: Step, now: int) returns (allowed: seq<Capability>)
    requires Safe(cfg, s) && step.Enroll? && Next(cfg, s, step, now).log != s.log
    ensures step.committed && step.currentHost.Some?
    ensures var e := Next(cfg, s, step, now).log[|s.log|];
            e.Enrolled? && e.id == step.claimed && Issued(e.hash, allowed, step.currentHost.value) in s.log
  {
    hide Burn;
    hide Stage;
    var c := s.confirmations[step.claimed];
    assert TermsMatchLog(s.log, step.claimed, c.tx);
    allowed := c.tx.maxAllowed;
  }

  /** Over every run: each device was enrolled in a step whose host is the one that the token was issued by, so a token
      does not outlive a rotation of the host identity. */
  lemma {:induction false} EnrolledByItsIssuer(cfg: Config, states: seq<State>, steps: seq<Step>, times: seq<int>, i: nat, j: nat)
    returns (k: nat)
    requires RunOf(cfg, states, steps, times) && i < |states| && j < |states[i].log| && states[i].log[j].Enrolled?
    ensures k < i && EnrolledIn(states, steps, k, states[i].log[j])
    decreases i
  {
    hide Safe;
    hide Next;
    hide DrawsFresh;
    var s, step, now := states[i - 1], steps[i - 1], times[i - 1];
    assert states[i] == Next(cfg, s, step, now);
    OneEventAStep(cfg, s, step, now);
    if j < |s.log| {
      assert states[i].log[j] == s.log[j];
      k := EnrolledByItsIssuer(cfg, states, steps, times, i - 1, j);
    } else {
      k := i - 1;
      EveryStateIsSafe(cfg, states, steps, times, i - 1);
      var allowed := EnrolledUnder(cfg, s, step, now);
    }
  }
}
