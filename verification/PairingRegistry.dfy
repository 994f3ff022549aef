/** The pairing registry and the coordinator as objects, against the steps of the protocol. */
module PairingRegistries {

  import opened Wrappers
  import opened Protocol
  import opened DeviceRecords
  import opened DeviceRequests
  import opened Pairing

  class PairingTokenRegistry {
    const cfg: Config
    var tokens: map<Hash, TokenRecord>
    var candidates: map<CandidateId, Candidate>

    function View(): Registry
      reads this
    {
      Registry(tokens, candidates)
    }

    constructor (cfg: Config)
      ensures this.cfg == cfg && View() == Registry(map[], map[])
    {
      this.cfg := cfg;
      tokens, candidates := map[], map[];
    }

    method PruneExpired(now: int)
      modifies this
      ensures View() == Pairing.PruneExpired(old(View()), now)
    {
      ghost var before := View();
      var rest := tokens.Keys;
      PrunedAtEnds(before, now);
      while rest != {}
        invariant rest <= before.tokens.Keys
        invariant View() == PrunedBut(before, rest, now)
        decreases rest
      {
        hide PrunedBut;
        var h :| h in rest;
        PrunedOneMore(before, rest, h, now);
        var record := tokens[h];
        if now > record.expiresAt {
          tokens := tokens - {h};
          if record.inReview.Some? {
            candidates := candidates - {record.inReview.value};
          }
        }
        rest := rest - {h};
      }
    }

    method CreateToken(host: Host, ttl: Option<int>, allowed: Option<seq<Capability>>, hash: Hash, now: int)
      returns (r: Result<TokenRecord, PairingError>)
      modifies this
      ensures (View(), r) == Pairing.CreateToken(cfg, old(View()), host, ttl, allowed, hash, now)
    {
      hide Pairing.PruneExpired;
      PruneExpired(now);
      if |tokens| >= cfg.maxPending { return Err(TokensExhausted); }
      var life := cfg.defaultTtl;
      if ttl.Some? {
        if ttl.value <= 0 || ttl.value > cfg.maxTtl { return Err(BadTtl); }
        life := ttl.value;
      }
      var record := TokenRecord(now + life, if allowed.Some? then allowed.value else [Observe], host, None);
      tokens := tokens[hash := record];
      return Ok(record);
    }

    method VerifyCandidate(hash: Hash, key: seq<Octet>, displayName: string, host: Host, id: CandidateId, now: int)
      returns (r: Result<Candidate, PairingError>)
      modifies this
      ensures (View(), r) == Pairing.VerifyCandidate(old(View()), hash, key, displayName, host, id, now)
    {
      if hash !in tokens { return Err(PairingFailed); }
      var record := tokens[hash];
      if now > record.expiresAt || record.inReview.Some? {
        if now > record.expiresAt { tokens := tokens - {hash}; }
        return Err(PairingFailed);
      }
      if record.host != host {
        tokens := tokens - {hash};
        return Err(PairingFailed);
      }
      var candidate := Candidate(key, displayName, record.allowed, hash, record.host, record.expiresAt, Pending);
      tokens := tokens[hash := record.(inReview := Some(id))];
      candidates := candidates[id := candidate];
      return Ok(candidate);
    }

    method BurnCandidateAndToken(id: CandidateId)
      modifies this
      ensures View() == Burn(old(View()), id)
    {
      if id in candidates {
        tokens, candidates := tokens - {candidates[id].tokenHash}, candidates - {id};
      }
    }

    method ClaimCandidateForConfirmation(id: CandidateId, now: int) returns (r: Result<Candidate, PairingError>)
      modifies this
      ensures (View(), r) == Claim(old(View()), id, now)
    {
      if id !in candidates || candidates[id].phase != Pending { return Err(PairingFailed); }
      var candidate := candidates[id];
      if now > candidate.expiresAt {
        BurnCandidateAndToken(id);
        return Err(PairingFailed);
      }
      candidates := candidates[id := candidate.(phase := Confirming)];
      return Ok(candidates[id]);
    }

    method RejectCandidate(id: CandidateId) returns (rejected: bool)
      modifies this
      ensures (View(), rejected) == Reject(old(View()), id)
    {
      if id !in candidates || candidates[id].phase != Pending { return false; }
      BurnCandidateAndToken(id);
      return true;
    }
  }

  /** The registry when the tokens in rest are still to be looked at. */
  function PrunedBut(r: Registry, rest: set<Hash>, now: int): Registry {
    Registry(
      map h | h in r.tokens && (h in rest || !Expired(r.tokens[h], now)) :: r.tokens[h],
      map c | c in r.candidates && !Abandoned(r, rest, now, c) :: r.candidates[c])
  }

  predicate Abandoned(r: Registry, rest: set<Hash>, now: int, c: CandidateId) {
    exists h :: h in r.tokens && h !in rest && Expired(r.tokens[h], now) && r.tokens[h].inReview == Some(c)
  }

  lemma PrunedAtEnds(r: Registry, now: int)
    ensures PrunedBut(r, r.tokens.Keys, now) == r
    ensures PrunedBut(r, {}, now) == PruneExpired(r, now)
  {
    assert PrunedBut(r, r.tokens.Keys, now).candidates == r.candidates;
    assert PrunedBut(r, {}, now).candidates == PruneExpired(r, now).candidates;
    assert PrunedBut(r, {}, now).tokens == PruneExpired(r, now).tokens;
  }

  lemma PrunedOneMore(r: Registry, rest: set<Hash>, h: Hash, now: int)
    requires h in rest && rest <= r.tokens.Keys
    ensures var p := PrunedBut(r, rest, now);
            var t := r.tokens[h];
            && h in p.tokens && p.tokens[h] == t
            && PrunedBut(r, rest - {h}, now)
               == if Expired(t, now) then Registry(p.tokens - {h}, if t.inReview.Some? then p.candidates - {t.inReview.value} else p.candidates)
                  else p
  {
    var p, q, t := PrunedBut(r, rest, now), PrunedBut(r, rest - {h}, now), r.tokens[h];
    assert q.tokens == if Expired(t, now) then p.tokens - {h} else p.tokens;
    forall c: CandidateId
      ensures Abandoned(r, rest - {h}, now, c) <==> Abandoned(r, rest, now, c) || (Expired(t, now) && t.inReview == Some(c))
    {}
    hide Abandoned;
    assert q.candidates == if Expired(t, now) && t.inReview.Some? then p.candidates - {t.inReview.value} else p.candidates;
  }

  /** The coordinator: the segments of a confirmation between its awaits. */
  class PairingCoordinator {
    const cfg: Config
    const registry: PairingTokenRegistry
    var confirmations: map<CandidateId, Confirmation>
    var devices: Devices
    ghost var log: seq<Event>

    ghost function View(): State
      reads this, registry
    {
      State(registry.View(), confirmations, devices, log)
    }

    constructor (cfg: Config, devices: Devices)
      ensures this.cfg == cfg && fresh(registry) && registry.cfg == cfg
      ensures View() == State(Registry(map[], map[]), map[], devices, [])
    {
      this.cfg, this.devices := cfg, devices;
      registry := new PairingTokenRegistry(cfg);
      confirmations, log := map[], [];
    }

    /** Nothing is verified before the channel is authenticated and the host identity is known. */
    method InitiatePairing(authenticated: bool, token: Hash, key: seq<Octet>, displayName: string, host: Option<Host>, newId: CandidateId, now: int)
      returns (r: Result<Candidate, PairingError>)
      modifies this`log, registry
      ensures !authenticated ==> r == Err(NotAuthenticated)
      ensures authenticated && host.None? ==> r == Err(HostUnavailable)
      ensures if authenticated && host.Some? then
                && View() == Next(cfg, old(View()), Verify(token, key, displayName, host.value, newId), now)
                && r == Pairing.VerifyCandidate(old(View()).registry, token, key, displayName, host.value, newId, now).1
              else View() == old(View())
    {
      if !authenticated { return Err(NotAuthenticated); }
      if host.None? { return Err(HostUnavailable); }
      r := registry.VerifyCandidate(token, key, displayName, host.value, newId, now);
      if r.Ok? { log := log + [Reviewed(token, newId, key)]; }
    }

    /** First segment: the claim comes before any await, so that one confirmation wins. */
    method BeginConfirmation(id: CandidateId, granted: seq<Capability>, now: int) returns (tx: Result<Candidate, PairingError>)
      modifies this`confirmations, this`log, registry
      ensures View() == Next(cfg, old(View()), Confirm(id, granted), now)
      ensures tx == Claim(old(View()).registry, id, now).1
    {
      ghost var before := registry.View();
      tx := registry.ClaimCandidateForConfirmation(id, now);
      if tx.Ok? {
        confirmations := confirmations[id := Confirmation(tx.value, granted, AwaitingHost)];
        log := log + [Claimed(id)];
      } else if registry.View() != before {
        log := log + [Lapsed(id)];
      }
    }

    method Finalize(id: CandidateId, answer: Result<Answer, PairingError>)
      requires id in confirmations
      modifies this`confirmations, registry
      ensures View() == EndStep(old(View()), id, answer)
    {
      registry.BurnCandidateAndToken(id);
      confirmations := confirmations[id := confirmations[id].(progress := Over(answer))];
    }

    /** Second segment: host rotation and capability escalation are checked, then the device is enrolled. A failed
        lookup of the host ends the transaction as well. */
    method ContinueConfirmation(id: CandidateId, host: Option<Host>, committed: bool, now: int)
      requires id in confirmations && confirmations[id].progress.AwaitingHost?
      modifies this, registry
      ensures View() == Next(cfg, old(View()), Enroll(id, host, committed), now)
    {
      hide Stage;
      var c := confirmations[id];
      if host.None? {
        Finalize(id, Err(HostUnavailable));
        return;
      }
      if c.tx.host != host.value {
        Finalize(id, Err(HostRotated));
        return;
      }
      if !IsSubset(c.granted, c.tx.maxAllowed) {
        Finalize(id, Err(EscalationDenied));
        return;
      }
      var staged := Stage(cfg.fp, cfg.maxDevices, devices,
                          Trust(c.tx.remoteStaticPublicKey, c.tx.displayName, c.granted, c.tx.host.trustDomainId), now);
      match staged
      case Change(after, answer) =>
        if !committed {
          confirmations := confirmations[id := c.(progress := AwaitingStore(Err(CommitFailed)))];
          return;
        }
        devices := after;
        confirmations := confirmations[id := c.(progress := AwaitingStore(Ok(answer)))];
        if answer.Snapshot? { log := log + [Enrolled(c.tx.tokenHash, id, answer.record, c.granted)]; }
      case Refused(error) => confirmations := confirmations[id := c.(progress := AwaitingStore(Err(error)))];
      case NoChange(answer) => confirmations := confirmations[id := c.(progress := AwaitingStore(Ok(answer)))];
    }

    /** Third segment: whatever the store answered, the transaction ends and the token is burned. */
    method EndConfirmation(id: CandidateId, now: int)
      requires id in confirmations && confirmations[id].progress.AwaitingStore?
      modifies this`confirmations, registry
      ensures View() == Next(cfg, old(View()), Finish(id), now)
    {
      var result := confirmations[id].progress.result;
      match result
      case Ok(answer) => Finalize(id, Ok(answer));
      case Err(error) => Finalize(id, Err(Enrollment(error)));
    }

    method RejectPairing(id: CandidateId, now: int) returns (rejected: bool)
      modifies this`log, registry
      ensures View() == Next(cfg, old(View()), Step.RejectPairing(id), now)
      ensures rejected == Reject(old(View()).registry, id).1
    {
      rejected := registry.RejectCandidate(id);
      if rejected { log := log + [Declined(id)]; }
    }
  }
}
