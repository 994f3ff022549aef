/** Pairing: one-time tokens, candidates under review, and the confirmation as three atomic segments. */
module Pairing {

  import opened Wrappers
  import opened Protocol
  import opened DeviceRecords
  import opened DeviceRequests

  /** Random values: the hash of a token, and the id of a candidate. */
  type Hash = nat
  type CandidateId = nat

  datatype Phase = Pending | Confirming | Consumed

  /** The host that a token was issued by: its trust domain and its generation. */
  datatype Host = Host(trustDomainId: string, generation: nat)

  datatype TokenRecord = TokenRecord(expiresAt: int, allowed: seq<Capability>, host: Host, inReview: Option<CandidateId>)

  datatype Candidate = Candidate(
    remoteStaticPublicKey: seq<Octet>,
    displayName: string,
    maxAllowed: seq<Capability>,
    tokenHash: Hash,
    host: Host,
    expiresAt: int,
    phase: Phase)

  datatype Config = Config(fp: FingerprintFn, maxPending: nat, defaultTtl: int, maxTtl: int, maxDevices: nat)

  datatype PairingError = TokensExhausted | BadTtl | PairingFailed | NotAuthenticated | HostUnavailable | HostRotated | EscalationDenied | Enrollment(error: TrustError)

  // ----- the registry -----

  datatype Registry = Registry(tokens: map<Hash, TokenRecord>, candidates: map<CandidateId, Candidate>)

  predicate Expired(t: TokenRecord, now: int) {
    now > t.expiresAt
  }

  /** Expired tokens go, with the candidates that they have in review. */
  function PruneExpired(r: Registry, now: int): Registry {
    Registry(
      map h | h in r.tokens && !Expired(r.tokens[h], now) :: r.tokens[h],
      map c | c in r.candidates && !(exists h :: h in r.tokens && Expired(r.tokens[h], now) && r.tokens[h].inReview == Some(c)) :: r.candidates[c])
  }

  function CreateToken(cfg: Config, r: Registry, host: Host, ttl: Option<int>, allowed: Option<seq<Capability>>, hash: Hash, now: int)
    : (Registry, Result<TokenRecord, PairingError>)
  {
    var pruned := PruneExpired(r, now);
    if |pruned.tokens| >= cfg.maxPending then (pruned, Err(TokensExhausted))
    else if ttl.Some? && (ttl.value <= 0 || ttl.value > cfg.maxTtl) then (pruned, Err(BadTtl))
    else
      var expiresAt := now + if ttl.Some? then ttl.value else cfg.defaultTtl;
      var record := TokenRecord(expiresAt, if allowed.Some? then allowed.value else [Observe], host, None);
      (pruned.(tokens := pruned.tokens[hash := record]), Ok(record))
  }

  /** A token starts at most one review; a token of another host is burned. */
  function VerifyCandidate(r: Registry, hash: Hash, key: seq<Octet>, displayName: string, host: Host, id: CandidateId, now: int)
    : (Registry, Result<Candidate, PairingError>)
  {
    if hash !in r.tokens then (r, Err(PairingFailed))
    else
      var t := r.tokens[hash];
      if Expired(t, now) then (r.(tokens := r.tokens - {hash}), Err(PairingFailed))
      else if t.inReview.Some? then (r, Err(PairingFailed))
      else if t.host != host then (r.(tokens := r.tokens - {hash}), Err(PairingFailed))
      else
        var c := Candidate(key, displayName, t.allowed, hash, t.host, t.expiresAt, Pending);
        (Registry(r.tokens[hash := t.(inReview := Some(id))], r.candidates[id := c]), Ok(c))
  }

  function Burn(r: Registry, id: CandidateId): Registry {
    if id in r.candidates then Registry(r.tokens - {r.candidates[id].tokenHash}, r.candidates - {id}) else r
  }

  /** The winner of a candidate: the first claim of a pending, unexpired one. */
  function Claim(r: Registry, id: CandidateId, now: int): (Registry, Result<Candidate, PairingError>) {
    if id !in r.candidates || r.candidates[id].phase != Pending then (r, Err(PairingFailed))
    else if now > r.candidates[id].expiresAt then (Burn(r, id), Err(PairingFailed))
    else
      var c := r.candidates[id].(phase := Confirming);
      (r.(candidates := r.candidates[id := c]), Ok(c))
  }

  function Reject(r: Registry, id: CandidateId): (Registry, bool) {
    if id in r.candidates && r.candidates[id].phase == Pending then (Burn(r, id), true) else (r, false)
  }

  // ----- the coordinator -----

  /** A confirmation in flight: waiting for the host identity, or for the trust store, or over. */
  datatype Progress = AwaitingHost | AwaitingStore(result: Result<Answer, TrustError>) | Over(answer: Result<Answer, PairingError>)

  datatype Confirmation = Confirmation(tx: Candidate, granted: seq<Capability>, progress: Progress)

  /** What an observer of the pairing protocol records. */
  datatype Event =
    | Issued(hash: Hash, allowed: seq<Capability>, host: Host)
    | Reviewed(hash: Hash, id: CandidateId, key: seq<Octet>)
    | Claimed(id: CandidateId)
    | Declined(id: CandidateId)
    | Lapsed(id: CandidateId)
    | Enrolled(hash: Hash, id: CandidateId, record: StoredDeviceRecord, granted: seq<Capability>)

  datatype State = State(registry: Registry, confirmations: map<CandidateId, Confirmation>, devices: Devices, log: seq<Event>)

  datatype Step =
    | Create(host: Host, ttl: Option<int>, allowed: Option<seq<Capability>>, hash: Hash)
    | Verify(token: Hash, key: seq<Octet>, displayName: string, seenHost: Host, newId: CandidateId)
    | Confirm(id: CandidateId, granted: seq<Capability>)
    | Enroll(claimed: CandidateId, currentHost: Option<Host>, committed: bool)
    | Finish(enrolled: CandidateId)
    | RejectPairing(rejected: CandidateId)
    | DevicesChange(devices: Devices)

  predicate IsSubset(granted: seq<Capability>, allowed: seq<Capability>) {
    forall c | c in granted :: c in allowed
  }

  /** The transaction is over: the candidate and its token are burned, whatever the outcome. */
  function EndStep(s: State, id: CandidateId, answer: Result<Answer, PairingError>): State
    requires id in s.confirmations
  {
    s.(registry := Burn(s.registry, id), confirmations := s.confirmations[id := s.confirmations[id].(progress := Over(answer))])
  }

  /** The second segment: the host identity has arrived, or its lookup has failed; the device is enrolled in the
      same tick, unless the store fails to commit. */
  function EnrollStep(cfg: Config, s: State, id: CandidateId, host: Option<Host>, committed: bool, now: int): State
    requires id in s.confirmations
  {
    var c := s.confirmations[id];
    if host.None? then EndStep(s, id, Err(HostUnavailable))
    else if c.tx.host != host.value then EndStep(s, id, Err(HostRotated))
    else if !IsSubset(c.granted, c.tx.maxAllowed) then EndStep(s, id, Err(EscalationDenied))
    else
      match Stage(cfg.fp, cfg.maxDevices, s.devices, Trust(c.tx.remoteStaticPublicKey, c.tx.displayName, c.granted, c.tx.host.trustDomainId), now)
      case Change(devices, answer) =>
        if !committed then s.(confirmations := s.confirmations[id := c.(progress := AwaitingStore(Err(CommitFailed)))])
        else s.(confirmations := s.confirmations[id := c.(progress := AwaitingStore(Ok(answer)))],
           devices := devices,
           log := if answer.Snapshot? then s.log + [Enrolled(c.tx.tokenHash, id, answer.record, c.granted)] else s.log)
      case Refused(error) => s.(confirmations := s.confirmations[id := c.(progress := AwaitingStore(Err(error)))])
      case NoChange(answer) => s.(confirmations := s.confirmations[id := c.(progress := AwaitingStore(Ok(answer)))])
  }

  function Next(cfg: Config, s: State, step: Step, now: int): State {
    match step
    case Create(host, ttl, allowed, hash) =>
      var (registry, r) := CreateToken(cfg, s.registry, host, ttl, allowed, hash, now);
      s.(registry := registry, log := if r.Ok? then s.log + [Issued(hash, r.value.allowed, host)] else s.log)
    case Verify(token, key, displayName, host, newId) =>
      var (registry, r) := VerifyCandidate(s.registry, token, key, displayName, host, newId, now);
      s.(registry := registry, log := if r.Ok? then s.log + [Reviewed(token, newId, key)] else s.log)
    case Confirm(id, granted) =>
      var (registry, r) := Claim(s.registry, id, now);
      if r.Ok? then
        s.(registry := registry, confirmations := s.confirmations[id := Confirmation(r.value, granted, AwaitingHost)], log := s.log + [Claimed(id)])
      else if registry != s.registry then s.(registry := registry, log := s.log + [Lapsed(id)])
      else s
    case Enroll(id, host, committed) =>
      if id in s.confirmations && s.confirmations[id].progress.AwaitingHost? then EnrollStep(cfg, s, id, host, committed, now) else s
    case Finish(id) =>
      if id in s.confirmations && s.confirmations[id].progress.AwaitingStore? then
        EndStep(s, id, match s.confirmations[id].progress.result case Ok(answer) => Ok(answer) case Err(error) => Err(Enrollment(error)))
      else s
    case RejectPairing(id) =>
      var (registry, rejected) := Reject(s.registry, id);
      s.(registry := registry, log := if rejected then s.log + [Declined(id)] else s.log)
    case DevicesChange(devices) => s.(devices := devices)
  }
}
