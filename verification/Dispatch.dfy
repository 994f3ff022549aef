/** Request dispatch as atomic segments that interleave freely: envelope check, authorization with the key
    reservation, and the operation that reaches the official seam. */
module Dispatch {

  import opened Wrappers
  import opened Protocol
  import opened DeviceRecords
  import opened DeviceRequests
  import opened CanonicalJson

  const PROTOCOL_VERSION := 1
  const MAX_SAFE_INTEGER := 9007199254740991

  datatype Peer = Peer(deviceId: string, connectionEpoch: int)

  datatype RemoteRequest = RemoteRequest(
    remoteMethod: RemoteMethod,
    protocolVersion: int,
    connectionEpoch: int,
    requestSeq: int,
    idempotencyKey: Option<string>,
    params: Json)

  /** The calls with a side effect on an official session. */
  datatype Mutation =
    | Followup(sessionId: Text, prompt: Text)
    | RespondApproval(callId: Text, approved: bool)
    | RespondQuestion(questionId: Text, answer: Json)

  /** An interaction that may be resolved once. */
  datatype Terminal = ApprovalOf(callId: Text) | QuestionOf(questionId: Text)

  datatype DispatchError =
    | InvalidRequest | ProtocolVersionUnsupported | EpochStale | EpochMismatch | RequestReplay
    | Unauthorized(reason: AuthorizationError)
    | IdempotencyRequired | IdempotencyConflict | AlreadyResolved | StateCapacityExceeded

  // ----- parameters -----

  function FieldOf(v: Json, name: string): Option<Json> {
    if !v.Obj? then None else FieldIn(v.fields, Ascii(name))
  }

  function FieldIn(fields: seq<Field>, key: Text): Option<Json> {
    if fields == [] then None
    else if fields[0].key == key then Some(fields[0].value)
    else FieldIn(fields[1..], key)
  }

  function RequiredString(v: Json, name: string): Option<Text> {
    match FieldOf(v, name)
    case Some(Str(s)) => if s == [] then None else Some(s)
    case _ => None
  }

  function ParseMutation(m: RemoteMethod, params: Json): Option<Mutation> {
    match m
    case PromptSubmit =>
      var sessionId, prompt := RequiredString(params, "sessionId"), RequiredString(params, "prompt");
      if sessionId.Some? && prompt.Some? then Some(Followup(sessionId.value, prompt.value)) else None
    case ApprovalRespond =>
      var callId, decision := RequiredString(params, "callId"), RequiredString(params, "decision");
      if callId.Some? && decision in {Some(Ascii("approved")), Some(Ascii("rejected"))}
      then Some(RespondApproval(callId.value, decision == Some(Ascii("approved"))))
      else None
    case QuestionRespond =>
      var questionId, answer := RequiredString(params, "questionId"), FieldOf(params, "answer");
      if questionId.Some? && answer.Some? then Some(RespondQuestion(questionId.value, answer.value)) else None
    case _ => None
  }

  predicate Mutates(m: RemoteMethod) {
    m in {PromptSubmit, ApprovalRespond, QuestionRespond}
  }

  /** The parsed parameters, as the object whose canonical text is the fingerprint. */
  function PayloadOf(op: Mutation): Json {
    match op
    case Followup(sessionId, prompt) =>
      Obj([Field(Ascii("sessionId"), Str(sessionId)), Field(Ascii("prompt"), Str(prompt))])
    case RespondApproval(callId, approved) =>
      Obj([Field(Ascii("callId"), Str(callId)), Field(Ascii("decision"), Str(Ascii(if approved then "approved" else "rejected")))])
    case RespondQuestion(questionId, answer) =>
      Obj([Field(Ascii("questionId"), Str(questionId)), Field(Ascii("answer"), answer)])
  }

  function TerminalOf(op: Mutation): Option<Terminal> {
    match op
    case Followup(_, _) => None
    case RespondApproval(callId, _) => Some(ApprovalOf(callId))
    case RespondQuestion(questionId, _) => Some(QuestionOf(questionId))
  }

  function MethodName(m: RemoteMethod): string {
    match m
    case SessionList => "session.list"
    case SessionAttach => "session.attach"
    case PromptSubmit => "prompt.submit"
    case ApprovalRespond => "approval.respond"
    case QuestionRespond => "question.respond"
    case StreamAck => "stream.ack"
    case Ping => "ping"
  }

  /** The text under which a key is reserved. */
  function KeyOf(deviceId: string, m: RemoteMethod, idempotencyKey: string): string {
    deviceId + ":" + MethodName(m) + ":" + idempotencyKey
  }

  // ----- state -----

  datatype Capacities = Capacities(idempotency: nat, terminal: nat, connections: nat)

  datatype Task = Task(peer: Peer, request: RemoteRequest)

  /** A reserved key: who reserved it, for what, and whether its operation has run. */
  datatype Reservation = Reservation(fingerprint: Text, deviceId: string, m: RemoteMethod, idempotencyKey: string, op: Mutation, started: bool)

  /** What an observer of the core records. */
  datatype Event =
    | Accepted(peer: Peer, requestSeq: int)
    | Passed(task: Task, domain: string, devices: Devices)
    | Called(deviceId: string, m: RemoteMethod, idempotencyKey: string, op: Mutation)
    | Closed(peer: Peer)

  datatype State = State(
    devices: Devices,
    lastRequestSeq: map<Peer, int>,
    waiting: seq<Task>,
    entries: map<string, Reservation>,
    claimed: set<Terminal>,
    log: seq<Event>)

  datatype Reply =
    | Waiting
    | Failed(error: DispatchError)
    | Answered
    | Reserved(key: string)
    | Joined(key: string)
    | Invoked(op: Mutation)
    | Nothing

  // ----- segment 1: the envelope -----

  predicate Parses(r: RemoteRequest) {
    && 1 <= r.connectionEpoch <= MAX_SAFE_INTEGER
    && 1 <= r.requestSeq <= MAX_SAFE_INTEGER
    && (r.idempotencyKey.Some? ==> r.idempotencyKey.value != "")
  }

  function AssertEnvelope(limits: Capacities, lastRequestSeq: map<Peer, int>, peer: Peer, r: RemoteRequest): Result<map<Peer, int>, DispatchError> {
    if r.protocolVersion != PROTOCOL_VERSION then Err(ProtocolVersionUnsupported)
    else if r.connectionEpoch < peer.connectionEpoch then Err(EpochStale)
    else if r.connectionEpoch != peer.connectionEpoch then Err(EpochMismatch)
    else if peer !in lastRequestSeq && |lastRequestSeq| >= limits.connections then Err(StateCapacityExceeded)
    else if r.requestSeq <= (if peer in lastRequestSeq then lastRequestSeq[peer] else 0) then Err(RequestReplay)
    else Ok(lastRequestSeq[peer := r.requestSeq])
  }

  function Arrive(limits: Capacities, s: State, peer: Peer, r: RemoteRequest): (State, Reply) {
    if !Parses(r) then (s, Failed(InvalidRequest))
    else
      match AssertEnvelope(limits, s.lastRequestSeq, peer, r)
      case Err(error) => (s, Failed(error))
      case Ok(after) =>
        (s.(lastRequestSeq := after, waiting := s.waiting + [Task(peer, r)], log := s.log + [Accepted(peer, r.requestSeq)]), Waiting)
  }

  // ----- segment 2: authorization and reservation -----

  /** Find or reserve the key; an existing key is joined only for the same payload. */
  function RunOnce(limits: Capacities, entries: map<string, Reservation>, deviceId: string, m: RemoteMethod, idempotencyKey: string, op: Mutation)
    : (map<string, Reservation>, Reply)
  {
    var key, fingerprint := KeyOf(deviceId, m, idempotencyKey), Canonical(PayloadOf(op));
    if key in entries then (entries, if entries[key].fingerprint != fingerprint then Failed(IdempotencyConflict) else Joined(key))
    else if |entries| >= limits.idempotency then (entries, Failed(StateCapacityExceeded))
    else (entries[key := Reservation(fingerprint, deviceId, m, idempotencyKey, op, false)], Reserved(key))
  }

  function Mutate(limits: Capacities, s: State, task: Task, op: Mutation): (State, Reply) {
    if task.request.idempotencyKey.None? then (s, Failed(IdempotencyRequired))
    else
      var (entries, reply) := RunOnce(limits, s.entries, task.peer.deviceId, task.request.remoteMethod, task.request.idempotencyKey.value, op);
      (s.(entries := entries), reply)
  }

  /** The identity of the host arrived: its domain is compared with the live record of the device. */
  function Continue(limits: Capacities, s: State, i: nat, domain: string): (State, Reply)
    requires i < |s.waiting|
  {
    var task := s.waiting[i];
    var s1 := s.(waiting := s.waiting[..i] + s.waiting[i + 1..]);
    match AssertAuthorized(s.devices, task.peer.deviceId, domain, Some(task.request.remoteMethod))
    case Some(reason) => (s1, Failed(Unauthorized(reason)))
    case None =>
      var s2 := s1.(log := s.log + [Passed(task, domain, s.devices)]);
      if !Mutates(task.request.remoteMethod) then (s2, Answered)
      else
        match ParseMutation(task.request.remoteMethod, task.request.params)
        case None => (s2, Failed(InvalidRequest))
        case Some(op) => Mutate(limits, s2, task, op)
  }

  // ----- segment 3: the operation -----

  function ClaimInteraction(limits: Capacities, claimed: set<Terminal>, t: Terminal): Result<set<Terminal>, DispatchError> {
    if t in claimed then Err(AlreadyResolved)
    else if |claimed| >= limits.terminal then Err(StateCapacityExceeded)
    else Ok(claimed + {t})
  }

  /** The operation of a reserved key runs once; its outcome is kept even when it fails. */
  function Operate(limits: Capacities, s: State, key: string): (State, Reply) {
    if key !in s.entries || s.entries[key].started then (s, Nothing)
    else
      var e := s.entries[key];
      var s1 := s.(entries := s.entries[key := e.(started := true)]);
      var call := Called(e.deviceId, e.m, e.idempotencyKey, e.op);
      match TerminalOf(e.op)
      case None => (s1.(log := s.log + [call]), Invoked(e.op))
      case Some(t) =>
        match ClaimInteraction(limits, s.claimed, t)
        case Err(error) => (s1, Failed(error))
        case Ok(claimed) => (s1.(claimed := claimed, log := s.log + [call]), Invoked(e.op))
  }

  // ----- steps -----

  datatype Step =
    | Arrival(peer: Peer, request: RemoteRequest)
    | Continuation(i: nat, domain: string)
    | Operation(key: string)
    | Close(peer: Peer)
    | DevicesChange(devices: Devices)

  function Next(limits: Capacities, s: State, step: Step): (State, Reply) {
    match step
    case Arrival(peer, request) => Arrive(limits, s, peer, request)
    case Continuation(i, domain) => if i < |s.waiting| then Continue(limits, s, i, domain) else (s, Nothing)
    case Operation(key) => Operate(limits, s, key)
    case Close(peer) => (s.(lastRequestSeq := s.lastRequestSeq - {peer}, log := s.log + [Closed(peer)]), Nothing)
    case DevicesChange(devices) => (s.(devices := devices), Nothing)
  }
}
