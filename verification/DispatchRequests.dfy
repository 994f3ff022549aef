/** What a request asks for, read off its fields, and what each segment makes of it. */
module DispatchRequests {

  import opened Wrappers
  import opened Protocol
  import opened DeviceRecords
  import opened DeviceRequests
  import opened CanonicalJson
  import opened Dispatch
  import opened DispatchSafety

  // ----- parameters and operations -----

  /** The object has a field of this name with this value. */
  predicate Has(params: Json, name: string, value: Json) {
    params.Obj? && exists i | 0 <= i < |params.fields| :: params.fields[i].key == Ascii(name) && params.fields[i].value == value
  }

  lemma {:induction false} FirstField(fields: seq<Field>, key: Text)
    ensures FieldIn(fields, key).Some? ==>
              exists i | 0 <= i < |fields| :: fields[i].key == key && fields[i].value == FieldIn(fields, key).value
    ensures FieldIn(fields, key).None? ==> forall i | 0 <= i < |fields| :: fields[i].key != key
    ensures DistinctKeys(fields) ==> forall i | 0 <= i < |fields| && fields[i].key == key :: FieldIn(fields, key) == Some(fields[i].value)
    decreases |fields|
  {
    if fields != [] {
      var rest := fields[1..];
      FirstField(rest, key);
      assert forall i | 0 <= i < |rest| :: rest[i] == fields[i + 1];
      if fields[0].key != key && FieldIn(rest, key).Some? {
        var i :| 0 <= i < |rest| && rest[i].key == key && rest[i].value == FieldIn(rest, key).value;
        assert fields[i + 1].key == key;
      }
    }
  }

  lemma FieldIsHad(params: Json, name: string, value: Json)
    ensures FieldOf(params, name) == Some(value) ==> Has(params, name, value)
    ensures params.Obj? && DistinctKeys(params.fields) ==> (FieldOf(params, name) == Some(value) <==> Has(params, name, value))
  {
    if params.Obj? { FirstField(params.fields, Ascii(name)); }
  }

  /** The texts of an operation are not empty, as those of a parsed one. */
  predicate Named(op: Mutation) {
    match op
    case Followup(sessionId, prompt) => sessionId != [] && prompt != []
    case RespondApproval(callId, _) => callId != []
    case RespondQuestion(questionId, _) => questionId != []
  }

  /** The fields of the parameters name this operation. */
  predicate Asks(params: Json, op: Mutation) {
    Named(op) &&
    match op
    case Followup(sessionId, prompt) => Has(params, "sessionId", Str(sessionId)) && Has(params, "prompt", Str(prompt))
    case RespondApproval(callId, approved) =>
      Has(params, "callId", Str(callId)) && Has(params, "decision", Str(if approved then Ascii("approved") else Ascii("rejected")))
    case RespondQuestion(questionId, answer) => Has(params, "questionId", Str(questionId)) && Has(params, "answer", answer)
  }

  function MethodOf(op: Mutation): RemoteMethod {
    match op
    case Followup(_, _) => PromptSubmit
    case RespondApproval(_, _) => ApprovalRespond
    case RespondQuestion(_, _) => QuestionRespond
  }

  lemma DecisionsDiffer()
    ensures Ascii("approved") != Ascii("rejected")
  {
    assert Ascii("approved")[0] != Ascii("rejected")[0];
  }

  /** A parsed operation is the one that the fields name. */
  lemma ParsedIsAsked(m: RemoteMethod, params: Json, op: Mutation)
    requires ParseMutation(m, params) == Some(op)
    ensures m == MethodOf(op) && Asks(params, op)
  {
    hide Has;
    hide FieldOf;
    match op
    case Followup(sessionId, prompt) =>
      FieldIsHad(params, "sessionId", Str(sessionId));
      FieldIsHad(params, "prompt", Str(prompt));
    case RespondApproval(callId, approved) =>
      FieldIsHad(params, "callId", Str(callId));
      FieldIsHad(params, "decision", Str(if approved then Ascii("approved") else Ascii("rejected")));
    case RespondQuestion(questionId, answer) =>
      FieldIsHad(params, "questionId", Str(questionId));
      FieldIsHad(params, "answer", answer);
  }

  /** For parameters with each key once, parsing yields an operation if and only if the fields name it. */
  lemma ParsesIffAsked(m: RemoteMethod, params: Json, op: Mutation)
    requires params.Obj? ==> DistinctKeys(params.fields)
    ensures ParseMutation(m, params) == Some(op) <==> m == MethodOf(op) && Asks(params, op)
  {
    hide Has;
    hide FieldOf;
    if ParseMutation(m, params) == Some(op) {
      ParsedIsAsked(m, params, op);
    } else if m == MethodOf(op) && Asks(params, op) {
      HadIsAnObject(params, op);
      DecisionsDiffer();
      match op
      case Followup(sessionId, prompt) =>
        FieldIsHad(params, "sessionId", Str(sessionId));
        FieldIsHad(params, "prompt", Str(prompt));
      case RespondApproval(callId, approved) =>
        FieldIsHad(params, "callId", Str(callId));
        FieldIsHad(params, "decision", Str(if approved then Ascii("approved") else Ascii("rejected")));
      case RespondQuestion(questionId, answer) =>
        FieldIsHad(params, "questionId", Str(questionId));
        FieldIsHad(params, "answer", answer);
    }
  }

  lemma HadIsAnObject(params: Json, op: Mutation)
    requires Asks(params, op)
    ensures params.Obj?
  {}

  /** The payload of an operation parses back to it, so a payload determines its operation. */
  lemma PayloadParses(op: Mutation)
    requires Named(op)
    ensures ParseMutation(MethodOf(op), PayloadOf(op)) == Some(op)
  {
    NamesDiffer();
    var payload := PayloadOf(op);
    assert payload.fields[0] in payload.fields && payload.fields[1] in payload.fields;
    assert Asks(payload, op);
    ParsesIffAsked(MethodOf(op), payload, op);
  }

  lemma NamesDiffer()
    ensures Ascii("sessionId") != Ascii("prompt") && Ascii("callId") != Ascii("decision") && Ascii("questionId") != Ascii("answer")
  {
    assert Ascii("sessionId")[0] != Ascii("prompt")[0];
    assert Ascii("callId")[0] != Ascii("decision")[0];
    assert Ascii("questionId")[0] != Ascii("answer")[0];
  }

  /** Every call follows a request of the same device and key, passed against the records of that moment, whose fields
      name exactly this operation: an approval is invoked as approved only when the request said so. */
  lemma CallsDoWhatWasAsked(limits: Capacities, states: seq<State>, steps: seq<Step>, i: nat, j: nat) returns (g: nat)
    requires RunOf(limits, states, steps) && i < |states| && CalledAt(states[i].log, j)
    ensures g < j && states[i].log[g].Passed?
    ensures var e, passed := states[i].log[j], states[i].log[g];
            var request := passed.task.request;
            && Authorizes(passed.devices, e.deviceId, passed.domain, Some(MethodOf(e.op)))
            && passed.task.peer.deviceId == e.deviceId && request.idempotencyKey == Some(e.idempotencyKey)
            && request.remoteMethod == MethodOf(e.op) == e.m && Asks(request.params, e.op)
  {
    hide ParseMutation;
    hide Asks;
    CallsFollowAuthorization(limits, states, steps, i, j);
    var log, e := states[i].log, states[i].log[j];
    var k :| 0 <= k < j && Grants(log[k], e.deviceId, e.m, e.idempotencyKey, e.op);
    g := k;
    ParsedIsAsked(e.m, log[g].task.request.params, e.op);
  }

  // ----- the envelope -----

  /** When a request is accepted, what then changes, and the error of every other one; a refused request changes nothing. */
  lemma EnvelopeOutcome(limits: Capacities, s: State, peer: Peer, r: RemoteRequest)
    ensures var (t, reply) := Arrive(limits, s, peer, r);
            var last := if peer in s.lastRequestSeq then s.lastRequestSeq[peer] else 0;
            var wellFormed := 1 <= r.connectionEpoch <= MAX_SAFE_INTEGER && 1 <= r.requestSeq <= MAX_SAFE_INTEGER && r.idempotencyKey != Some("");
            var current := wellFormed && r.protocolVersion == 1 && r.connectionEpoch == peer.connectionEpoch;
            var room := peer in s.lastRequestSeq || |s.lastRequestSeq| < limits.connections;
            && (reply == Waiting <==> current && room && r.requestSeq > last)
            && (reply == Waiting ==> t == s.(lastRequestSeq := s.lastRequestSeq[peer := r.requestSeq],
                                             waiting := s.waiting + [Task(peer, r)], log := s.log + [Accepted(peer, r.requestSeq)]))
            && (reply != Waiting ==> t == s && reply.Failed?)
            && (reply == Failed(InvalidRequest) <==> !wellFormed)
            && (reply == Failed(ProtocolVersionUnsupported) <==> wellFormed && r.protocolVersion != 1)
            && (reply == Failed(EpochStale) <==> wellFormed && r.protocolVersion == 1 && r.connectionEpoch < peer.connectionEpoch)
            && (reply == Failed(EpochMismatch) <==> wellFormed && r.protocolVersion == 1 && r.connectionEpoch > peer.connectionEpoch)
            && (reply == Failed(StateCapacityExceeded) <==> current && !room)
            && (reply == Failed(RequestReplay) <==> current && room && r.requestSeq <= last)
  {}

  // ----- authorization -----

  /** Why a device is refused. */
  lemma RefusalReason(devices: Devices, id: string, domain: string, m: RemoteMethod)
    ensures var r, found := AssertAuthorized(devices, id, domain, Some(m)), Find(devices, id);
            && (r == Some(DeviceUnknown) <==> found.None?)
            && (r == Some(DeviceIsRevoked) <==> found.Some? && found.value.revokedAt.Some?)
            && (r == Some(DomainIsStale) <==>
                  found.Some? && found.value.revokedAt.None? && domain != "" && found.value.trustDomainId != domain)
            && (r == Some(CapabilityDenied) <==>
                  && found.Some? && found.value.revokedAt.None? && (domain == "" || found.value.trustDomainId == domain)
                  && RequiredCapability(m).Some? && RequiredCapability(m).value !in found.value.grantedCapabilities)
  {}

  /** The key of a mutation is reserved under the device, the name of the method and the key that the device chose. */
  lemma ReservedUnder(deviceId: string, key: string)
    ensures KeyOf(deviceId, PromptSubmit, key) == deviceId + ":" + "prompt.submit" + ":" + key
    ensures KeyOf(deviceId, ApprovalRespond, key) == deviceId + ":" + "approval.respond" + ":" + key
    ensures KeyOf(deviceId, QuestionRespond, key) == deviceId + ":" + "question.respond" + ":" + key
  {}

  /** The methods that one capability alone opens, besides the ping that needs none. */
  lemma CapabilitiesOpen(devices: Devices, id: string, m: RemoteMethod, c: Capability)
    requires Find(devices, id).Some? && Find(devices, id).value.revokedAt.None? && Find(devices, id).value.grantedCapabilities == [c]
    ensures AssertAuthorized(devices, id, "", Some(m)).None?
       <==> m == Ping
            || match c
               case Observe => m in {SessionList, SessionAttach, StreamAck}
               case Prompt => m == PromptSubmit
               case Approve => m == ApprovalRespond
               case AnswerQuestion => m == QuestionRespond
  {}

  /** What the second segment makes of a waiting request, in the order of its checks. */
  lemma ContinueOutcome(limits: Capacities, s: State, i: nat, domain: string)
    requires i < |s.waiting|
    ensures var (t, reply) := Continue(limits, s, i, domain);
            var task := s.waiting[i];
            var r := task.request;
            var authorized := Authorizes(s.devices, task.peer.deviceId, domain, Some(r.remoteMethod));
            var op := ParseMutation(r.remoteMethod, r.params);
            && t.waiting == s.waiting[..i] + s.waiting[i + 1..]
            && t.devices == s.devices && t.lastRequestSeq == s.lastRequestSeq && t.claimed == s.claimed
            && t.log == s.log + (if authorized then [Passed(task, domain, s.devices)] else [])
            && (!authorized <==> reply.Failed? && reply.error.Unauthorized?)
            && (reply == Answered <==> authorized && r.remoteMethod in {SessionList, SessionAttach, StreamAck, Ping})
            && (authorized && reply != Answered ==>
                  && (op.None? ==> reply == Failed(InvalidRequest))
                  && (op.Some? && r.idempotencyKey.None? ==> reply == Failed(IdempotencyRequired)))
            && (!authorized || reply == Answered || op.None? || r.idempotencyKey.None? ==> t.entries == s.entries)
  {
    hide Canonical;
    hide PayloadOf;
    hide KeyOf;
    hide FieldOf;
  }

  /** A new key is reserved for exactly the operation that the fields name, unless there is no room. */
  lemma ReservationOutcome(limits: Capacities, s: State, i: nat, domain: string, op: Mutation)
    requires i < |s.waiting|
    requires var task := s.waiting[i];
             && Authorizes(s.devices, task.peer.deviceId, domain, Some(task.request.remoteMethod))
             && task.request.remoteMethod == MethodOf(op) && Asks(task.request.params, op) && DistinctKeys(task.request.params.fields)
             && task.request.idempotencyKey.Some?
             && KeyOf(task.peer.deviceId, MethodOf(op), task.request.idempotencyKey.value) !in s.entries
    ensures var (t, reply) := Continue(limits, s, i, domain);
            var task := s.waiting[i];
            var key := KeyOf(task.peer.deviceId, MethodOf(op), task.request.idempotencyKey.value);
            if |s.entries| < limits.idempotency then
              && reply == Reserved(key) && t.entries.Keys == s.entries.Keys + {key}
              && (forall k | k in s.entries :: t.entries[k] == s.entries[k])
              && var e := t.entries[key];
                 e.deviceId == task.peer.deviceId && e.idempotencyKey == task.request.idempotencyKey.value && e.op == op && !e.started
            else reply == Failed(StateCapacityExceeded) && t.entries == s.entries
  {
    hide ParseMutation;
    hide KeyOf;
    hide Canonical;
    hide Asks;
    var task := s.waiting[i];
    HadIsAnObject(task.request.params, op);
    ParsesIffAsked(task.request.remoteMethod, task.request.params, op);
  }

  // ----- the operation -----

  /** What becomes of a reserved operation: it is invoked as it is, unless its interaction was resolved before or there is
      no room to remember it; in any case it does not start again. */
  lemma OperationOutcome(limits: Capacities, s: State, key: string)
    ensures var (t, reply) := Operate(limits, s, key);
            if key !in s.entries || s.entries[key].started then t == s && reply == Nothing
            else
              var e := s.entries[key];
              var interaction := match e.op
                                 case Followup(_, _) => {}
                                 case RespondApproval(callId, _) => {ApprovalOf(callId)}
                                 case RespondQuestion(questionId, _) => {QuestionOf(questionId)};
              && t.entries == s.entries[key := e.(started := true)]
              && t.devices == s.devices && t.lastRequestSeq == s.lastRequestSeq && t.waiting == s.waiting
              && (reply == Invoked(e.op) <==> interaction == {} || (interaction !! s.claimed && |s.claimed| < limits.terminal))
              && (reply == Invoked(e.op) ==>
                    t.claimed == s.claimed + interaction && t.log == s.log + [Called(e.deviceId, e.m, e.idempotencyKey, e.op)])
              && (reply != Invoked(e.op) ==> t.claimed == s.claimed && t.log == s.log)
              && (reply == Failed(AlreadyResolved) <==> interaction != {} && interaction <= s.claimed)
              && (reply == Failed(StateCapacityExceeded) <==> interaction != {} && interaction !! s.claimed && |s.claimed| >= limits.terminal)
  {}
}
