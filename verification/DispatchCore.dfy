/** The adapter core as an object: each method is one atomic segment of a request. */
module DispatchCores {

  import opened Wrappers
  import opened Protocol
  import opened DeviceRecords
  import opened DeviceRequests
  import opened CanonicalJson
  import opened Dispatch

  class IdempotencyStore {
    const capacity: nat
    var entries: map<string, Reservation>

    constructor (capacity: nat)
      ensures entries == map[] && this.capacity == capacity
    {
      this.capacity := capacity;
      entries := map[];
    }

    /** Join the request that holds the key, or reserve the key before anything else happens. */
    method Run(deviceId: string, m: RemoteMethod, idempotencyKey: string, op: Mutation, limits: Capacities) returns (reply: Reply)
      requires limits.idempotency == capacity
      modifies this
      ensures (entries, reply) == RunOnce(limits, old(entries), deviceId, m, idempotencyKey, op)
    {
      var key := KeyOf(deviceId, m, idempotencyKey);
      var fingerprint := Canonical(PayloadOf(op));
      if key in entries {
        if entries[key].fingerprint != fingerprint { return Failed(IdempotencyConflict); }
        return Joined(key);
      }
      if |entries| >= capacity { return Failed(StateCapacityExceeded); }
      entries := entries[key := Reservation(fingerprint, deviceId, m, idempotencyKey, op, false)];
      return Reserved(key);
    }

    method Start(key: string)
      requires key in entries
      modifies this
      ensures entries == old(entries)[key := old(entries)[key].(started := true)]
    {
      entries := entries[key := entries[key].(started := true)];
    }
  }

  class RemoteAdapterCore {
    const limits: Capacities
    const idempotency: IdempotencyStore
    var devices: Devices
    var lastRequestSeq: map<Peer, int>
    var waiting: seq<Task>
    var claimedInteractions: set<Terminal>
    ghost var log: seq<Event>

    ghost predicate Valid()
      reads this
    {
      idempotency.capacity == limits.idempotency
    }

    ghost function View(): State
      reads this, idempotency
    {
      State(devices, lastRequestSeq, waiting, idempotency.entries, claimedInteractions, log)
    }

    constructor (limits: Capacities, devices: Devices)
      ensures Valid() && this.limits == limits && fresh(idempotency)
      ensures View() == State(devices, map[], [], map[], {}, [])
    {
      this.limits, this.devices := limits, devices;
      lastRequestSeq, waiting, claimedInteractions, log := map[], [], {}, [];
      idempotency := new IdempotencyStore(limits.idempotency);
    }

    method AssertEnvelope(peer: Peer, request: RemoteRequest) returns (r: Option<DispatchError>)
      modifies this`lastRequestSeq
      ensures match Dispatch.AssertEnvelope(limits, old(lastRequestSeq), peer, request)
              case Ok(after) => r.None? && lastRequestSeq == after
              case Err(error) => r == Some(error) && lastRequestSeq == old(lastRequestSeq)
    {
      if request.protocolVersion != PROTOCOL_VERSION { return Some(ProtocolVersionUnsupported); }
      if request.connectionEpoch < peer.connectionEpoch { return Some(EpochStale); }
      if request.connectionEpoch != peer.connectionEpoch { return Some(EpochMismatch); }
      var last := if peer in lastRequestSeq then Some(lastRequestSeq[peer]) else None;
      if last.None? && |lastRequestSeq| >= limits.connections { return Some(StateCapacityExceeded); }
      if request.requestSeq <= (if last.Some? then last.value else 0) { return Some(RequestReplay); }
      lastRequestSeq := lastRequestSeq[peer := request.requestSeq];
      return None;
    }

    /** The first segment of a request: it ends where the identity of the host is awaited. */
    method Handle(peer: Peer, request: RemoteRequest) returns (reply: Reply)
      modifies this`lastRequestSeq, this`waiting, this`log
      ensures (View(), reply) == Next(limits, old(View()), Arrival(peer, request))
    {
      if !Parses(request) { return Failed(InvalidRequest); }
      var error := AssertEnvelope(peer, request);
      if error.Some? { return Failed(error.value); }
      waiting := waiting + [Task(peer, request)];
      log := log + [Accepted(peer, request.requestSeq)];
      return Waiting;
    }

    method Mutate(task: Task, op: Mutation) returns (reply: Reply)
      requires Valid()
      modifies idempotency
      ensures (View(), reply) == Dispatch.Mutate(limits, old(View()), task, op)
    {
      hide RunOnce;
      if task.request.idempotencyKey.None? { return Failed(IdempotencyRequired); }
      reply := idempotency.Run(task.peer.deviceId, task.request.remoteMethod, task.request.idempotencyKey.value, op, limits);
    }

    /** The second segment: the domain of the host has arrived. */
    method Continue(i: nat, domain: string) returns (reply: Reply)
      requires Valid() && i < |waiting|
      modifies this`waiting, this`log, idempotency
      ensures (View(), reply) == Next(limits, old(View()), Continuation(i, domain))
    {
      hide Dispatch.Mutate;
      hide ParseMutation;
      var task := waiting[i];
      waiting := waiting[..i] + waiting[i + 1..];
      var denied := AssertAuthorized(devices, task.peer.deviceId, domain, Some(task.request.remoteMethod));
      if denied.Some? { return Failed(Unauthorized(denied.value)); }
      log := log + [Passed(task, domain, devices)];
      if !Mutates(task.request.remoteMethod) { return Answered; }
      var op := ParseMutation(task.request.remoteMethod, task.request.params);
      if op.None? { return Failed(InvalidRequest); }
      reply := Mutate(task, op.value);
    }

    method ClaimInteraction(t: Terminal) returns (r: Option<DispatchError>)
      modifies this`claimedInteractions
      ensures match Dispatch.ClaimInteraction(limits, old(claimedInteractions), t)
              case Ok(after) => r.None? && claimedInteractions == after
              case Err(error) => r == Some(error) && claimedInteractions == old(claimedInteractions)
    {
      if t in claimedInteractions { return Some(AlreadyResolved); }
      if |claimedInteractions| >= limits.terminal { return Some(StateCapacityExceeded); }
      claimedInteractions := claimedInteractions + {t};
      return None;
    }

    /** The third segment: the reserved operation runs, in a microtask of its own. */
    method RunOperation(key: string) returns (reply: Reply)
      modifies this`claimedInteractions, this`log, idempotency
      ensures (View(), reply) == Next(limits, old(View()), Operation(key))
    {
      if key !in idempotency.entries || idempotency.entries[key].started { return Nothing; }
      var e := idempotency.entries[key];
      idempotency.Start(key);
      var terminal := TerminalOf(e.op);
      if terminal.Some? {
        var error := ClaimInteraction(terminal.value);
        if error.Some? { return Failed(error.value); }
      }
      log := log + [Called(e.deviceId, e.m, e.idempotencyKey, e.op)];
      return Invoked(e.op);
    }

    method CloseConnection(peer: Peer)
      modifies this`lastRequestSeq, this`log
      ensures View() == Next(limits, old(View()), Close(peer)).0
    {
      lastRequestSeq := lastRequestSeq - {peer};
      log := log + [Closed(peer)];
    }
  }
}
