/** Every interleaving of requests: side effects happen at most once, and only after a passed authorization. */
module DispatchSafety {

  import opened Wrappers
  import opened Protocol
  import opened DeviceRequests
  import opened CanonicalJson
  import opened CanonicalFaithful
  import opened Dispatch

  // ----- what every state keeps -----

  predicate CalledAt(log: seq<Event>, i: int) {
    0 <= i < |log| && log[i].Called?
  }

  function CallKey(e: Event): string
    requires e.Called?
  {
    KeyOf(e.deviceId, e.m, e.idempotencyKey)
  }

  /** Each call belongs to a key whose operation has run, and no key was called twice. */
  ghost predicate CallsAreOnce(s: State) {
    && (forall i | CalledAt(s.log, i) :: CallKey(s.log[i]) in s.entries && s.entries[CallKey(s.log[i])].started)
    && forall i, j | CalledAt(s.log, i) && CalledAt(s.log, j) && i != j :: CallKey(s.log[i]) != CallKey(s.log[j])
  }

  /** Each resolved interaction is claimed, and none was resolved twice. */
  ghost predicate TerminalsAreOnce(s: State) {
    && (forall i | CalledAt(s.log, i) && TerminalOf(s.log[i].op).Some? :: TerminalOf(s.log[i].op).value in s.claimed)
    && forall i, j | CalledAt(s.log, i) && CalledAt(s.log, j) && i != j && TerminalOf(s.log[i].op).Some? ::
         TerminalOf(s.log[i].op) != TerminalOf(s.log[j].op)
  }

  /** A request of this device for this operation passed the check against the records of that moment. */
  predicate Grants(e: Event, deviceId: string, m: RemoteMethod, idempotencyKey: string, op: Mutation) {
    && e.Passed?
    && Authorizes(e.devices, deviceId, e.domain, Some(m))
    && e.task.peer.deviceId == deviceId && e.task.request.remoteMethod == m
    && e.task.request.idempotencyKey == Some(idempotencyKey)
    && ParseMutation(m, e.task.request.params) == Some(op)
  }

  predicate GrantedBefore(log: seq<Event>, n: nat, deviceId: string, m: RemoteMethod, idempotencyKey: string, op: Mutation) {
    exists i | 0 <= i < n && i < |log| :: Grants(log[i], deviceId, m, idempotencyKey, op)
  }

  ghost predicate EntriesAreGranted(s: State) {
    forall key | key in s.entries ::
      var e := s.entries[key];
      && key == KeyOf(e.deviceId, e.m, e.idempotencyKey)
      && e.fingerprint == Canonical(PayloadOf(e.op))
      && GrantedBefore(s.log, |s.log|, e.deviceId, e.m, e.idempotencyKey, e.op)
  }

  ghost predicate CallsAreGranted(s: State) {
    forall i | CalledAt(s.log, i) ::
      GrantedBefore(s.log, i, s.log[i].deviceId, s.log[i].m, s.log[i].idempotencyKey, s.log[i].op)
  }

  /** The connection of a peer was not closed in log[from..to]. */
  predicate OpenBetween(log: seq<Event>, from: int, to: int, peer: Peer) {
    forall k | 0 <= k < |log| && from <= k < to :: log[k] != Closed(peer)
  }

  predicate AcceptedAt(log: seq<Event>, i: int, peer: Peer) {
    0 <= i < |log| && log[i].Accepted? && log[i].peer == peer
  }

  ghost predicate SequencesIncrease(s: State) {
    && (forall i, peer | AcceptedAt(s.log, i, peer) && OpenBetween(s.log, i, |s.log|, peer) ::
          peer in s.lastRequestSeq && s.log[i].requestSeq <= s.lastRequestSeq[peer])
    && forall i, j, peer | AcceptedAt(s.log, i, peer) && AcceptedAt(s.log, j, peer) && i < j && OpenBetween(s.log, i, j, peer) ::
         s.log[i].requestSeq < s.log[j].requestSeq
  }

  ghost predicate Safe(s: State) {
    CallsAreOnce(s) && TerminalsAreOnce(s) && EntriesAreGranted(s) && CallsAreGranted(s) && SequencesIncrease(s)
  }

  // ----- every step keeps it -----

  lemma GrantsGrow(log: seq<Event>, e: Event, n: nat, deviceId: string, m: RemoteMethod, idempotencyKey: string, op: Mutation)
    requires GrantedBefore(log, n, deviceId, m, idempotencyKey, op) && n <= |log|
    ensures GrantedBefore(log + [e], n, deviceId, m, idempotencyKey, op)
    ensures GrantedBefore(log + [e], |log + [e]|, deviceId, m, idempotencyKey, op)
    ensures GrantedBefore(log, |log|, deviceId, m, idempotencyKey, op)
  {
    hide Grants;
    var i :| 0 <= i < n && i < |log| && Grants(log[i], deviceId, m, idempotencyKey, op);
    assert (log + [e])[i] == log[i];
  }

  /** An event that is not a call changes no fact about calls. */
  lemma QuietEventKeepsCalls(s: State, t: State, e: Event)
    requires CallsAreOnce(s) && TerminalsAreOnce(s) && CallsAreGranted(s) && !e.Called?
    requires t.log == s.log + [e] && t.claimed == s.claimed
    requires forall key | key in s.entries :: key in t.entries && t.entries[key].started == s.entries[key].started
    ensures CallsAreOnce(t) && TerminalsAreOnce(t) && CallsAreGranted(t)
  {
    forall i | CalledAt(t.log, i)
      ensures CalledAt(s.log, i) && t.log[i] == s.log[i]
      ensures GrantedBefore(t.log, i, t.log[i].deviceId, t.log[i].m, t.log[i].idempotencyKey, t.log[i].op)
    {
      assert CalledAt(s.log, i);
      GrantsGrow(s.log, e, i, t.log[i].deviceId, t.log[i].m, t.log[i].idempotencyKey, t.log[i].op);
    }
  }

  lemma SequencesKept(s: State, t: State, e: Event)
    requires SequencesIncrease(s) && t.log == s.log + [e] && t.lastRequestSeq == s.lastRequestSeq
    requires !e.Accepted?
    ensures SequencesIncrease(t)
  {
    forall i, peer | AcceptedAt(t.log, i, peer) && OpenBetween(t.log, i, |t.log|, peer)
      ensures peer in t.lastRequestSeq && t.log[i].requestSeq <= t.lastRequestSeq[peer]
    {
      assert AcceptedAt(s.log, i, peer);
      OpenPrefix(s.log, e, i, |s.log|, peer);
    }
    forall i, j, peer | AcceptedAt(t.log, i, peer) && AcceptedAt(t.log, j, peer) && i < j && OpenBetween(t.log, i, j, peer)
      ensures t.log[i].requestSeq < t.log[j].requestSeq
    {
      assert AcceptedAt(s.log, i, peer) && AcceptedAt(s.log, j, peer);
      OpenPrefix(s.log, e, i, j, peer);
    }
  }

  lemma OpenPrefix(log: seq<Event>, e: Event, from: int, to: int, peer: Peer)
    requires OpenBetween(log + [e], from, |log + [e]|, peer) || (to <= |log| && OpenBetween(log + [e], from, to, peer))
    requires to <= |log|
    ensures OpenBetween(log, from, to, peer)
  {
    forall k | 0 <= k < |log| && from <= k < to ensures log[k] != Closed(peer) {
      assert (log + [e])[k] == log[k];
    }
  }

  lemma ArrivalIsSafe(limits: Capacities, s: State, peer: Peer, r: RemoteRequest)
    requires Safe(s)
    ensures Safe(Arrive(limits, s, peer, r).0)
  {
    var t := Arrive(limits, s, peer, r).0;
    if t != s {
      var e := Accepted(peer, r.requestSeq);
      QuietEventKeepsCalls(s, t, e);
      EntriesKept(s, t, e);
      AcceptedIncreases(s, t, e);
    }
  }

  lemma EntriesKept(s: State, t: State, e: Event)
    requires EntriesAreGranted(s) && t.log == s.log + [e] && t.entries == s.entries
    ensures EntriesAreGranted(t)
  {
    hide GrantedBefore;
    hide KeyOf;
    hide Canonical;
    forall key | key in t.entries
      ensures var x := t.entries[key]; GrantedBefore(t.log, |t.log|, x.deviceId, x.m, x.idempotencyKey, x.op)
    {
      var x := t.entries[key];
      GrantsGrow(s.log, e, |s.log|, x.deviceId, x.m, x.idempotencyKey, x.op);
    }
  }

  lemma AcceptedIncreases(s: State, t: State, e: Event)
    requires SequencesIncrease(s) && e.Accepted? && t.log == s.log + [e]
    requires e.requestSeq > if e.peer in s.lastRequestSeq then s.lastRequestSeq[e.peer] else 0
    requires t.lastRequestSeq == s.lastRequestSeq[e.peer := e.requestSeq]
    ensures SequencesIncrease(t)
  {
    forall i, peer | AcceptedAt(t.log, i, peer) && OpenBetween(t.log, i, |t.log|, peer)
      ensures peer in t.lastRequestSeq && t.log[i].requestSeq <= t.lastRequestSeq[peer]
    {
      if i < |s.log| {
        assert AcceptedAt(s.log, i, peer);
        OpenPrefix(s.log, e, i, |s.log|, peer);
      }
    }
    forall i, j, peer | AcceptedAt(t.log, i, peer) && AcceptedAt(t.log, j, peer) && i < j && OpenBetween(t.log, i, j, peer)
      ensures t.log[i].requestSeq < t.log[j].requestSeq
    {
      assert AcceptedAt(s.log, i, peer);
      OpenPrefix(s.log, e, i, j, peer);
      if j < |s.log| { assert AcceptedAt(s.log, j, peer); }
    }
  }

  lemma CloseIsSafe(s: State, peer: Peer)
    requires Safe(s)
    ensures Safe(s.(lastRequestSeq := s.lastRequestSeq - {peer}, log := s.log + [Closed(peer)]))
  {
    var e := Closed(peer);
    var t := s.(lastRequestSeq := s.lastRequestSeq - {peer}, log := s.log + [e]);
    QuietEventKeepsCalls(s, t, e);
    EntriesKept(s, t, e);
    forall i, p | AcceptedAt(t.log, i, p) && OpenBetween(t.log, i, |t.log|, p)
      ensures p in t.lastRequestSeq && t.log[i].requestSeq <= t.lastRequestSeq[p]
    {
      assert AcceptedAt(s.log, i, p);
      assert t.log[|s.log|] == e && p != peer;
      OpenPrefix(s.log, e, i, |s.log|, p);
    }
    forall i, j, p | AcceptedAt(t.log, i, p) && AcceptedAt(t.log, j, p) && i < j && OpenBetween(t.log, i, j, p)
      ensures t.log[i].requestSeq < t.log[j].requestSeq
    {
      assert AcceptedAt(s.log, i, p) && AcceptedAt(s.log, j, p);
      OpenPrefix(s.log, e, i, j, p);
    }
  }

  lemma ContinueShape(limits: Capacities, s: State, i: nat, domain: string)
    requires i < |s.waiting|
    ensures var t, task := Continue(limits, s, i, domain).0, s.waiting[i];
            && t.claimed == s.claimed && t.lastRequestSeq == s.lastRequestSeq && t.devices == s.devices
            && if Authorizes(s.devices, task.peer.deviceId, domain, Some(task.request.remoteMethod))
               then t.log == s.log + [Passed(task, domain, s.devices)]
               else t == s.(waiting := t.waiting)
  {
    hide RunOnce;
    hide ParseMutation;
    hide Authorizes;
  }

  lemma ContinuationIsSafe(limits: Capacities, s: State, i: nat, domain: string)
    requires Safe(s) && i < |s.waiting|
    ensures Safe(Continue(limits, s, i, domain).0)
  {
    hide Continue;
    hide Authorizes;
    hide CallsAreOnce;
    hide TerminalsAreOnce;
    hide EntriesAreGranted;
    hide CallsAreGranted;
    hide SequencesIncrease;
    var t, task := Continue(limits, s, i, domain).0, s.waiting[i];
    ContinueShape(limits, s, i, domain);
    if Authorizes(s.devices, task.peer.deviceId, domain, Some(task.request.remoteMethod)) {
      var e := Passed(task, domain, s.devices);
      ContinuationEntries(limits, s, i, domain);
      QuietEventKeepsCalls(s, t, e);
      SequencesKept(s, t, e);
    } else {
      SameIsSafe(s, t);
    }
  }

  lemma SameIsSafe(s: State, t: State)
    requires Safe(s) && t == s.(waiting := t.waiting, devices := t.devices)
    ensures Safe(t)
  {}

  lemma ContinuationEntries(limits: Capacities, s: State, i: nat, domain: string)
    requires Safe(s) && i < |s.waiting|
    requires Authorizes(s.devices, s.waiting[i].peer.deviceId, domain, Some(s.waiting[i].request.remoteMethod))
    ensures var t := Continue(limits, s, i, domain).0;
            && EntriesAreGranted(t)
            && forall key | key in s.entries :: key in t.entries && t.entries[key] == s.entries[key]
  {
    hide RunOnce;
    hide ParseMutation;
    hide Authorizes;
    hide EntriesAreGranted;
    hide GrantedBefore;
    var task := s.waiting[i];
    var e := Passed(task, domain, s.devices);
    var s2 := s.(waiting := s.waiting[..i] + s.waiting[i + 1..], log := s.log + [e]);
    EntriesKept(s, s2, e);
    var op := ParseMutation(task.request.remoteMethod, task.request.params);
    if op.Some? {
      MutateEntries(limits, s2, task, op.value);
    }
  }

  lemma MutateEntries(limits: Capacities, s: State, task: Task, op: Mutation)
    requires EntriesAreGranted(s) && s.log != []
    requires var e := s.log[|s.log| - 1];
             e.Passed? && e.task == task && Authorizes(e.devices, task.peer.deviceId, e.domain, Some(task.request.remoteMethod))
    requires ParseMutation(task.request.remoteMethod, task.request.params) == Some(op)
    ensures var t := Mutate(limits, s, task, op).0;
            && EntriesAreGranted(t)
            && forall key | key in s.entries :: key in t.entries && t.entries[key] == s.entries[key]
  {
    hide Canonical;
    hide ParseMutation;
    hide KeyOf;
    hide EntriesAreGranted;
    if task.request.idempotencyKey.Some? {
      var d, m, k := task.peer.deviceId, task.request.remoteMethod, task.request.idempotencyKey.value;
      LastGrants(s.log, task, op);
      if KeyOf(d, m, k) !in s.entries {
        ReservationKeeps(s, KeyOf(d, m, k), Reservation(Canonical(PayloadOf(op)), d, m, k, op, false));
      }
    }
  }

  lemma LastGrants(log: seq<Event>, task: Task, op: Mutation)
    requires log != [] && task.request.idempotencyKey.Some?
    requires var e := log[|log| - 1];
             e.Passed? && e.task == task && Authorizes(e.devices, task.peer.deviceId, e.domain, Some(task.request.remoteMethod))
    requires ParseMutation(task.request.remoteMethod, task.request.params) == Some(op)
    ensures GrantedBefore(log, |log|, task.peer.deviceId, task.request.remoteMethod, task.request.idempotencyKey.value, op)
  {
    hide ParseMutation;
    hide Authorizes;
    assert Grants(log[|log| - 1], task.peer.deviceId, task.request.remoteMethod, task.request.idempotencyKey.value, op);
  }

  lemma ReservationKeeps(s: State, key: string, x: Reservation)
    requires EntriesAreGranted(s) && key == KeyOf(x.deviceId, x.m, x.idempotencyKey)
    requires x.fingerprint == Canonical(PayloadOf(x.op))
    requires GrantedBefore(s.log, |s.log|, x.deviceId, x.m, x.idempotencyKey, x.op)
    ensures EntriesAreGranted(s.(entries := s.entries[key := x]))
  {
    hide Canonical;
    hide KeyOf;
    hide GrantedBefore;
  }

  lemma OperationIsSafe(limits: Capacities, s: State, key: string)
    requires Safe(s)
    ensures Safe(Operate(limits, s, key).0)
  {
    hide KeyOf;
    hide Canonical;
    hide GrantedBefore;
    hide CallsAreOnce;
    hide TerminalsAreOnce;
    hide CallsAreGranted;
    hide SequencesIncrease;
    var t := Operate(limits, s, key).0;
    if key in s.entries && !s.entries[key].started {
      var x := s.entries[key];
      var e := Called(x.deviceId, x.m, x.idempotencyKey, x.op);
      assert CallKey(e) == key;
      if t.log == s.log {
        StartedIsSafe(s, t, key);
      } else {
        assert t.log == s.log + [e];
        CallIsOnce(s, t, e, key);
        CallTerminalIsOnce(s, t, e);
        CallIsGranted(s, t, e, key);
        SequencesKept(s, t, e);
      }
    }
  }

  /** An operation that fails to claim its interaction still uses up its key. */
  lemma StartedIsSafe(s: State, t: State, key: string)
    requires Safe(s) && key in s.entries && t == s.(entries := s.entries[key := s.entries[key].(started := true)])
    ensures Safe(t)
  {
    hide KeyOf;
    hide Canonical;
    hide GrantedBefore;
  }

  lemma CallIsOnce(s: State, t: State, e: Event, key: string)
    requires CallsAreOnce(s) && e.Called? && t.log == s.log + [e]
    requires key in s.entries && !s.entries[key].started && CallKey(e) == key
    requires t.entries == s.entries[key := s.entries[key].(started := true)]
    ensures CallsAreOnce(t)
  {
    hide KeyOf;
    forall i | CalledAt(t.log, i) && i < |s.log| ensures CalledAt(s.log, i) && t.log[i] == s.log[i] {}
  }

  lemma CallTerminalIsOnce(s: State, t: State, e: Event)
    requires TerminalsAreOnce(s) && e.Called? && t.log == s.log + [e]
    requires match TerminalOf(e.op)
             case None => t.claimed == s.claimed
             case Some(x) => x !in s.claimed && t.claimed == s.claimed + {x}
    ensures TerminalsAreOnce(t)
  {
    hide TerminalOf;
    forall i | CalledAt(t.log, i) && i < |s.log| ensures CalledAt(s.log, i) && t.log[i] == s.log[i] {}
  }

  lemma CallIsGranted(s: State, t: State, e: Event, key: string)
    requires CallsAreGranted(s) && EntriesAreGranted(s) && key in s.entries && t.log == s.log + [e]
    requires var x := s.entries[key]; e == Called(x.deviceId, x.m, x.idempotencyKey, x.op)
    requires t.entries == s.entries[key := s.entries[key].(started := true)]
    ensures CallsAreGranted(t) && EntriesAreGranted(t)
  {
    hide KeyOf;
    hide Canonical;
    hide GrantedBefore;
    forall i | CalledAt(t.log, i)
      ensures GrantedBefore(t.log, i, t.log[i].deviceId, t.log[i].m, t.log[i].idempotencyKey, t.log[i].op)
    {
      if i < |s.log| { assert CalledAt(s.log, i); }
      GrantsGrow(s.log, e, i, t.log[i].deviceId, t.log[i].m, t.log[i].idempotencyKey, t.log[i].op);
    }
    forall k | k in t.entries
      ensures var x := t.entries[k]; GrantedBefore(t.log, |t.log|, x.deviceId, x.m, x.idempotencyKey, x.op)
    {
      var x := t.entries[k];
      GrantsGrow(s.log, e, |s.log|, x.deviceId, x.m, x.idempotencyKey, x.op);
    }
  }

  lemma StepIsSafe(limits: Capacities, s: State, step: Step)
    requires Safe(s)
    ensures Safe(Next(limits, s, step).0)
  {
    hide Safe;
    hide Arrive;
    hide Continue;
    hide Operate;
    match step
    case Arrival(peer, request) => ArrivalIsSafe(limits, s, peer, request);
    case Continuation(i, domain) => if i < |s.waiting| { ContinuationIsSafe(limits, s, i, domain); }
    case Operation(key) => OperationIsSafe(limits, s, key);
    case Close(peer) => CloseIsSafe(s, peer);
    case DevicesChange(devices) => SameIsSafe(s, s.(devices := devices));
  }

  // ----- whole runs -----

  predicate Initial(s: State) {
    s == State(s.devices, map[], [], map[], {}, [])
  }

  predicate RunOf(limits: Capacities, states: seq<State>, steps: seq<Step>) {
    && |states| == |steps| + 1 && Initial(states[0])
    && forall i | 0 <= i < |steps| :: states[i + 1] == Next(limits, states[i], steps[i]).0
  }

  lemma {:induction false} EveryStateIsSafe(limits: Capacities, states: seq<State>, steps: seq<Step>, i: nat)
    requires RunOf(limits, states, steps) && i < |states|
    ensures Safe(states[i])
    decreases i
  {
    hide Next;
    hide Safe;
    if i == 0 {
      InitialIsSafe(states[0]);
    } else {
      EveryStateIsSafe(limits, states, steps, i - 1);
      StepIsSafe(limits, states[i - 1], steps[i - 1]);
    }
  }

  lemma InitialIsSafe(s: State)
    requires Initial(s)
    ensures Safe(s)
  {}

  /** In every interleaving of any number of requests, the operation of a (device, method, key) runs at most once. */
  lemma OperationsRunOnce(limits: Capacities, states: seq<State>, steps: seq<Step>, i: nat, j: nat, k: nat)
    requires RunOf(limits, states, steps) && i < |states|
    requires var log := states[i].log; CalledAt(log, j) && CalledAt(log, k) && j != k
    ensures var log := states[i].log;
            !(log[j].deviceId == log[k].deviceId && log[j].m == log[k].m && log[j].idempotencyKey == log[k].idempotencyKey)
  {
    EveryStateIsSafe(limits, states, steps, i);
  }

  /** Each approval and each question is resolved at most once, across all devices and keys. */
  lemma InteractionsResolveOnce(limits: Capacities, states: seq<State>, steps: seq<Step>, i: nat, j: nat, k: nat)
    requires RunOf(limits, states, steps) && i < |states|
    requires var log := states[i].log; CalledAt(log, j) && CalledAt(log, k) && j != k
    ensures var a, b := states[i].log[j].op, states[i].log[k].op;
            && !(a.RespondApproval? && b.RespondApproval? && a.callId == b.callId)
            && !(a.RespondQuestion? && b.RespondQuestion? && a.questionId == b.questionId)
  {
    EveryStateIsSafe(limits, states, steps, i);
    assert TerminalsAreOnce(states[i]);
  }

  /** Each call follows a request of the same device, method, key and parameters that passed the authorization
      against the live records. */
  lemma CallsFollowAuthorization(limits: Capacities, states: seq<State>, steps: seq<Step>, i: nat, j: nat)
    requires RunOf(limits, states, steps) && i < |states| && CalledAt(states[i].log, j)
    ensures var log, e := states[i].log, states[i].log[j];
            exists g | 0 <= g < j :: Grants(log[g], e.deviceId, e.m, e.idempotencyKey, e.op)
  {
    EveryStateIsSafe(limits, states, steps, i);
    assert CallsAreGranted(states[i]);
  }

  /** While a connection stays open, the sequence numbers that it gets accepted strictly increase. */
  lemma AcceptedSequencesIncrease(limits: Capacities, states: seq<State>, steps: seq<Step>, i: nat, j: nat, k: nat, peer: Peer)
    requires RunOf(limits, states, steps) && i < |states| && j < k
    requires AcceptedAt(states[i].log, j, peer) && AcceptedAt(states[i].log, k, peer)
    requires OpenBetween(states[i].log, j, k, peer)
    ensures states[i].log[j].requestSeq < states[i].log[k].requestSeq
  {
    EveryStateIsSafe(limits, states, steps, i);
    assert SequencesIncrease(states[i]);
  }

  // ----- retries -----

  /** A retry joins the first request exactly when it carries the same parameters, up to the key order inside an answer. */
  lemma RetryJoins(limits: Capacities, s: State, deviceId: string, m: RemoteMethod, idempotencyKey: string, op: Mutation)
    requires EntriesAreGranted(s) && KeyOf(deviceId, m, idempotencyKey) in s.entries
    requires WellFormed(PayloadOf(op)) && WellFormed(PayloadOf(s.entries[KeyOf(deviceId, m, idempotencyKey)].op))
    ensures var key := KeyOf(deviceId, m, idempotencyKey);
            RunOnce(limits, s.entries, deviceId, m, idempotencyKey, op)
            == (s.entries, if SameValue(PayloadOf(s.entries[key].op), PayloadOf(op)) then Joined(key) else Failed(IdempotencyConflict))
  {
    hide Canonical;
    hide SameValue;
    hide KeyOf;
    hide PayloadOf;
    hide GrantedBefore;
    var key := KeyOf(deviceId, m, idempotencyKey);
    var first := PayloadOf(s.entries[key].op);
    FingerprintIs(s, key);
    Faithful(first, PayloadOf(op));
  }

  lemma FingerprintIs(s: State, key: string)
    requires EntriesAreGranted(s) && key in s.entries
    ensures s.entries[key].fingerprint == Canonical(PayloadOf(s.entries[key].op))
  {
    hide Canonical;
    hide KeyOf;
    hide GrantedBefore;
  }

  function FirstColon(s: string): nat {
    if s == [] || s[0] == ':' then 0 else 1 + FirstColon(s[1..])
  }

  lemma {:induction false} FirstColonIs(a: string, x: string)
    requires ':' !in a
    ensures FirstColon(a + ":" + x) == |a|
  {
    if a == [] {
      assert a + ":" + x == ":" + x;
    } else {
      assert (a + ":" + x)[1..] == a[1..] + ":" + x;
      FirstColonIs(a[1..], x);
    }
  }

  lemma SplitAtColon(a: string, x: string, b: string, y: string)
    requires ':' !in a && ':' !in b && a + ":" + x == b + ":" + y
    ensures a == b && x == y
  {
    FirstColonIs(a, x);
    FirstColonIs(b, y);
    var l, r := a + ":" + x, b + ":" + y;
    assert a == l[..|a|] && b == r[..|b|];
    assert x == l[|a| + 1..] && y == r[|b| + 1..];
  }

  lemma MethodNames(m: RemoteMethod, n: RemoteMethod)
    ensures ':' !in MethodName(m)
    ensures MethodName(m) == MethodName(n) ==> m == n
  {
    assert |MethodName(m)| == |MethodName(n)| ==> MethodName(m)[0] == MethodName(n)[0] ==> m == n;
  }

  /** Device ids are hexadecimal, so a reserved key belongs to one device, method and client key, and only to that:
      nobody joins the request of another device. */
  lemma KeysAreApart(d: string, m: RemoteMethod, k: string, e: string, n: RemoteMethod, l: string)
    requires ':' !in d && ':' !in e
    ensures KeyOf(d, m, k) == KeyOf(e, n, l) <==> d == e && m == n && k == l
  {
    hide KeyOf;
    hide MethodName;
    KeyParts(d, m, k);
    KeyParts(e, n, l);
    if KeyOf(d, m, k) == KeyOf(e, n, l) {
      MethodNames(m, n);
      MethodNames(n, m);
      SplitAtColon(d, MethodName(m) + ":" + k, e, MethodName(n) + ":" + l);
      SplitAtColon(MethodName(m), k, MethodName(n), l);
    }
  }

  lemma KeyParts(d: string, m: RemoteMethod, k: string)
    ensures KeyOf(d, m, k) == d + ":" + (MethodName(m) + ":" + k)
  {}

  /** An id with a colon could be confused with another device's. */
  lemma ColonsWouldConfuse()
    ensures KeyOf("a", PromptSubmit, "prompt.submit:k") == KeyOf("a:prompt.submit", PromptSubmit, "k")
  {}
}
