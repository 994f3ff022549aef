/** The invariant of the carrier and its preservation by closing, authenticating, authorizing, frames and upgrades: every
    open authenticated connection can be found under its device, and no revoked device is active. Whole
    runs, revocations and stops follow in ConnectionRuns. */
module ConnectionSafety {

  import opened Wrappers
  import opened DeviceRecords
  import opened Connections

  predicate Revoked(devices: Devices, deviceId: string) {
    var found := Find(devices, deviceId);
    found.Some? && found.value.revokedAt.Some?
  }

  // ----- what every state keeps -----

  /** An open authenticated connection is indexed and not released; a closed one is released; the others are anonymous. */
  predicate ConnOk(h: Host, id: ConnId)
    requires id in h.conns
  {
    var c := h.conns[id];
    match c.peer
    case None => c.state in {Connected, NoiseHandshake, Closed}
    case Some(peer) =>
      && 1 <= peer.connectionEpoch <= h.epoch
      && c.state !in {Connected, NoiseHandshake}
      && if c.state == Closed then peer in h.released
         else peer !in h.released && peer.deviceId in h.byDevice && id in h.byDevice[peer.deviceId]
  }

  /** The index holds open connections of the device, each once, and no device without one. */
  predicate EntriesOk(h: Host, d: string)
    requires d in h.byDevice
  {
    && Distinct(h.byDevice[d]) && h.byDevice[d] != []
    && forall i | 0 <= i < |h.byDevice[d]| :: EntryOk(h, d, h.byDevice[d][i])
  }

  predicate EntryOk(h: Host, d: string, id: ConnId) {
    id in h.conns && h.conns[id].state != Closed && h.conns[id].peer.Some? && h.conns[id].peer.value.deviceId == d
  }

  predicate EpochsApart(h: Host) {
    forall a, b | a in h.conns && b in h.conns && a != b && h.conns[a].peer.Some? && h.conns[b].peer.Some? ::
      h.conns[a].peer.value.connectionEpoch != h.conns[b].peer.value.connectionEpoch
  }

  predicate ReleasedOk(h: Host) {
    Distinct(h.released) && forall i | 0 <= i < |h.released| :: h.released[i].connectionEpoch <= h.epoch
  }

  predicate Core(h: Host) {
    && (forall id | id in h.conns :: ConnOk(h, id))
    && (forall d | d in h.byDevice :: EntriesOk(h, d))
    && EpochsApart(h) && ReleasedOk(h) && DistinctIds(h.devices)
    && Distinct(h.active) && (forall i | 0 <= i < |h.active| :: h.active[i] in h.conns)
  }

  /** Every open connection is listed, except perhaps one that is being set up. */
  predicate ListedBut(h: Host, x: ConnId) {
    forall id | id in h.conns && id != x && h.conns[id].state != Closed :: id in h.active
  }

  predicate AllListed(h: Host) {
    forall id | id in h.conns && h.conns[id].state != Closed :: id in h.active
  }

  /** No connection is active for a device that is now revoked. */
  predicate NoRevokedActive(h: Host) {
    forall id | id in h.conns && h.conns[id].state == Active ::
      h.conns[id].peer.Some? && !Revoked(h.devices, h.conns[id].peer.value.deviceId)
  }

  predicate WithinBounds(b: Bounds, h: Host) {
    && |h.active| <= b.maxConnections
    && forall id | id in h.conns :: h.conns[id].pendingInbound <= b.maxInboundQueue
  }

  predicate Sound(b: Bounds, h: Host) {
    Core(h) && AllListed(h) && WithinBounds(b, h)
  }

  // ----- closing -----

  /** The entries of a device after one of its connections, if it was, has closed. */
  function EntriesAfter(h: Host, id: ConnId, d: string): seq<ConnId>
    requires id in h.conns && d in h.byDevice
  {
    var peer := h.conns[id].peer;
    if h.conns[id].state != Closed && peer.Some? && peer.value.deviceId == d then Connections.Without(h.byDevice[d], id) else h.byDevice[d]
  }

  lemma CleanupShape(h: Host, id: ConnId)
    requires id in h.conns
    ensures var r := Cleanup(h, id);
            && r.conns == h.conns[id := h.conns[id].(state := Closed)]
            && r == h.(conns := r.conns, active := r.active, byDevice := r.byDevice, released := r.released)
            && r.released == (if h.conns[id].state != Closed && h.conns[id].peer.Some? then h.released + [h.conns[id].peer.value] else h.released)
            && r.active == (if h.conns[id].state == Closed then h.active else Connections.Without(h.active, id))
            && (forall d | d in r.byDevice :: d in h.byDevice && r.byDevice[d] == EntriesAfter(h, id, d))
            && (forall d | d in h.byDevice && EntriesAfter(h, id, d) != [] :: d in r.byDevice)
            && (forall d | d in r.byDevice && h.byDevice[d] != [] :: r.byDevice[d] != [])
            && (forall d | d in h.byDevice && (h.conns[id].peer.None? || h.conns[id].peer.value.deviceId != d) :: d in r.byDevice)
  {
    hide Connections.Without;
    if h.conns[id].state == Closed {
      assert h.conns == h.conns[id := h.conns[id].(state := Closed)];
    }
  }

  lemma CleanupConns(h: Host, id: ConnId)
    requires Core(h) && id in h.conns && h.conns[id].state != Closed
    ensures forall other | other in h.conns :: ConnOk(Cleanup(h, id), other)
  {
    hide Cleanup;
    hide EntriesOk;
    CleanupShape(h, id);
    var r, c := Cleanup(h, id), h.conns[id];
    assert ConnOk(h, id);
    if c.peer.Some? { assert c.peer.value == r.released[|h.released|]; }
    forall other | other in h.conns ensures ConnOk(r, other) {
      assert ConnOk(h, other);
      if other != id && c.peer.Some? && h.conns[other].peer.Some? { OtherPeer(h, id, other); }
    }
  }

  lemma CleanupEntries(h: Host, id: ConnId)
    requires Core(h) && id in h.conns && h.conns[id].state != Closed
    ensures forall d | d in Cleanup(h, id).byDevice :: EntriesOk(Cleanup(h, id), d)
  {
    hide Cleanup;
    hide ConnOk;
    CleanupShape(h, id);
    var r := Cleanup(h, id);
    forall d | d in r.byDevice ensures EntriesOk(r, d) {
      assert EntriesOk(h, d);
      forall i | 0 <= i < |r.byDevice[d]| ensures EntryOk(r, d, r.byDevice[d][i]) {
        EntrySurvives(h, id, d, i);
      }
    }
  }

  lemma EntrySurvives(h: Host, id: ConnId, d: string, i: nat)
    requires id in h.conns && d in h.byDevice && EntriesOk(h, d) && i < |EntriesAfter(h, id, d)|
    requires h.conns[id].state != Closed
    ensures EntryOk(h, d, EntriesAfter(h, id, d)[i]) && EntriesAfter(h, id, d)[i] != id
  {
    var x := EntriesAfter(h, id, d)[i];
    assert x in h.byDevice[d];
    var j :| 0 <= j < |h.byDevice[d]| && h.byDevice[d][j] == x;
    assert EntryOk(h, d, x);
  }

  /** What a close does to the rest of the host. */
  lemma CleanupCore(h: Host, id: ConnId)
    requires Core(h) && id in h.conns
    ensures Core(Cleanup(h, id))
  {
    hide ConnOk;
    hide EntriesOk;
    hide Cleanup;
    CleanupShape(h, id);
    if h.conns[id].state == Closed {
      CleanupOfClosed(h, id);
    } else {
      CleanupConns(h, id);
      CleanupEntries(h, id);
      CleanupReleases(h, id);
    }
  }

  lemma CleanupOfClosed(h: Host, id: ConnId)
    requires id in h.conns && h.conns[id].state == Closed
    ensures Cleanup(h, id) == h
  {}

  lemma CleanupReleases(h: Host, id: ConnId)
    requires Core(h) && id in h.conns && h.conns[id].state != Closed
    ensures ReleasedOk(Cleanup(h, id))
  {
    hide Cleanup;
    hide EntriesOk;
    CleanupShape(h, id);
    assert ConnOk(h, id);
  }

  lemma OtherPeer(h: Host, a: ConnId, b: ConnId)
    requires EpochsApart(h) && a in h.conns && b in h.conns && a != b && h.conns[a].peer.Some? && h.conns[b].peer.Some?
    ensures h.conns[a].peer.value != h.conns[b].peer.value
  {}

  /** A close keeps the rest as it is: the other connections, the store, and who is listed. */
  lemma CleanupKeeps(b: Bounds, h: Host, id: ConnId, x: ConnId)
    requires Core(h) && id in h.conns && ListedBut(h, x) && WithinBounds(b, h)
    ensures var r := Cleanup(h, id);
            ListedBut(r, x) && WithinBounds(b, r) && (NoRevokedActive(h) ==> NoRevokedActive(r))
  {
    hide ConnOk;
    hide EntriesOk;
    hide Cleanup;
    hide Revoked;
    CleanupShape(h, id);
  }

  // ----- the handshake -----

  lemma AuthenticateCore(h: Host, id: ConnId, deviceId: string)
    requires Core(h) && id in h.conns && h.conns[id].state in {Connected, NoiseHandshake} && h.epoch >= 0
    ensures Core(Authenticate(h, id, deviceId))
  {
    hide Distinct;
    var r := Authenticate(h, id, deviceId);
    assert ConnOk(h, id);
    AuthenticateEntries(h, id, deviceId);
    var peer := Peer(deviceId, h.epoch + 1);
    assert peer !in h.released;
    forall other | other in r.conns ensures ConnOk(r, other) {
      assert ConnOk(h, other);
    }
    assert EpochsApart(r) by {
      forall a | a in h.conns && h.conns[a].peer.Some? ensures h.conns[a].peer.value.connectionEpoch <= h.epoch {
        assert ConnOk(h, a);
      }
    }
  }

  lemma AuthenticateEntries(h: Host, id: ConnId, deviceId: string)
    requires Core(h) && id in h.conns && h.conns[id].state in {Connected, NoiseHandshake}
    ensures var r := Authenticate(h, id, deviceId);
            && (forall d | d in r.byDevice :: EntriesOk(r, d))
            && deviceId in r.byDevice && id in r.byDevice[deviceId]
            && (forall d | d in h.byDevice :: d in r.byDevice && forall x | x in h.byDevice[d] :: x in r.byDevice[d])
  {
    hide ConnOk;
    var r := Authenticate(h, id, deviceId);
    assert h.conns[id].peer.None? by { AnonymousYet(h, id); }
    forall d | d in r.byDevice ensures EntriesOk(r, d) {
      if d in h.byDevice { assert EntriesOk(h, d); }
      forall i | 0 <= i < |r.byDevice[d]| ensures EntryOk(r, d, r.byDevice[d][i]) {
        if r.byDevice[d][i] != id {
          assert d in h.byDevice && EntryOk(h, d, h.byDevice[d][i]);
        } else if d in h.byDevice && i < |h.byDevice[d]| {
          assert EntryOk(h, d, h.byDevice[d][i]);
        }
      }
    }
  }

  lemma AnonymousYet(h: Host, id: ConnId)
    requires Core(h) && id in h.conns && h.conns[id].state in {Connected, NoiseHandshake}
    ensures h.conns[id].peer.None?
  {
    assert ConnOk(h, id);
  }

  /** A change of state of an open authenticated connection. */
  lemma SetStateCore(h: Host, id: ConnId, state: SecurityState, devices: Devices)
    requires Core(h) && id in h.conns && h.conns[id].peer.Some? && h.conns[id].state != Closed
    requires state in {PairingPending, Active} && DistinctIds(devices)
    ensures Core(SetState(h.(devices := devices), id, state))
  {
    hide Distinct;
    var r := SetState(h.(devices := devices), id, state);
    forall other | other in r.conns ensures ConnOk(r, other) { assert ConnOk(h, other); }
    forall d | d in r.byDevice ensures EntriesOk(r, d) {
      assert EntriesOk(h, d);
      forall i | 0 <= i < |r.byDevice[d]| ensures EntryOk(r, d, r.byDevice[d][i]) { assert EntryOk(h, d, h.byDevice[d][i]); }
    }
  }

  lemma AuthenticateKeeps(b: Bounds, h: Host, id: ConnId, deviceId: string, x: ConnId)
    requires id in h.conns && ListedBut(h, x) && WithinBounds(b, h) && h.conns[id].state != Closed
    ensures var r := Authenticate(h, id, deviceId);
            ListedBut(r, x) && WithinBounds(b, r) && (NoRevokedActive(h) ==> NoRevokedActive(r))
  {
    hide Revoked;
  }

  /** Seeing a device does not revoke it, or any other. */
  lemma SeenIsNotRevoked(devices: Devices, record: StoredDeviceRecord, now: int)
    requires Find(devices, record.deviceId) == Some(record) && DistinctIds(devices)
    ensures var after := SetDevice(devices, record.(lastSeenAt := now));
            DistinctIds(after) && forall d: string :: Revoked(after, d) == Revoked(devices, d)
  {
    var after := SetDevice(devices, record.(lastSeenAt := now));
    forall d: string ensures Revoked(after, d) == Revoked(devices, d) {
      if d == record.deviceId { assert Find(after, d) == Some(record.(lastSeenAt := now)); }
    }
  }

  lemma SetStateKeeps(b: Bounds, h: Host, id: ConnId, state: SecurityState, devices: Devices, x: ConnId)
    requires id in h.conns && h.conns[id].peer.Some? && h.conns[id].state != Closed && state in {PairingPending, Active}
    requires ListedBut(h, x) && WithinBounds(b, h)
    requires forall d: string :: Revoked(devices, d) == Revoked(h.devices, d)
    requires state == Active ==> !Revoked(devices, h.conns[id].peer.value.deviceId)
    ensures var r := SetState(h.(devices := devices), id, state);
            ListedBut(r, x) && WithinBounds(b, r) && (NoRevokedActive(h) ==> NoRevokedActive(r))
  {
    hide Revoked;
  }

  lemma EvaluateIsSafe(b: Bounds, h: Host, id: ConnId, deviceId: string, hello: Handshake, x: ConnId)
    requires Core(h) && id in h.conns && h.conns[id].state == ChannelAuthenticated
    requires h.conns[id].peer.Some? && h.conns[id].peer.value.deviceId == deviceId
    requires ListedBut(h, x) && WithinBounds(b, h)
    ensures var r := EvaluateAuthorization(h, id, deviceId, hello);
            Core(r) && ListedBut(r, x) && WithinBounds(b, r) && (NoRevokedActive(h) ==> NoRevokedActive(r)) && r.epoch == h.epoch
  {
    hide Core;
    hide ListedBut;
    hide WithinBounds;
    hide NoRevokedActive;
    hide Cleanup;
    hide SetDevice;
    CoreDevices(h);
    var found := Find(h.devices, deviceId);
    if hello.storeDown || (found.Some? && (found.value.revokedAt.Some? || (found.value.trustDomainId == h.trustDomainId && hello.seenFails))) {
      CleanupCore(h, id);
      CleanupKeeps(b, h, id, x);
      CleanupShape(h, id);
    } else if found.None? || found.value.trustDomainId != h.trustDomainId {
      SetStateCore(h, id, PairingPending, h.devices);
      SetStateKeeps(b, h, id, PairingPending, h.devices, x);
      assert h.(devices := h.devices) == h;
    } else {
      var after := SetDevice(h.devices, found.value.(lastSeenAt := hello.now));
      SeenIsNotRevoked(h.devices, found.value, hello.now);
      SetStateCore(h, id, Active, after);
      SetStateKeeps(b, h, id, Active, after, x);
    }
  }

  lemma CoreDevices(h: Host)
    requires Core(h)
    ensures DistinctIds(h.devices)
  {}

  lemma HandshakeIsSafe(b: Bounds, h: Host, id: ConnId, hello: Handshake, x: ConnId)
    requires Core(h) && id in h.conns && h.conns[id].state in {Connected, NoiseHandshake} && h.epoch >= 0
    requires ListedBut(h, x) && WithinBounds(b, h)
    ensures var r := HandleHandshake(h, id, hello);
            Core(r) && ListedBut(r, x) && WithinBounds(b, r) && (NoRevokedActive(h) ==> NoRevokedActive(r)) && r.epoch >= h.epoch
  {
    hide Core;
    hide ListedBut;
    hide WithinBounds;
    hide NoRevokedActive;
    hide Cleanup;
    hide EvaluateAuthorization;
    if hello.tooLong || hello.remote.None? || h.epoch >= MAX_SAFE_INTEGER {
      CleanupCore(h, id);
      CleanupKeeps(b, h, id, x);
      CleanupShape(h, id);
    } else {
      var d := hello.remote.value;
      AuthenticateCore(h, id, d);
      AuthenticateKeeps(b, h, id, d, x);
      var a := Authenticate(h, id, d);
      EvaluateIsSafe(b, a, id, d, hello, x);
      var e := EvaluateAuthorization(a, id, d, hello);
      CleanupCore(e, id);
      CleanupKeeps(b, e, id, x);
      CleanupShape(e, id);
    }
  }

  // ----- frames and work -----

  lemma WorkCore(h: Host, id: ConnId, pending: nat)
    requires Core(h) && id in h.conns
    ensures Core(h.(conns := h.conns[id := h.conns[id].(pendingInbound := pending)]))
  {
    hide Distinct;
    var r := h.(conns := h.conns[id := h.conns[id].(pendingInbound := pending)]);
    forall other | other in r.conns ensures ConnOk(r, other) { assert ConnOk(h, other); }
    forall d | d in r.byDevice ensures EntriesOk(r, d) {
      assert EntriesOk(h, d);
      forall i | 0 <= i < |r.byDevice[d]| ensures EntryOk(r, d, r.byDevice[d][i]) { assert EntryOk(h, d, h.byDevice[d][i]); }
    }
  }

  lemma WorkKeeps(b: Bounds, h: Host, id: ConnId, pending: nat, x: ConnId)
    requires id in h.conns && ListedBut(h, x) && WithinBounds(b, h) && pending <= b.maxInboundQueue
    ensures var r := h.(conns := h.conns[id := h.conns[id].(pendingInbound := pending)]);
            ListedBut(r, x) && WithinBounds(b, r) && (NoRevokedActive(h) ==> NoRevokedActive(r))
  {
    hide Revoked;
  }

  lemma FrameIsSafe(b: Bounds, h: Host, id: ConnId, input: Input, x: ConnId)
    requires Core(h) && id in h.conns && h.epoch >= 0 && ListedBut(h, x) && WithinBounds(b, h)
    ensures var r := HandleFrame(b, h, id, input);
            Core(r) && ListedBut(r, x) && WithinBounds(b, r) && (NoRevokedActive(h) ==> NoRevokedActive(r)) && r.epoch >= h.epoch
  {
    hide Core;
    hide ListedBut;
    hide NoRevokedActive;
    hide WithinBounds;
    hide Cleanup;
    hide HandleHandshake;
    CleanupCore(h, id);
    CleanupKeeps(b, h, id, x);
    assert Cleanup(h, id).epoch == h.epoch by { CleanupShape(h, id); }
    if h.conns[id].state in {Connected, NoiseHandshake} && input.BinaryFrame? {
      HandshakeIsSafe(b, h, id, input.hello, x);
    }
    if h.conns[id].pendingInbound < b.maxInboundQueue {
      WorkCore(h, id, h.conns[id].pendingInbound + 1);
      WorkKeeps(b, h, id, h.conns[id].pendingInbound + 1, x);
    }
  }

  lemma {:induction false} FramesAreSafe(b: Bounds, h: Host, id: ConnId, inputs: seq<Input>, x: ConnId)
    requires Core(h) && id in h.conns && h.epoch >= 0 && ListedBut(h, x) && WithinBounds(b, h)
    ensures var r := HandleFrames(b, h, id, inputs);
            Core(r) && ListedBut(r, x) && WithinBounds(b, r) && (NoRevokedActive(h) ==> NoRevokedActive(r)) && r.epoch >= h.epoch
    decreases |inputs|
  {
    hide Core;
    hide ListedBut;
    hide WithinBounds;
    hide NoRevokedActive;
    hide HandleFrame;
    if inputs != [] {
      var init := inputs[..|inputs| - 1];
      FramesAreSafe(b, h, id, init, x);
      FrameIsSafe(b, HandleFrames(b, h, id, init), id, inputs[|inputs| - 1], x);
    }
  }

  lemma WorkDoneIsSafe(b: Bounds, h: Host, id: ConnId, fails: bool, x: ConnId)
    requires Core(h) && id in h.conns && ListedBut(h, x) && WithinBounds(b, h)
    ensures var r := EndWork(h, id, fails);
            Core(r) && ListedBut(r, x) && WithinBounds(b, r) && (NoRevokedActive(h) ==> NoRevokedActive(r)) && r.epoch == h.epoch
  {
    hide Core;
    hide ListedBut;
    hide NoRevokedActive;
    hide Cleanup;
    CleanupCore(h, id);
    CleanupKeeps(b, h, id, x);
    CleanupShape(h, id);
    var h1 := if fails then Cleanup(h, id) else h;
    var pending := h1.conns[id].pendingInbound;
    WorkCore(h1, id, if pending > 0 then pending - 1 else 0);
    WorkKeeps(b, h1, id, if pending > 0 then pending - 1 else 0, x);
  }

  // ----- a new connection -----

  lemma NewConnectionIsSafe(b: Bounds, h: Host, id: ConnId)
    requires Core(h) && AllListed(h) && WithinBounds(b, h) && id !in h.conns
    ensures var r := h.(conns := h.conns[id := Conn(Connected, None, 0)]);
            Core(r) && ListedBut(r, id) && WithinBounds(b, r) && (NoRevokedActive(h) ==> NoRevokedActive(r))
  {
    hide Distinct;
    hide Revoked;
    var r := h.(conns := h.conns[id := Conn(Connected, None, 0)]);
    forall other | other in r.conns ensures ConnOk(r, other) {
      if other != id { assert ConnOk(h, other); }
    }
    forall d | d in r.byDevice ensures EntriesOk(r, d) {
      assert EntriesOk(h, d);
      forall i | 0 <= i < |r.byDevice[d]| ensures EntryOk(r, d, r.byDevice[d][i]) { assert EntryOk(h, d, h.byDevice[d][i]); }
    }
  }

  lemma ListingIsSafe(b: Bounds, h: Host, id: ConnId)
    requires Core(h) && ListedBut(h, id) && WithinBounds(b, h) && id in h.conns && |h.active| < b.maxConnections
    ensures var r := h.(active := Connections.Without(h.active, id) + [id]);
            Core(r) && AllListed(r) && WithinBounds(b, r) && (NoRevokedActive(h) ==> NoRevokedActive(r))
  {
    hide Revoked;
    hide Connections.Without;
    var r := h.(active := Connections.Without(h.active, id) + [id]);
    forall other | other in r.conns ensures ConnOk(r, other) { assert ConnOk(h, other); }
    forall d | d in r.byDevice ensures EntriesOk(r, d) {
      assert EntriesOk(h, d);
      forall i | 0 <= i < |r.byDevice[d]| ensures EntryOk(r, d, r.byDevice[d][i]) { assert EntryOk(h, d, h.byDevice[d][i]); }
    }
  }

  lemma UpgradeIsSafe(b: Bounds, h: Host, id: ConnId, head: seq<Input>)
    requires Sound(b, h) && id !in h.conns && h.epoch >= 0
    ensures var r := Upgrade(b, h, id, head);
            Sound(b, r) && (NoRevokedActive(h) ==> NoRevokedActive(r)) && r.epoch >= h.epoch
  {
    hide Core;
    hide ListedBut;
    hide NoRevokedActive;
    hide HandleFrames;
    if |h.active| < b.maxConnections {
      NewConnectionIsSafe(b, h, id);
      var h1 := h.(conns := h.conns[id := Conn(Connected, None, 0)]);
      FramesAreSafe(b, h1, id, head, id);
      FramesKeepRoom(b, h1, id, head);
      ListingIsSafe(b, HandleFrames(b, h1, id, head), id);
    }
  }

  lemma {:induction false} FramesKeepRoom(b: Bounds, h: Host, id: ConnId, inputs: seq<Input>)
    requires id in h.conns
    ensures Touches(h, HandleFrames(b, h, id, inputs), id)
    ensures |HandleFrames(b, h, id, inputs).active| <= |h.active|
    decreases |inputs|
  {
    hide HandleFrame;
    hide Touches;
    if inputs == [] {
      TouchesNothing(h, id);
    } else {
      var g := HandleFrames(b, h, id, inputs[..|inputs| - 1]);
      FramesKeepRoom(b, h, id, inputs[..|inputs| - 1]);
      FrameTouches(b, g, id, inputs[|inputs| - 1]);
      TouchesChain(h, g, HandleFrame(b, g, id, inputs[|inputs| - 1]), id);
      TouchesRoom(h, HandleFrames(b, h, id, inputs), id);
    }
  }

  // ----- what a frame can touch -----

  /** Only one connection changes: it keeps its peer or gets a new one with a later epoch, and if it was closed it
      stays as it was; nobody else leaves the table. */
  predicate Touches(h: Host, r: Host, id: ConnId) {
    && id in h.conns && r.conns.Keys == h.conns.Keys && r.epoch >= h.epoch && |r.active| <= |h.active|
    && (forall other | other in h.conns && other != id :: r.conns[other] == h.conns[other])
    && (forall x | x in h.active && (x != id || r.conns[id].state != Closed || h.conns[id].state == Closed) :: x in r.active)
    && (h.conns[id].state == Closed ==> r.conns[id].state == Closed && r.conns[id].peer == h.conns[id].peer)
    && (r.conns[id].peer == h.conns[id].peer || (r.conns[id].peer.Some? && r.conns[id].peer.value.connectionEpoch > h.epoch))
  }

  lemma TouchesNothing(h: Host, id: ConnId)
    requires id in h.conns
    ensures Touches(h, h, id)
  {}

  lemma TouchesRoom(h: Host, r: Host, id: ConnId)
    requires Touches(h, r, id)
    ensures |r.active| <= |h.active|
  {}

  lemma TouchesChain(h: Host, g: Host, r: Host, id: ConnId)
    requires Touches(h, g, id) && Touches(g, r, id)
    ensures Touches(h, r, id)
  {}

  lemma CleanupTouches(h: Host, id: ConnId)
    requires id in h.conns
    ensures Touches(h, Cleanup(h, id), id)
  {
    hide Cleanup;
    CleanupShape(h, id);
  }

  lemma AuthenticateTouches(h: Host, id: ConnId, deviceId: string)
    requires id in h.conns && h.conns[id].state != Closed
    ensures Touches(h, Authenticate(h, id, deviceId), id)
  {}

  lemma EvaluateTouches(h: Host, id: ConnId, deviceId: string, hello: Handshake)
    requires id in h.conns && h.conns[id].state != Closed
    ensures Touches(h, EvaluateAuthorization(h, id, deviceId, hello), id)
  {
    hide Cleanup;
    hide Find;
    hide SetDevice;
    CleanupTouches(h, id);
  }

  lemma HandshakeTouches(h: Host, id: ConnId, hello: Handshake)
    requires id in h.conns && h.conns[id].state != Closed
    ensures Touches(h, HandleHandshake(h, id, hello), id)
  {
    hide Touches;
    hide Cleanup;
    hide EvaluateAuthorization;
    CleanupTouches(h, id);
    if hello.remote.Some? {
      var d := hello.remote.value;
      var a := Authenticate(h, id, d);
      var e := EvaluateAuthorization(a, id, d, hello);
      AuthenticateTouches(h, id, d);
      EvaluateTouches(a, id, d, hello);
      CleanupTouches(e, id);
      TouchesChain(h, a, e, id);
      TouchesChain(h, e, Cleanup(e, id), id);
    }
  }

  lemma FrameTouches(b: Bounds, h: Host, id: ConnId, input: Input)
    requires id in h.conns
    ensures Touches(h, HandleFrame(b, h, id, input), id)
  {
    hide Cleanup;
    hide HandleHandshake;
    CleanupTouches(h, id);
    if h.conns[id].state != Closed && input.BinaryFrame? {
      HandshakeTouches(h, id, input.hello);
    }
  }
}
