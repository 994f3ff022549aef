/** The connections of the LAN carrier: their security states, the index by device, and revocation. */
module Connections {

  import opened Wrappers
  import opened DeviceRecords
  import opened DeviceRequests

  const MAX_SAFE_INTEGER := 9007199254740991

  datatype SecurityState = Connected | NoiseHandshake | ChannelAuthenticated | PairingPending | DeviceAuthorized | Active | Closed

  datatype Peer = Peer(deviceId: string, connectionEpoch: int)

  type ConnId = nat

  datatype Conn = Conn(state: SecurityState, peer: Option<Peer>, pendingInbound: nat)

  datatype Bounds = Bounds(maxConnections: nat, maxInboundQueue: nat)

  /** A host is its carrier, its epoch counter, its trust store, and the peers it released at the core. */
  datatype Host = Host(
    conns: map<ConnId, Conn>,
    active: seq<ConnId>,
    byDevice: map<string, seq<ConnId>>,
    epoch: int,
    devices: Devices,
    trustDomainId: string,
    subscribed: bool,
    released: seq<Peer>)

  /** What a Noise message 1 turns out to be, and what the store and the socket do while it is handled. */
  datatype Handshake = Handshake(tooLong: bool, remote: Option<string>, storeDown: bool, seenFails: bool, sendFails: bool, now: int)

  /** A frame, as far as the security states are concerned. */
  datatype Input =
    | CloseFrame
    | PingFrame(slow: bool)
    | PongFrame
    | OtherFrame
    | BinaryFrame(hello: Handshake)

  function Without<T(==)>(s: seq<T>, x: T): (r: seq<T>)
    ensures x !in r && (forall i | 0 <= i < |r| :: r[i] in s) && (forall i | 0 <= i < |s| && s[i] != x :: s[i] in r)
    ensures |r| <= |s|
    ensures Distinct(s) ==> Distinct(r) && (x in s ==> |r| < |s|)
  {
    if s == [] then []
    else
      var rest := Without(s[..|s| - 1], x);
      assert s == s[..|s| - 1] + [s[|s| - 1]];
      if s[|s| - 1] == x then rest else rest + [s[|s| - 1]]
  }

  // ----- closing -----

  /** Forget a connection: it leaves the table of connections and the index of its device. */
  function RemoveConnection(h: Host, id: ConnId, peer: Option<Peer>): Host {
    var h1 := h.(active := Without(h.active, id));
    if peer.Some? && peer.value.deviceId in h.byDevice then
      var rest := Without(h.byDevice[peer.value.deviceId], id);
      h1.(byDevice := if rest == [] then h.byDevice - {peer.value.deviceId} else h.byDevice[peer.value.deviceId := rest])
    else h1
  }

  /** Closing happens once: later closes find the connection closed and do nothing. */
  function Cleanup(h: Host, id: ConnId): (r: Host)
    ensures r.conns.Keys == h.conns.Keys
  {
    if id !in h.conns || h.conns[id].state == Closed then h
    else
      var c := h.conns[id];
      RemoveConnection(h.(conns := h.conns[id := c.(state := Closed)],
                          released := if c.peer.Some? then h.released + [c.peer.value] else h.released), id, c.peer)
  }

  function CleanupAll(h: Host, ids: seq<ConnId>): (r: Host)
    ensures r.conns.Keys == h.conns.Keys
    decreases |ids|
  {
    if ids == [] then h else CleanupAll(Cleanup(h, ids[0]), ids[1..])
  }

  // ----- the handshake -----

  function SetState(h: Host, id: ConnId, state: SecurityState): (r: Host)
    requires id in h.conns
    ensures r.conns.Keys == h.conns.Keys
  {
    h.(conns := h.conns[id := h.conns[id].(state := state)])
  }

  /** Enter the connection under its device. */
  function Index(h: Host, id: ConnId, deviceId: string): Host {
    var others := if deviceId in h.byDevice then h.byDevice[deviceId] else [];
    h.(byDevice := h.byDevice[deviceId := if id in others then others else others + [id]])
  }

  /** Decide what an authenticated channel may do. */
  function EvaluateAuthorization(h: Host, id: ConnId, deviceId: string, hello: Handshake): (r: Host)
    requires id in h.conns
    ensures r.conns.Keys == h.conns.Keys
  {
    if hello.storeDown then Cleanup(h, id)
    else
      match Find(h.devices, deviceId)
      case None => SetState(h, id, PairingPending)
      case Some(record) =>
        if record.revokedAt.Some? then Cleanup(h, id)
        else if record.trustDomainId != h.trustDomainId then SetState(h, id, PairingPending)
        else if hello.seenFails then Cleanup(h, id)
        else SetState(h.(devices := SetDevice(h.devices, record.(lastSeenAt := hello.now))), id, Active)
  }

  function Authenticate(h: Host, id: ConnId, deviceId: string): (r: Host)
    requires id in h.conns
    ensures r.conns.Keys == h.conns.Keys
  {
    var h1 := h.(epoch := h.epoch + 1);
    var h2 := h1.(conns := h.conns[id := h.conns[id].(state := ChannelAuthenticated, peer := Some(Peer(deviceId, h1.epoch)))]);
    Index(h2, id, deviceId)
  }

  function HandleHandshake(h: Host, id: ConnId, hello: Handshake): (r: Host)
    requires id in h.conns
    ensures r.conns.Keys == h.conns.Keys
  {
    if hello.tooLong || hello.remote.None? || h.epoch >= MAX_SAFE_INTEGER then Cleanup(h, id)
    else
      var h1 := EvaluateAuthorization(Authenticate(h, id, hello.remote.value), id, hello.remote.value, hello);
      if hello.sendFails then Cleanup(h1, id) else h1
  }

  // ----- frames -----

  /** Work on a payload starts, if the budget of the connection allows. */
  function BeginWork(b: Bounds, h: Host, id: ConnId): (r: Host)
    requires id in h.conns
    ensures r.conns.Keys == h.conns.Keys
  {
    var c := h.conns[id];
    if c.pendingInbound >= b.maxInboundQueue then Cleanup(h, id)
    else h.(conns := h.conns[id := c.(pendingInbound := c.pendingInbound + 1)])
  }

  function HandleFrame(b: Bounds, h: Host, id: ConnId, input: Input): (r: Host)
    requires id in h.conns
    ensures r.conns.Keys == h.conns.Keys
  {
    if h.conns[id].state == Closed then h
    else
      match input
      case CloseFrame => Cleanup(h, id)
      case PingFrame(slow) => if slow then Cleanup(h, id) else h
      case PongFrame => h
      case OtherFrame => Cleanup(h, id)
      case BinaryFrame(hello) =>
        if h.conns[id].state in {Connected, NoiseHandshake} then HandleHandshake(h, id, hello) else BeginWork(b, h, id)
  }

  function HandleFrames(b: Bounds, h: Host, id: ConnId, inputs: seq<Input>): (r: Host)
    requires id in h.conns
    ensures r.conns.Keys == h.conns.Keys
  {
    if inputs == [] then h else HandleFrame(b, HandleFrames(b, h, id, inputs[..|inputs| - 1]), id, inputs[|inputs| - 1])
  }

  /** Work on a payload ends; a failure closes the connection. */
  function EndWork(h: Host, id: ConnId, fails: bool): Host
    requires id in h.conns
  {
    var h1 := if fails then Cleanup(h, id) else h;
    var c := h1.conns[id];
    h1.(conns := h1.conns[id := c.(pendingInbound := if c.pendingInbound > 0 then c.pendingInbound - 1 else 0)])
  }

  // ----- the host -----

  /** A new connection works through the bytes that came with the upgrade before the carrier lists it. */
  function Upgrade(b: Bounds, h: Host, id: ConnId, head: seq<Input>): Host {
    if |h.active| >= b.maxConnections then h
    else
      var h1 := HandleFrames(b, h.(conns := h.conns[id := Conn(Connected, None, 0)]), id, head);
      h1.(active := Without(h1.active, id) + [id])
  }

  /** Close every connection of a device. */
  function HandleRevocation(h: Host, deviceId: string): Host {
    if deviceId !in h.byDevice then h
    else
      var h1 := CleanupAll(h, h.byDevice[deviceId]);
      h1.(byDevice := h1.byDevice - {deviceId})
  }

  /** A request to the trust store; a committed revocation is heard while the carrier is subscribed. */
  function StoreRequest(fp: FingerprintFn, maxDevices: nat, h: Host, req: Request, now: int, commits: bool): Host {
    match Stage(fp, maxDevices, h.devices, req, now)
    case Change(devices, _) =>
      if !commits then h
      else
        var h1 := h.(devices := devices);
        if req.Revoke? && h.subscribed then HandleRevocation(h1, req.id) else h1
    case _ => h
  }

  datatype Step =
    | Accept(newId: ConnId, head: seq<Input>)
    | Frame(id: ConnId, input: Input)
    | WorkDone(worker: ConnId, fails: bool)
    | Terminate(victim: ConnId)
    | Request(req: Request, now: int, commits: bool)
    | Subscribe
    | StopBegins
    | StopEnds

  datatype Config = Config(bounds: Bounds, fp: FingerprintFn, maxDevices: nat)

  function Next(cfg: Config, h: Host, step: Step): Host {
    match step
    case Accept(newId, head) => if newId in h.conns then h else Upgrade(cfg.bounds, h, newId, head)
    case Frame(id, input) => if id in h.conns then HandleFrame(cfg.bounds, h, id, input) else h
    case WorkDone(id, fails) => if id in h.conns then EndWork(h, id, fails) else h
    case Terminate(id) => Cleanup(h, id)
    case Request(req, now, commits) => StoreRequest(cfg.fp, cfg.maxDevices, h, req, now, commits)
    case Subscribe => h.(subscribed := true)
    case StopBegins => h.(subscribed := false)
    case StopEnds => CleanupAll(h, h.active).(active := [], byDevice := map[])
  }
}
