/** What each frame does to a connection, exactly: when a handshake makes it active, when it is left to be paired, and when
    it is closed; and over whole runs, that a connection becomes active in no other way. */
module ConnectionActivation {

  import opened Wrappers
  import opened DeviceRecords
  import opened DeviceRequests
  import opened Connections
  import opened ConnectionSafety
  import opened ConnectionRuns
  import opened RevocationWindows

  predicate Unauthenticated(h: Host, id: ConnId) {
    id in h.conns && h.conns[id].state in {Connected, NoiseHandshake}
  }

  /** The Noise message is read and answered, and there is an epoch left for the peer. */
  predicate Authenticates(h: Host, hello: Handshake) {
    !hello.tooLong && hello.remote.Some? && h.epoch < MAX_SAFE_INTEGER
  }

  /** The host knows the device, has not revoked it, and enrolled it in the trust domain that it has now. */
  predicate Welcome(h: Host, device: string) {
    var found := Find(h.devices, device);
    found.Some? && found.value.revokedAt == None && found.value.trustDomainId == h.trustDomainId
  }

  /** The host does not know the device, or knows it from another trust domain. */
  predicate Stranger(h: Host, device: string) {
    var found := Find(h.devices, device);
    found.None? || (found.value.revokedAt == None && found.value.trustDomainId != h.trustDomainId)
  }

  lemma CleanupCloses(h: Host, c: ConnId)
    ensures c in h.conns ==> Cleanup(h, c).conns == h.conns[c := h.conns[c].(state := Closed)]
    ensures c !in h.conns ==> Cleanup(h, c) == h
    ensures Cleanup(h, c).devices == h.devices && Cleanup(h, c).epoch == h.epoch
  {
    if c in h.conns { CleanupShape(h, c); }
  }

  /** A Noise message on an unauthenticated connection: the state that it leads to, the peer that it is bound to, and what
      the store remembers of the sighting. */
  lemma HandshakeOutcome(b: Bounds, h: Host, id: ConnId, hello: Handshake)
    requires Unauthenticated(h, id) && h.conns[id].peer.None?
    ensures var r := HandleFrame(b, h, id, BinaryFrame(hello));
            var c, device := r.conns[id], hello.remote;
            var through := Authenticates(h, hello) && !hello.storeDown && !hello.sendFails;
            && (c.state == Active <==> through && Welcome(h, device.value) && !hello.seenFails)
            && (c.state == PairingPending <==> through && Stranger(h, device.value))
            && c.state in {Active, PairingPending, Closed}
            && c.peer == (if Authenticates(h, hello) then Some(Peer(device.value, h.epoch + 1)) else None)
            && r.epoch == (if Authenticates(h, hello) then h.epoch + 1 else h.epoch)
            && c.pendingInbound == h.conns[id].pendingInbound
            && r.conns.Keys == h.conns.Keys && (forall other | other in h.conns && other != id :: r.conns[other] == h.conns[other])
            && r.devices == if Authenticates(h, hello) && !hello.storeDown && Welcome(h, device.value) && !hello.seenFails
                            then SetDevice(h.devices, Find(h.devices, device.value).value.(lastSeenAt := hello.now)) else h.devices
  {
    hide Cleanup;
    hide EvaluateAuthorization;
    hide Authenticate;
    hide Welcome;
    hide Stranger;
    hide SetDevice;
    CleanupCloses(h, id);
    if Authenticates(h, hello) {
      var device := hello.remote.value;
      var a := Authenticate(h, id, device);
      AuthenticationOutcome(h, id, device);
      EvaluationOutcome(a, id, device, hello);
      CleanupCloses(EvaluateAuthorization(a, id, device, hello), id);
    }
  }

  lemma AuthenticationOutcome(h: Host, id: ConnId, device: string)
    requires id in h.conns
    ensures var a := Authenticate(h, id, device);
            && a.conns == h.conns[id := h.conns[id].(state := ChannelAuthenticated, peer := Some(Peer(device, h.epoch + 1)))]
            && a.epoch == h.epoch + 1 && a.devices == h.devices
            && (Welcome(a, device) <==> Welcome(h, device)) && (Stranger(a, device) <==> Stranger(h, device))
  {}

  /** What the live record of an authenticated device allows. */
  lemma EvaluationOutcome(h: Host, id: ConnId, device: string, hello: Handshake)
    requires id in h.conns
    ensures var r := EvaluateAuthorization(h, id, device, hello);
            && r.conns == h.conns[id := h.conns[id].(state :=
                 if hello.storeDown then Closed
                 else if Stranger(h, device) then PairingPending
                 else if Welcome(h, device) && !hello.seenFails then Active
                 else Closed)]
            && r.epoch == h.epoch && !(Welcome(h, device) && Stranger(h, device))
            && r.devices == if !hello.storeDown && Welcome(h, device) && !hello.seenFails
                            then SetDevice(h.devices, Find(h.devices, device).value.(lastSeenAt := hello.now)) else h.devices
  {
    hide Cleanup;
    hide SetDevice;
    CleanupCloses(h, id);
  }

  /** Every other frame: it closes the connection, starts work within the budget, or does nothing. */
  lemma FrameOutcome(b: Bounds, h: Host, id: ConnId, input: Input)
    requires id in h.conns && !(Unauthenticated(h, id) && input.BinaryFrame?)
    ensures var r, c := HandleFrame(b, h, id, input), h.conns[id];
            && r.devices == h.devices && r.epoch == h.epoch && r.subscribed == h.subscribed
            && (c.state == Closed ==> r == h)
            && (c.state != Closed && ClosesActive(b, c, input) ==> r.conns == h.conns[id := c.(state := Closed)])
            && (c.state != Closed && input.BinaryFrame? && !ClosesActive(b, c, input) ==>
                  r == h.(conns := h.conns[id := c.(pendingInbound := c.pendingInbound + 1)]))
            && (input.PongFrame? || input == PingFrame(false) ==> r == h)
  {
    hide Cleanup;
    CleanupCloses(h, id);
    CleanupShapeSubscribed(h, id);
  }

  lemma CleanupShapeSubscribed(h: Host, id: ConnId)
    ensures Cleanup(h, id).subscribed == h.subscribed
  {}

  /** The end of work: a failure closes the connection, and the budget is given back. */
  lemma WorkOutcome(h: Host, id: ConnId, fails: bool)
    requires id in h.conns
    ensures var r, c := EndWork(h, id, fails), h.conns[id];
            && r.conns == h.conns[id := c.(state := if fails then Closed else c.state,
                                           pendingInbound := if c.pendingInbound == 0 then 0 else c.pendingInbound - 1)]
            && r.devices == h.devices && r.epoch == h.epoch
  {
    hide Cleanup;
    CleanupCloses(h, id);
  }

  // ----- becoming active -----

  /** The frame that makes a connection active. */
  predicate Activates(h: Host, id: ConnId, input: Input) {
    && Unauthenticated(h, id) && input.BinaryFrame?
    && Authenticates(h, input.hello) && Welcome(h, input.hello.remote.value)
    && !input.hello.storeDown && !input.hello.seenFails && !input.hello.sendFails
  }

  predicate IsActive(h: Host, id: ConnId) {
    id in h.conns && h.conns[id].state == Active
  }

  predicate Anonymous(h: Host, id: ConnId) {
    id in h.conns && (h.conns[id].state in {Connected, NoiseHandshake} ==> h.conns[id].peer.None?)
  }

  lemma FrameActive(b: Bounds, h: Host, id: ConnId, input: Input)
    requires Anonymous(h, id)
    ensures var r := HandleFrame(b, h, id, input);
            && Anonymous(r, id)
            && (IsActive(r, id) <==> Activates(h, id, input) || (IsActive(h, id) && !ClosesActive(b, h.conns[id], input)))
  {
    hide HandleFrame;
    hide Welcome;
    hide Stranger;
    hide Authenticates;
    if Unauthenticated(h, id) && input.BinaryFrame? {
      HandshakeOutcome(b, h, id, input.hello);
    } else {
      FrameOutcome(b, h, id, input);
      if !input.BinaryFrame? && !AlwaysCloses(input) { QuietFrame(b, h, id, input); }
    }
  }

  lemma QuietFrame(b: Bounds, h: Host, id: ConnId, input: Input)
    requires id in h.conns && !input.BinaryFrame? && !AlwaysCloses(input)
    ensures HandleFrame(b, h, id, input) == h
  {}

  /** The bytes of an upgrade leave the connection active if and only if one of their frames makes it active and none
      behind it closes it. */
  lemma {:induction false} HeadActive(b: Bounds, h: Host, id: ConnId, head: seq<Input>)
    requires Unauthenticated(h, id) && h.conns[id].peer.None?
    ensures Anonymous(HandleFrames(b, h, id, head), id)
    ensures IsActive(HandleFrames(b, h, id, head), id) <==> exists n: nat :: n < |head| && ActivatedBy(b, h, id, head, n)
    decreases |head|
  {
    hide HandleFrame;
    hide Activates;
    hide ClosesActive;
    if head != [] {
      var last := |head| - 1;
      var init := head[..last];
      var g := HandleFrames(b, h, id, init);
      HeadActive(b, h, id, init);
      FrameActive(b, g, id, head[last]);
      if Activates(g, id, head[last]) {
        assert ActivatedBy(b, h, id, head, last);
      } else if IsActive(HandleFrames(b, h, id, head), id) {
        var n: nat :| n < last && ActivatedBy(b, h, id, init, n);
        ActivatedLonger(b, h, id, head, n);
      }
      if n: nat :| n < |head| && ActivatedBy(b, h, id, head, n) {
        if n < last {
          ActivatedLonger(b, h, id, head, n);
        }
      }
    }
  }

  /** Frame number n of the head makes the connection active, and no later one closes it. */
  predicate ActivatedBy(b: Bounds, h: Host, id: ConnId, head: seq<Input>, n: nat)
    requires id in h.conns && n < |head|
  {
    && Activates(HandleFrames(b, h, id, head[..n]), id, head[n])
    && forall m | n < m < |head| :: !ClosesActive(b, HandleFrames(b, h, id, head[..m]).conns[id], head[m])
  }

  lemma ActivatedLonger(b: Bounds, h: Host, id: ConnId, head: seq<Input>, n: nat)
    requires id in h.conns && n < |head| - 1
    ensures ActivatedBy(b, h, id, head, n)
       <==> ActivatedBy(b, h, id, head[..|head| - 1], n)
            && !ClosesActive(b, HandleFrames(b, h, id, head[..|head| - 1]).conns[id], head[|head| - 1])
  {
    hide Activates;
    hide ClosesActive;
    hide HandleFrames;
    var init := head[..|head| - 1];
    assert forall m | 0 <= m <= |init| :: head[..m] == init[..m];
    assert init[..|init|] == init;
  }

  lemma OthersNotActivated(cfg: Config, h: Host, step: Step, id: ConnId)
    requires Sound(cfg.bounds, h) && IsActive(Next(cfg, h, step), id) && !IsActive(h, id)
    ensures (step.Frame? && step.id == id) || (step.Accept? && step.newId == id && id !in h.conns)
  {
    hide Sound;
    hide HandleFrame;
    hide HandleFrames;
    hide Cleanup;
    match step
    case Accept(newId, head) =>
      if newId !in h.conns && newId != id { HeadTouches(cfg.bounds, h, newId, head, id); }
    case Frame(c, input) => if c in h.conns { FrameTouches(cfg.bounds, h, c, input); }
    case WorkDone(c, fails) => if c in h.conns { WorkOutcome(h, c, fails); }
    case Terminate(c) => CleanupCloses(h, c);
    case Request(_, _, _) => RequestActivatesNobody(cfg, h, step, id);
    case Subscribe =>
    case StopBegins =>
    case StopEnds => StopClosesAll(cfg.bounds, h);
  }

  lemma HeadTouches(b: Bounds, h: Host, newId: ConnId, head: seq<Input>, id: ConnId)
    requires newId !in h.conns && newId != id
    ensures IsActive(Upgrade(b, h, newId, head), id) <==> IsActive(h, id)
  {
    hide HandleFrames;
    FramesKeepRoom(b, h.(conns := h.conns[newId := Conn(Connected, None, 0)]), newId, head);
  }

  lemma RequestActivatesNobody(cfg: Config, h: Host, step: Step, id: ConnId)
    requires Sound(cfg.bounds, h) && step.Request?
    ensures IsActive(Next(cfg, h, step), id) ==> IsActive(h, id)
  {
    hide Sound;
    hide Stage;
    hide HandleRevocation;
    var stage := Stage(cfg.fp, cfg.maxDevices, h.devices, step.req, step.now);
    if stage.Change? && step.commits && step.req.Revoke? {
      DevicesAreDistinct(cfg.bounds, h);
      StageRevokesOne(cfg.fp, cfg.maxDevices, h.devices, step.req, step.now);
      DevicesChangeIsSound(cfg.bounds, h, stage.devices);
      RevocationCloses(cfg.bounds, h.(devices := stage.devices), step.req.id);
    }
  }

  lemma OpenIsAnonymous(b: Bounds, h: Host, id: ConnId)
    requires Sound(b, h) && id in h.conns
    ensures Anonymous(h, id)
  {
    assert ConnOk(h, id);
  }

  /** A frame or an upgrade that makes this connection active against the records of that moment. */
  predicate ActivatingStep(cfg: Config, h: Host, step: Step, id: ConnId) {
    match step
    case Frame(c, input) => c == id && Activates(h, id, input)
    case Accept(newId, head) =>
      newId == id && id !in h.conns && |h.active| < cfg.bounds.maxConnections
      && var anew := h.(conns := h.conns[id := Conn(Connected, None, 0)]);
         exists n: nat :: n < |head| && ActivatedBy(cfg.bounds, anew, id, head, n)
    case _ => false
  }

  /** Over every run: a connection becomes active in a step if and only if in that step it is open and unauthenticated,
      the handshake comes through, and the records of that moment hold its device, not revoked and of the host's domain. */
  lemma BecomesActiveIff(cfg: Config, hosts: seq<Host>, steps: seq<Step>, i: nat, id: ConnId)
    requires RunOf(cfg, hosts, steps) && i < |steps|
    ensures !IsActive(hosts[i], id) && IsActive(hosts[i + 1], id) <==> ActivatingStep(cfg, hosts[i], steps[i], id)
  {
    hide Sound;
    hide HandleFrame;
    hide HandleFrames;
    hide Activates;
    hide ClosesActive;
    var h, step := hosts[i], steps[i];
    EveryStateIsSound(cfg, hosts, steps, i);
    assert hosts[i + 1] == Next(cfg, h, step);
    if step.Accept? && step.newId == id && id !in h.conns {
      HeadActive(cfg.bounds, h.(conns := h.conns[id := Conn(Connected, None, 0)]), id, step.head);
    } else if step.Frame? && step.id == id {
      if id in h.conns {
        OpenIsAnonymous(cfg.bounds, h, id);
        FrameActive(cfg.bounds, h, id, step.input);
      }
      ActivatesFromOpen(h, id, step.input);
    } else if !IsActive(h, id) && IsActive(hosts[i + 1], id) {
      OthersNotActivated(cfg, h, step, id);
    }
  }

  lemma ActivatesFromOpen(h: Host, id: ConnId, input: Input)
    ensures Activates(h, id, input) ==> id in h.conns && !IsActive(h, id)
  {}
}
