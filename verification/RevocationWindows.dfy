/** When a connection is active for a revoked device, exactly: only a revocation that nobody hears brings it about, while
    a start has not subscribed yet or a stop has not ended, and only a close or a change of the device ends it. */
module RevocationWindows {

  import opened Wrappers
  import opened DeviceRecords
  import opened DeviceRequests
  import opened Connections
  import opened ConnectionSafety
  import opened ConnectionRuns

  predicate ActiveAs(h: Host, id: ConnId, d: string) {
    id in h.conns && h.conns[id].state == Active && h.conns[id].peer.Some? && h.conns[id].peer.value.deviceId == d
  }

  predicate RevokedActive(h: Host, id: ConnId, d: string) {
    ActiveAs(h, id, d) && Revoked(h.devices, d)
  }

  /** A revocation that is committed while the carrier is not subscribed. */
  predicate RevokesUnheard(cfg: Config, h: Host, step: Step, d: string) {
    && step.Request? && step.req.Revoke? && step.req.id == d && step.commits && !h.subscribed
    && Stage(cfg.fp, cfg.maxDevices, h.devices, step.req, step.now).Change?
  }

  /** A committed re-enrollment or removal of the device. */
  predicate Restores(cfg: Config, h: Host, step: Step, d: string) {
    && step.Request? && (step.req.ReEnroll? || step.req.RemoveDevice?) && step.req.id == d && step.commits
    && Stage(cfg.fp, cfg.maxDevices, h.devices, step.req, step.now).Change?
  }

  /** A frame that closes an active connection. */
  predicate ClosesActive(b: Bounds, c: Conn, input: Input) {
    AlwaysCloses(input) || (input.BinaryFrame? && c.pendingInbound >= b.maxInboundQueue)
  }

  /** A step that closes this active connection. */
  predicate Closes(b: Bounds, h: Host, step: Step, id: ConnId)
    requires id in h.conns
  {
    match step
    case Frame(c, input) => c == id && ClosesActive(b, h.conns[id], input)
    case WorkDone(c, fails) => c == id && fails
    case Terminate(c) => c == id
    case StopEnds => true
    case _ => false
  }

  // ----- frames -----

  lemma CleanupRevoked(h: Host, c: ConnId, x: ConnId, d: string)
    ensures Cleanup(h, c).devices == h.devices
    ensures RevokedActive(Cleanup(h, c), x, d) <==> RevokedActive(h, x, d) && x != c
  {
    hide Revoked;
    if c in h.conns { CleanupShape(h, c); }
  }

  lemma EvaluationRevoked(h: Host, id: ConnId, deviceId: string, hello: Handshake, x: ConnId, d: string)
    requires DistinctIds(h.devices) && id in h.conns && h.conns[id].state == ChannelAuthenticated
    requires h.conns[id].peer.Some? && h.conns[id].peer.value.deviceId == deviceId
    ensures var r := EvaluateAuthorization(h, id, deviceId, hello);
            DistinctIds(r.devices) && (RevokedActive(r, x, d) <==> RevokedActive(h, x, d))
  {
    hide Cleanup;
    hide Revoked;
    hide SetDevice;
    hide DistinctIds;
    CleanupRevoked(h, id, x, d);
    var found := Find(h.devices, deviceId);
    if found.Some? {
      RecordTells(h.devices, deviceId);
      SeenIsNotRevoked(h.devices, found.value, hello.now);
    }
  }

  lemma RecordTells(devices: Devices, d: string)
    requires Find(devices, d).Some?
    ensures Revoked(devices, d) <==> Find(devices, d).value.revokedAt.Some?
  {}

  lemma HandshakeRevoked(h: Host, id: ConnId, hello: Handshake, x: ConnId, d: string)
    requires DistinctIds(h.devices) && id in h.conns && h.conns[id].state in {Connected, NoiseHandshake}
    ensures var r := HandleHandshake(h, id, hello);
            DistinctIds(r.devices) && (RevokedActive(r, x, d) <==> RevokedActive(h, x, d))
  {
    hide Cleanup;
    hide EvaluateAuthorization;
    hide Revoked;
    CleanupRevoked(h, id, x, d);
    if hello.remote.Some? {
      var a := Authenticate(h, id, hello.remote.value);
      EvaluationRevoked(a, id, hello.remote.value, hello, x, d);
      EvaluationRevokedActor(a, id, hello.remote.value, hello, d);
      CleanupRevoked(EvaluateAuthorization(a, id, hello.remote.value, hello), id, x, d);
    }
  }

  lemma EvaluationRevokedActor(h: Host, id: ConnId, deviceId: string, hello: Handshake, d: string)
    requires DistinctIds(h.devices) && id in h.conns && h.conns[id].state == ChannelAuthenticated
    requires h.conns[id].peer.Some? && h.conns[id].peer.value.deviceId == deviceId
    ensures !RevokedActive(EvaluateAuthorization(h, id, deviceId, hello), id, d)
  {
    EvaluationRevoked(h, id, deviceId, hello, id, d);
  }

  lemma FrameRevoked(b: Bounds, h: Host, id: ConnId, input: Input, x: ConnId, d: string)
    requires DistinctIds(h.devices) && id in h.conns
    ensures var r := HandleFrame(b, h, id, input);
            && DistinctIds(r.devices)
            && (RevokedActive(r, x, d) <==> RevokedActive(h, x, d) && !(x == id && ClosesActive(b, h.conns[id], input)))
  {
    hide Cleanup;
    hide HandleHandshake;
    hide Revoked;
    CleanupRevoked(h, id, x, d);
    if input.BinaryFrame? && h.conns[id].state in {Connected, NoiseHandshake} {
      HandshakeRevoked(h, id, input.hello, x, d);
    }
  }

  lemma {:induction false} FramesRevoked(b: Bounds, h: Host, id: ConnId, inputs: seq<Input>, x: ConnId, d: string)
    requires DistinctIds(h.devices) && id in h.conns && h.conns[id].state != Active
    ensures var r := HandleFrames(b, h, id, inputs);
            DistinctIds(r.devices) && (RevokedActive(r, x, d) <==> RevokedActive(h, x, d)) && !RevokedActive(r, id, d)
    decreases |inputs|
  {
    hide HandleFrame;
    hide Revoked;
    if inputs != [] {
      var init, last := inputs[..|inputs| - 1], inputs[|inputs| - 1];
      FramesRevoked(b, h, id, init, x, d);
      FrameRevoked(b, HandleFrames(b, h, id, init), id, last, x, d);
      FrameRevoked(b, HandleFrames(b, h, id, init), id, last, id, d);
    }
  }

  // ----- store requests -----

  /** What a staged change does to the revocation of a device. */
  lemma StageRevokes(fp: FingerprintFn, maxDevices: nat, devices: Devices, req: Request, now: int, d: string)
    requires DistinctIds(devices) && Stage(fp, maxDevices, devices, req, now).Change?
    ensures Revoked(Stage(fp, maxDevices, devices, req, now).devices, d)
       <==> (req.Revoke? && req.id == d)
            || (Revoked(devices, d) && !((req.ReEnroll? || req.RemoveDevice?) && req.id == d))
    ensures req.Revoke? && req.id == d ==> !Revoked(devices, d)
  {
    hide SetDevice;
    hide DeleteDevice;
    if req.RemoveDevice? && req.id != d { DeletionKeepsOthers(devices, req.id, d); }
  }

  lemma RequestRevoked(cfg: Config, h: Host, step: Step, id: ConnId, d: string)
    requires Sound(cfg.bounds, h) && step.Request?
    ensures RevokedActive(Next(cfg, h, step), id, d)
       <==> (RevokedActive(h, id, d) && !Restores(cfg, h, step, d)) || (ActiveAs(h, id, d) && RevokesUnheard(cfg, h, step, d))
  {
    hide Sound;
    hide Stage;
    hide Revoked;
    hide HandleRevocation;
    var stage := Stage(cfg.fp, cfg.maxDevices, h.devices, step.req, step.now);
    if stage.Change? && step.commits {
      DevicesAreDistinct(cfg.bounds, h);
      StageRevokesOne(cfg.fp, cfg.maxDevices, h.devices, step.req, step.now);
      StageRevokes(cfg.fp, cfg.maxDevices, h.devices, step.req, step.now, d);
      DevicesChangeIsSound(cfg.bounds, h, stage.devices);
      if step.req.Revoke? {
        RevocationCloses(cfg.bounds, h.(devices := stage.devices), step.req.id);
      }
    }
  }

  lemma DevicesAreDistinct(b: Bounds, h: Host)
    requires Sound(b, h)
    ensures DistinctIds(h.devices)
  {}

  // ----- every step -----

  /** The exact condition for one step. */
  lemma StepRevoked(cfg: Config, h: Host, step: Step, id: ConnId, d: string)
    requires Sound(cfg.bounds, h)
    ensures RevokedActive(Next(cfg, h, step), id, d)
       <==> (RevokedActive(h, id, d) && !Closes(cfg.bounds, h, step, id) && !Restores(cfg, h, step, d))
            || (ActiveAs(h, id, d) && RevokesUnheard(cfg, h, step, d))
  {
    hide Sound;
    hide Stage;
    hide Revoked;
    hide HandleFrame;
    hide HandleFrames;
    hide Cleanup;
    hide CleanupAll;
    hide StoreRequest;
    hide ClosesActive;
    DevicesAreDistinct(cfg.bounds, h);
    match step
    case Accept(newId, head) =>
      if newId !in h.conns {
        FramesRevoked(cfg.bounds, h.(conns := h.conns[newId := Conn(Connected, None, 0)]), newId, head, id, d);
      }
    case Frame(c, input) => if c in h.conns { FrameRevoked(cfg.bounds, h, c, input, id, d); }
    case WorkDone(c, fails) => if c in h.conns { CleanupRevoked(h, c, id, d); }
    case Terminate(c) => CleanupRevoked(h, c, id, d);
    case Request(_, _, _) => RequestRevoked(cfg, h, step, id, d);
    case Subscribe =>
    case StopBegins =>
    case StopEnds => StopClosesAll(cfg.bounds, h);
  }

  /** A revocation in step k that nobody heard, with the connection kept and the device not restored since. */
  predicate UnheardSince(cfg: Config, hosts: seq<Host>, steps: seq<Step>, k: nat, i: nat, id: ConnId, d: string)
    requires k < i <= |steps| && |hosts| == |steps| + 1
  {
    && ActiveAs(hosts[k], id, d) && RevokesUnheard(cfg, hosts[k], steps[k], d)
    && forall j | k < j < i ::
         !(id in hosts[j].conns && Closes(cfg.bounds, hosts[j], steps[j], id)) && !Restores(cfg, hosts[j], steps[j], d)
  }

  /** Over every run: a connection is active for a revoked device if and only if the device was revoked while the
      connection was active and the carrier not subscribed, and neither has ended since. */
  lemma {:induction false} RevokedActiveIffUnheard(cfg: Config, hosts: seq<Host>, steps: seq<Step>, i: nat, id: ConnId, d: string)
    requires RunOf(cfg, hosts, steps) && i < |hosts|
    ensures RevokedActive(hosts[i], id, d) <==> exists k: nat :: k < i && UnheardSince(cfg, hosts, steps, k, i, id, d)
    decreases i
  {
    hide Sound;
    hide Next;
    hide RevokesUnheard;
    hide Restores;
    hide Closes;
    hide RevokedActive;
    hide ActiveAs;
    if i == 0 {
      FreshHasNobody(hosts[0], id, d);
    } else {
      RevokedActiveIffUnheard(cfg, hosts, steps, i - 1, id, d);
      EveryStateIsSound(cfg, hosts, steps, i - 1);
      StepRevoked(cfg, hosts[i - 1], steps[i - 1], id, d);
      ActiveIsThere(hosts[i - 1], id, d);
      if RevokedActive(hosts[i], id, d) {
        if ActiveAs(hosts[i - 1], id, d) && RevokesUnheard(cfg, hosts[i - 1], steps[i - 1], d) {
          assert UnheardSince(cfg, hosts, steps, i - 1, i, id, d);
        } else {
          var k: nat :| k < i - 1 && UnheardSince(cfg, hosts, steps, k, i - 1, id, d);
          assert UnheardSince(cfg, hosts, steps, k, i, id, d);
        }
      }
      if k: nat :| k < i && UnheardSince(cfg, hosts, steps, k, i, id, d) {
        if k < i - 1 { assert UnheardSince(cfg, hosts, steps, k, i - 1, id, d); }
      }
    }
  }

  lemma ActiveIsThere(h: Host, id: ConnId, d: string)
    ensures RevokedActive(h, id, d) ==> id in h.conns
  {}

  lemma FreshHasNobody(h: Host, id: ConnId, d: string)
    requires Fresh(h)
    ensures !RevokedActive(h, id, d)
  {}

  /** The window of a start: a carrier that listens but has not subscribed yet does not hear a revocation; subscribing
      does not help, and neither does revoking once more. */
  lemma StartDoesNotHear(cfg: Config, h: Host, id: ConnId, req: Request, now: int, later: int, commits: bool)
    requires Sound(cfg.bounds, h) && !h.subscribed && req.Revoke? && ActiveAs(h, id, req.id)
    requires Stage(cfg.fp, cfg.maxDevices, h.devices, req, now).Change?
    ensures var started := Next(cfg, Next(cfg, h, Step.Request(req, now, true)), Subscribe);
            && RevokedActive(started, id, req.id)
            && Next(cfg, started, Step.Request(req, later, commits)) == started
  {
    hide Sound;
    hide Stage;
    hide Revoked;
    hide HandleRevocation;
    var step := Step.Request(req, now, true);
    RequestRevoked(cfg, h, step, id, req.id);
    var started := Next(cfg, Next(cfg, h, step), Subscribe);
    RevokedOnce(cfg.fp, cfg.maxDevices, started.devices, req, later);
  }

  lemma RevokedOnce(fp: FingerprintFn, maxDevices: nat, devices: Devices, req: Request, now: int)
    requires req.Revoke? && Revoked(devices, req.id)
    ensures !Stage(fp, maxDevices, devices, req, now).Change?
  {}
}
