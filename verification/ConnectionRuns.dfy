/** The carrier over whole runs: revocation, stopping, epochs, and the windows of a start and of a stop in which a revocation is not heard. */
module ConnectionRuns {

  import opened Wrappers
  import opened DeviceRecords
  import opened DeviceRequests
  import opened Connections
  import opened ConnectionSafety

  // ----- closing many -----

  /** The connections after those in ids were closed. */
  predicate ClosedIn(h: Host, r: Host, ids: seq<ConnId>)
    requires r.conns.Keys == h.conns.Keys
  {
    forall id | id in h.conns :: r.conns[id] == if id in ids then h.conns[id].(state := Closed) else h.conns[id]
  }

  lemma {:induction false} CleanupAllIsSafe(b: Bounds, h: Host, ids: seq<ConnId>)
    requires Sound(b, h) && forall i | 0 <= i < |ids| :: ids[i] in h.conns
    ensures var r := CleanupAll(h, ids);
            && Sound(b, r) && ClosedIn(h, r, ids)
            && r.devices == h.devices && r.subscribed == h.subscribed && r.epoch == h.epoch
            && KeepsClosedListed(h, r)
    decreases |ids|
  {
    hide Sound;
    hide ClosedIn;
    hide KeepsClosedListed;
    hide Cleanup;
    if ids == [] {
      NothingCloses(h);
    } else {
      CloseOne(b, h, ids[0]);
      var g := Cleanup(h, ids[0]);
      CleanupAllIsSafe(b, g, ids[1..]);
      CloseRest(h, g, CleanupAll(g, ids[1..]), ids);
    }
  }

  /** A closed connection that is still listed stays listed. */
  predicate KeepsClosedListed(h: Host, r: Host)
    requires r.conns.Keys == h.conns.Keys
  {
    forall x | x in h.active && x in h.conns && h.conns[x].state == Closed :: x in r.active
  }

  lemma NothingCloses(h: Host)
    ensures ClosedIn(h, h, []) && KeepsClosedListed(h, h)
  {}

  lemma CloseOne(b: Bounds, h: Host, id: ConnId)
    requires Sound(b, h) && id in h.conns
    ensures var r := Cleanup(h, id);
            && Sound(b, r) && ClosedIn(h, r, [id]) && KeepsClosedListed(h, r)
            && r.devices == h.devices && r.subscribed == h.subscribed && r.epoch == h.epoch
  {
    hide Core;
    hide Cleanup;
    CleanupCore(h, id);
    CleanupShape(h, id);
    CleanupTouches(h, id);
    NobodySpecial(h, id);
    CleanupKeeps(b, h, id, id);
  }

  lemma CloseRest(h: Host, g: Host, r: Host, ids: seq<ConnId>)
    requires ids != [] && g.conns.Keys == h.conns.Keys == r.conns.Keys
    requires ClosedIn(h, g, [ids[0]]) && ClosedIn(g, r, ids[1..])
    requires KeepsClosedListed(h, g) && KeepsClosedListed(g, r)
    ensures ClosedIn(h, r, ids) && KeepsClosedListed(h, r)
  {
    assert ids == [ids[0]] + ids[1..];
  }

  lemma NobodySpecial(h: Host, x: ConnId)
    requires AllListed(h)
    ensures ListedBut(h, x)
  {}

  // ----- revocation -----

  lemma OpenIsIndexed(h: Host, id: ConnId)
    requires Core(h) && id in h.conns && h.conns[id].state != Closed && h.conns[id].peer.Some?
    ensures h.conns[id].peer.value.deviceId in h.byDevice && id in h.byDevice[h.conns[id].peer.value.deviceId]
  {
    assert ConnOk(h, id);
  }

  lemma IndexedIsOpen(h: Host, d: string, id: ConnId)
    requires Core(h) && d in h.byDevice && id in h.byDevice[d]
    ensures EntryOk(h, d, id)
  {
    assert EntriesOk(h, d);
    var i :| 0 <= i < |h.byDevice[d]| && h.byDevice[d][i] == id;
    assert EntryOk(h, d, h.byDevice[d][i]);
  }

  /** A revocation that is heard closes every connection of the device and touches no other. */
  lemma RevocationCloses(b: Bounds, h: Host, d: string)
    requires Sound(b, h)
    ensures HandleRevocation(h, d).conns.Keys == h.conns.Keys
    ensures var r := HandleRevocation(h, d);
            && Sound(b, r)
            && r.devices == h.devices && r.subscribed == h.subscribed && r.epoch == h.epoch
            && (forall id | id in h.conns ::
                  if h.conns[id].peer.Some? && h.conns[id].peer.value.deviceId == d
                  then r.conns[id] == h.conns[id].(state := Closed)
                  else r.conns[id] == h.conns[id])
    ensures KeepsClosedListed(h, HandleRevocation(h, d))
  {
    hide Core;
    hide CleanupAll;
    forall id | id in h.conns && h.conns[id].peer.Some? && h.conns[id].state != Closed
      ensures h.conns[id].peer.value.deviceId in h.byDevice && id in h.byDevice[h.conns[id].peer.value.deviceId]
    {
      OpenIsIndexed(h, id);
    }
    if d in h.byDevice {
      var ids := h.byDevice[d];
      forall i | 0 <= i < |ids| ensures ids[i] in h.conns { IndexedIsOpen(h, d, ids[i]); }
      CleanupAllIsSafe(b, h, ids);
      var h1 := CleanupAll(h, ids);
      forall id | id in h.conns && id in ids ensures EntryOk(h, d, id) { IndexedIsOpen(h, d, id); }
      DropEntry(h1, d);
      assert AllListed(h1.(byDevice := h1.byDevice - {d}));
    }
  }

  lemma DropEntry(h: Host, d: string)
    requires Core(h) && forall id | id in h.conns && h.conns[id].peer.Some? && h.conns[id].peer.value.deviceId == d :: h.conns[id].state == Closed
    ensures Core(h.(byDevice := h.byDevice - {d}))
  {
    hide Distinct;
    var r := h.(byDevice := h.byDevice - {d});
    forall id | id in r.conns ensures ConnOk(r, id) { assert ConnOk(h, id); }
    forall e | e in r.byDevice ensures EntriesOk(r, e) {
      assert EntriesOk(h, e);
      forall i | 0 <= i < |r.byDevice[e]| ensures EntryOk(r, e, r.byDevice[e][i]) { assert EntryOk(h, e, h.byDevice[e][i]); }
    }
  }

  /** A change of the store that only a revocation uses to revoke, and only its own device. */
  lemma StageRevokesOne(fp: FingerprintFn, maxDevices: nat, devices: Devices, req: Request, now: int)
    requires DistinctIds(devices) && Stage(fp, maxDevices, devices, req, now).Change?
    ensures var after := Stage(fp, maxDevices, devices, req, now).devices;
            && DistinctIds(after)
            && (req.Revoke? ==> Revoked(after, req.id))
            && forall d: string | Revoked(after, d) && !(req.Revoke? && d == req.id) :: Revoked(devices, d)
  {
    var after := Stage(fp, maxDevices, devices, req, now).devices;
    if req.RemoveDevice? {
      forall d: string | Revoked(after, d) ensures Revoked(devices, d) {
        if d != req.id { DeletionKeepsOthers(devices, req.id, d); }
      }
    }
  }

  lemma DevicesChangeIsSound(b: Bounds, h: Host, devices: Devices)
    requires Sound(b, h) && DistinctIds(devices)
    ensures Sound(b, h.(devices := devices))
  {
    hide Distinct;
    var r := h.(devices := devices);
    forall id | id in r.conns ensures ConnOk(r, id) { assert ConnOk(h, id); }
    forall d | d in r.byDevice ensures EntriesOk(r, d) {
      assert EntriesOk(h, d);
      forall i | 0 <= i < |r.byDevice[d]| ensures EntryOk(r, d, r.byDevice[d][i]) { assert EntryOk(h, d, h.byDevice[d][i]); }
    }
  }

  predicate ActiveFor(h: Host, d: string) {
    exists id :: id in h.conns && h.conns[id].state == Active && h.conns[id].peer.Some? && h.conns[id].peer.value.deviceId == d
  }

  /** A committed revocation of a device with an active connection, while the carrier is not subscribed. */
  predicate Unheard(cfg: Config, h: Host, step: Step) {
    && step.Request? && step.req.Revoke? && step.commits && !h.subscribed
    && Stage(cfg.fp, cfg.maxDevices, h.devices, step.req, step.now).Change?
    && ActiveFor(h, step.req.id)
  }

  /** The exact condition: a store request leaves no revoked device active if and only if it is not an unheard revocation. */
  lemma RevocationIffHeard(cfg: Config, h: Host, step: Step)
    requires Sound(cfg.bounds, h) && NoRevokedActive(h) && step.Request?
    ensures var r := Next(cfg, h, step);
            Sound(cfg.bounds, r) && r.epoch == h.epoch && (NoRevokedActive(r) <==> !Unheard(cfg, h, step))
  {
    hide Core;
    hide Stage;
    hide Revoked;
    hide HandleRevocation;
    var stage := Stage(cfg.fp, cfg.maxDevices, h.devices, step.req, step.now);
    if stage.Change? && step.commits {
      CoreDevices(h);
      StageRevokesOne(cfg.fp, cfg.maxDevices, h.devices, step.req, step.now);
      var h1 := h.(devices := stage.devices);
      DevicesChangeIsSound(cfg.bounds, h, stage.devices);
      if step.req.Revoke? {
        RevocationCloses(cfg.bounds, h1, step.req.id);
      }
    }
  }

  // ----- stopping -----

  /** Stopping closes everything and empties both tables. */
  lemma StopClosesAll(b: Bounds, h: Host)
    requires Sound(b, h)
    ensures var r := CleanupAll(h, h.active).(active := [], byDevice := map[]);
            && Sound(b, r) && NoRevokedActive(r) && r.epoch == h.epoch
            && forall id | id in r.conns :: r.conns[id].state == Closed
  {
    hide CleanupAll;
    CleanupAllIsSafe(b, h, h.active);
    var c := CleanupAll(h, h.active);
    var r := c.(active := [], byDevice := map[]);
    forall id | id in r.conns ensures r.conns[id].state == Closed {
      if h.conns[id].state != Closed { assert id in h.active; }
    }
    forall id | id in r.conns ensures ConnOk(r, id) { assert ConnOk(c, id); }
  }

  // ----- every step -----

  lemma StepIsSound(cfg: Config, h: Host, step: Step)
    requires Sound(cfg.bounds, h) && h.epoch >= 0
    ensures var r := Next(cfg, h, step);
            Sound(cfg.bounds, r) && r.epoch >= h.epoch && (NoRevokedActive(h) && !Unheard(cfg, h, step) ==> NoRevokedActive(r))
  {
    hide Core;
    hide WithinBounds;
    hide NoRevokedActive;
    hide Upgrade;
    hide HandleFrame;
    hide EndWork;
    hide StoreRequest;
    hide Unheard;
    match step
    case Accept(newId, head) => if newId !in h.conns { UpgradeIsSafe(cfg.bounds, h, newId, head); }
    case Frame(id, input) =>
      NobodySpecial(h, id);
      if id in h.conns { FrameIsSafe(cfg.bounds, h, id, input, id); OneListed(cfg.bounds, h, id, input); }
    case WorkDone(id, fails) =>
      NobodySpecial(h, id);
      if id in h.conns { WorkDoneIsSafe(cfg.bounds, h, id, fails, id); WorkListed(h, id, fails); }
    case Terminate(id) =>
      NobodySpecial(h, id);
      if id in h.conns { CleanupCore(h, id); CleanupKeeps(cfg.bounds, h, id, id); CleanupShape(h, id); }
    case Request(_, _, _) => RequestIsSound(cfg, h, step);
    case Subscribe => FlagIsSound(cfg.bounds, h, true);
    case StopBegins => FlagIsSound(cfg.bounds, h, false);
    case StopEnds => StopClosesAll(cfg.bounds, h);
  }

  lemma RequestIsSound(cfg: Config, h: Host, step: Step)
    requires Sound(cfg.bounds, h) && step.Request?
    ensures var r := Next(cfg, h, step);
            Sound(cfg.bounds, r) && r.epoch == h.epoch && (NoRevokedActive(h) && !Unheard(cfg, h, step) ==> NoRevokedActive(r))
  {
    hide Core;
    hide Stage;
    hide HandleRevocation;
    var stage := Stage(cfg.fp, cfg.maxDevices, h.devices, step.req, step.now);
    if stage.Change? && step.commits {
      CoreDevices(h);
      StageRevokesOne(cfg.fp, cfg.maxDevices, h.devices, step.req, step.now);
      DevicesChangeIsSound(cfg.bounds, h, stage.devices);
      RevocationCloses(cfg.bounds, h.(devices := stage.devices), if step.req.Revoke? then step.req.id else "");
    }
    if NoRevokedActive(h) { RevocationIffHeard(cfg, h, step); }
  }

  lemma FlagIsSound(b: Bounds, h: Host, subscribed: bool)
    requires Sound(b, h)
    ensures Sound(b, h.(subscribed := subscribed)) && (NoRevokedActive(h) ==> NoRevokedActive(h.(subscribed := subscribed)))
  {
    var r := h.(subscribed := subscribed);
    forall id | id in r.conns ensures ConnOk(r, id) { assert ConnOk(h, id); }
    forall d | d in r.byDevice ensures EntriesOk(r, d) {
      assert EntriesOk(h, d);
      forall i | 0 <= i < |r.byDevice[d]| ensures EntryOk(r, d, r.byDevice[d][i]) { assert EntryOk(h, d, h.byDevice[d][i]); }
    }
  }

  /** The connection that a frame or some work belongs to stays listed while it is open. */
  lemma OneListed(b: Bounds, h: Host, id: ConnId, input: Input)
    requires AllListed(h) && id in h.conns
    ensures var r := HandleFrame(b, h, id, input); r.conns[id].state != Closed ==> id in r.active
  {
    hide HandleFrame;
    FrameTouches(b, h, id, input);
  }

  lemma WorkListed(h: Host, id: ConnId, fails: bool)
    requires AllListed(h) && id in h.conns
    ensures var r := EndWork(h, id, fails); r.conns[id].state != Closed ==> id in r.active
  {
    hide Cleanup;
    CleanupShape(h, id);
  }

  // ----- whole runs -----

  predicate Fresh(h: Host) {
    && h.conns == map[] && h.active == [] && h.byDevice == map[] && h.epoch == 0 && h.released == []
    && DistinctIds(h.devices)
  }

  ghost predicate RunOf(cfg: Config, hosts: seq<Host>, steps: seq<Step>) {
    && |hosts| == |steps| + 1 && Fresh(hosts[0])
    && forall i | 0 <= i < |steps| :: hosts[i + 1] == Next(cfg, hosts[i], steps[i])
  }

  lemma {:induction false} EveryStateIsSound(cfg: Config, hosts: seq<Host>, steps: seq<Step>, i: nat)
    requires RunOf(cfg, hosts, steps) && i < |hosts|
    ensures Sound(cfg.bounds, hosts[i]) && hosts[i].epoch >= 0
    ensures (forall j | 0 <= j < i :: !Unheard(cfg, hosts[j], steps[j])) ==> NoRevokedActive(hosts[i])
    decreases i
  {
    hide Sound;
    hide NoRevokedActive;
    hide Next;
    hide Unheard;
    if i == 0 {
      FreshIsSound(cfg.bounds, hosts[0]);
    } else {
      EveryStateIsSound(cfg, hosts, steps, i - 1);
      StepIsSound(cfg, hosts[i - 1], steps[i - 1]);
    }
  }

  lemma FreshIsSound(b: Bounds, h: Host)
    requires Fresh(h)
    ensures Sound(b, h) && NoRevokedActive(h)
  {}

  /** No revoked device stays connected: when every revocation of a connected device is heard, no state of the run
      has an active connection for a device that is revoked in it, and open authenticated connections are indexed. */
  lemma NoRevokedDeviceStaysConnected(cfg: Config, hosts: seq<Host>, steps: seq<Step>, i: nat, id: ConnId)
    requires RunOf(cfg, hosts, steps) && i < |hosts| && id in hosts[i].conns
    requires forall j | 0 <= j < i :: !Unheard(cfg, hosts[j], steps[j])
    ensures var h, c := hosts[i], hosts[i].conns[id];
            && (c.state == Active ==> c.peer.Some? && !Revoked(h.devices, c.peer.value.deviceId))
            && (c.state != Closed && c.peer.Some? ==>
                  c.peer.value.deviceId in h.byDevice && id in h.byDevice[c.peer.value.deviceId])
            && (c.state != Closed ==> id in h.active)
  {
    hide Unheard;
    hide Revoked;
    EveryStateIsSound(cfg, hosts, steps, i);
    if hosts[i].conns[id].state != Closed && hosts[i].conns[id].peer.Some? { OpenIsIndexed(hosts[i], id); }
  }

  /** While the carrier stops or starts it is not subscribed: a revocation then leaves the device active, and
      subscribing afterwards does not help; only the end of the stop does. */
  lemma UnheardRevocationStays(cfg: Config, h: Host, req: Request, now: int)
    requires Sound(cfg.bounds, h) && NoRevokedActive(h) && req.Revoke? && ActiveFor(h, req.id)
    requires Stage(cfg.fp, cfg.maxDevices, h.devices, req, now).Change?
    ensures var stopping := Next(cfg, h, StopBegins);
            var after := Next(cfg, stopping, Step.Request(req, now, true));
            && !NoRevokedActive(after)
            && !NoRevokedActive(Next(cfg, after, Subscribe))
            && NoRevokedActive(Next(cfg, after, StopEnds))
  {
    hide Sound;
    hide NoRevokedActive;
    hide Stage;
    hide StoreRequest;
    hide ActiveFor;
    var stopping := Next(cfg, h, StopBegins);
    var step := Step.Request(req, now, true);
    FlagIsSound(cfg.bounds, h, false);
    StoppingKeepsActive(h, req.id);
    RevocationIffHeard(cfg, stopping, step);
    var after := Next(cfg, stopping, step);
    SubscribingDoesNotHelp(after);
    StopClosesAll(cfg.bounds, after);
  }

  lemma StoppingKeepsActive(h: Host, d: string)
    requires ActiveFor(h, d)
    ensures ActiveFor(h.(subscribed := false), d)
  {
    var r := h.(subscribed := false);
    var id :| id in h.conns && h.conns[id].state == Active && h.conns[id].peer.Some? && h.conns[id].peer.value.deviceId == d;
    assert id in r.conns;
  }

  lemma SubscribingDoesNotHelp(h: Host)
    ensures NoRevokedActive(h.(subscribed := true)) <==> NoRevokedActive(h)
  {
    var r := h.(subscribed := true);
    assert r.conns == h.conns && r.devices == h.devices;
  }

  // ----- closed is final -----

  predicate StaysClosed(h: Host, r: Host) {
    forall id | id in h.conns && h.conns[id].state == Closed ::
      && id in r.conns && r.conns[id].state == Closed && r.conns[id].peer == h.conns[id].peer
      && (id in h.active ==> id in r.active)
  }

  lemma CleanupStaysClosed(h: Host, id: ConnId)
    ensures StaysClosed(h, Cleanup(h, id))
  {
    if id in h.conns { CleanupShape(h, id); }
  }

  lemma TouchesStaysClosed(h: Host, r: Host, id: ConnId)
    requires Touches(h, r, id)
    ensures StaysClosed(h, r)
  {}

  /** A closed connection never opens again; and if it is still listed, no step but the end of a stop removes it. */
  lemma ClosedIsFinal(cfg: Config, h: Host, step: Step)
    requires Sound(cfg.bounds, h) && !step.StopEnds?
    ensures StaysClosed(h, Next(cfg, h, step))
  {
    hide Cleanup;
    hide HandleFrame;
    hide HandleFrames;
    hide HandleRevocation;
    hide Stage;
    match step
    case Accept(newId, head) =>
      if newId !in h.conns {
        var h1 := h.(conns := h.conns[newId := Conn(Connected, None, 0)]);
        FramesKeepRoom(cfg.bounds, h1, newId, head);
        TouchesStaysClosed(h1, HandleFrames(cfg.bounds, h1, newId, head), newId);
      }
    case Frame(id, input) =>
      if id in h.conns {
        FrameTouches(cfg.bounds, h, id, input);
        TouchesStaysClosed(h, HandleFrame(cfg.bounds, h, id, input), id);
      }
    case WorkDone(id, fails) => if id in h.conns { CleanupStaysClosed(h, id); }
    case Terminate(id) => CleanupStaysClosed(h, id);
    case Request(req, now, commits) =>
      var stage := Stage(cfg.fp, cfg.maxDevices, h.devices, req, now);
      if stage.Change? && commits && req.Revoke? {
        CoreDevices(h);
        StageRevokesOne(cfg.fp, cfg.maxDevices, h.devices, req, now);
        DevicesChangeIsSound(cfg.bounds, h, stage.devices);
        RevocationCloses(cfg.bounds, h.(devices := stage.devices), req.id);
      }
    case _ =>
  }

  lemma StopKeepsClosed(b: Bounds, h: Host, id: ConnId)
    requires Sound(b, h) && id in h.conns && h.conns[id].state == Closed
    ensures var r := CleanupAll(h, h.active); id in r.conns && r.conns[id] == h.conns[id]
  {
    hide CleanupAll;
    CleanupAllIsSafe(b, h, h.active);
  }

  /** Closed is absorbing over whole runs, the stops included. */
  lemma {:induction false} ClosedForever(cfg: Config, hosts: seq<Host>, steps: seq<Step>, i: nat, j: nat, id: ConnId)
    requires RunOf(cfg, hosts, steps) && i <= j < |hosts|
    requires id in hosts[i].conns && hosts[i].conns[id].state == Closed
    ensures id in hosts[j].conns && hosts[j].conns[id].state == Closed && hosts[j].conns[id].peer == hosts[i].conns[id].peer
    decreases j
  {
    hide Sound;
    hide Next;
    if i < j {
      ClosedForever(cfg, hosts, steps, i, j - 1, id);
      EveryStateIsSound(cfg, hosts, steps, j - 1);
      StepStaysClosed(cfg, hosts[j - 1], steps[j - 1], id);
    }
  }

  lemma StepStaysClosed(cfg: Config, h: Host, step: Step, id: ConnId)
    requires Sound(cfg.bounds, h) && id in h.conns && h.conns[id].state == Closed
    ensures var r := Next(cfg, h, step); id in r.conns && r.conns[id].state == Closed && r.conns[id].peer == h.conns[id].peer
  {
    hide Sound;
    hide Next;
    hide CleanupAll;
    if step.StopEnds? {
      StopStep(cfg, h);
      StopKeepsClosed(cfg.bounds, h, id);
    } else {
      ClosedIsFinal(cfg, h, step);
    }
  }

  lemma StopStep(cfg: Config, h: Host)
    ensures Next(cfg, h, StopEnds) == CleanupAll(h, h.active).(active := [], byDevice := map[])
  {}

  // ----- closed, yet listed -----

  predicate ListedClosed(h: Host, id: ConnId) {
    id in h.active && id in h.conns && h.conns[id].state == Closed
  }

  /** Whoever is closed and listed afterwards was so before. */
  ghost predicate NoneLeaks(h: Host, r: Host) {
    forall x | ListedClosed(r, x) :: ListedClosed(h, x)
  }

  lemma LeaksChain(h: Host, g: Host, r: Host)
    requires NoneLeaks(h, g) && NoneLeaks(g, r)
    ensures NoneLeaks(h, r)
  {
    forall x | ListedClosed(r, x) ensures ListedClosed(h, x) { assert ListedClosed(g, x); }
  }

  lemma CleanupLeaksNone(h: Host, id: ConnId)
    ensures NoneLeaks(h, Cleanup(h, id))
  {
    if id in h.conns { CleanupShape(h, id); }
  }

  lemma {:induction false} CleanupAllLeaksNone(h: Host, ids: seq<ConnId>)
    ensures NoneLeaks(h, CleanupAll(h, ids))
    decreases |ids|
  {
    hide Cleanup;
    hide NoneLeaks;
    if ids == [] {
      SameLeaksNone(h, h);
    } else {
      CleanupLeaksNone(h, ids[0]);
      CleanupAllLeaksNone(Cleanup(h, ids[0]), ids[1..]);
      LeaksChain(h, Cleanup(h, ids[0]), CleanupAll(h, ids));
    }
  }

  lemma SameLeaksNone(h: Host, r: Host)
    requires r.conns == h.conns && r.active == h.active
    ensures NoneLeaks(h, r)
  {}

  lemma OpenLeaksNone(h: Host, r: Host, id: ConnId)
    requires id in h.conns && id in r.conns && r.conns == h.conns[id := r.conns[id]] && r.active == h.active
    requires r.conns[id].state != Closed || h.conns[id].state == Closed
    ensures NoneLeaks(h, r)
  {
    forall x | ListedClosed(r, x) ensures ListedClosed(h, x) {}
  }

  lemma HandshakeLeaksNone(h: Host, id: ConnId, hello: Handshake)
    requires id in h.conns && h.conns[id].state != Closed
    ensures NoneLeaks(h, HandleHandshake(h, id, hello))
  {
    hide NoneLeaks;
    hide Cleanup;
    CleanupLeaksNone(h, id);
    if hello.remote.Some? {
      var a := Authenticate(h, id, hello.remote.value);
      OpenLeaksNone(h, a, id);
      EvaluationLeaksNone(a, id, hello.remote.value, hello);
      var e := EvaluateAuthorization(a, id, hello.remote.value, hello);
      LeaksChain(h, a, e);
      CleanupLeaksNone(e, id);
      LeaksChain(h, e, Cleanup(e, id));
    }
  }

  lemma EvaluationLeaksNone(h: Host, id: ConnId, deviceId: string, hello: Handshake)
    requires id in h.conns && h.conns[id].state != Closed
    ensures NoneLeaks(h, EvaluateAuthorization(h, id, deviceId, hello))
  {
    hide NoneLeaks;
    hide Cleanup;
    CleanupLeaksNone(h, id);
    var r := EvaluateAuthorization(h, id, deviceId, hello);
    if r != Cleanup(h, id) { OpenLeaksNone(h, r, id); }
  }

  lemma FrameLeaksNone(b: Bounds, h: Host, id: ConnId, input: Input)
    requires id in h.conns
    ensures NoneLeaks(h, HandleFrame(b, h, id, input))
  {
    hide NoneLeaks;
    hide Cleanup;
    hide HandleHandshake;
    var r := HandleFrame(b, h, id, input);
    CleanupLeaksNone(h, id);
    SameLeaksNone(h, h);
    if h.conns[id].state != Closed && input.BinaryFrame? {
      HandshakeLeaksNone(h, id, input.hello);
      if h.conns[id].state !in {Connected, NoiseHandshake} && r != Cleanup(h, id) { OpenLeaksNone(h, r, id); }
    }
  }

  lemma {:induction false} FramesLeakNone(b: Bounds, h: Host, id: ConnId, inputs: seq<Input>)
    requires id in h.conns
    ensures NoneLeaks(h, HandleFrames(b, h, id, inputs))
    decreases |inputs|
  {
    hide NoneLeaks;
    hide HandleFrame;
    if inputs == [] {
      SameLeaksNone(h, h);
    } else {
      var g := HandleFrames(b, h, id, inputs[..|inputs| - 1]);
      FramesLeakNone(b, h, id, inputs[..|inputs| - 1]);
      FrameLeaksNone(b, g, id, inputs[|inputs| - 1]);
      LeaksChain(h, g, HandleFrames(b, h, id, inputs));
    }
  }

  /** An upgrade whose own bytes leave the new connection closed. */
  predicate ClosedByItsHead(h: Host, step: Step, r: Host, id: ConnId) {
    step.Accept? && step.newId == id && id !in h.conns && id in r.conns && r.conns[id].state == Closed
  }

  lemma UpgradeLeaks(b: Bounds, h: Host, newId: ConnId, head: seq<Input>, id: ConnId)
    requires newId !in h.conns && newId !in h.active
    ensures var r := Upgrade(b, h, newId, head);
            ListedClosed(r, id) ==> ListedClosed(h, id) || (id == newId && r.conns[id].state == Closed)
    ensures var r := Upgrade(b, h, newId, head);
            newId in r.conns ==> newId in r.active
  {
    hide HandleFrames;
    var h1 := h.(conns := h.conns[newId := Conn(Connected, None, 0)]);
    FramesLeakNone(b, h1, newId, head);
    var g := HandleFrames(b, h1, newId, head);
    if id != newId && ListedClosed(Upgrade(b, h, newId, head), id) && |h.active| < b.maxConnections {
      assert ListedClosed(g, id);
      assert ListedClosed(h1, id);
    }
  }

  lemma RequestLeaksNone(cfg: Config, h: Host, step: Step)
    requires step.Request?
    ensures NoneLeaks(h, Next(cfg, h, step))
  {
    hide NoneLeaks;
    hide CleanupAll;
    hide Stage;
    SameLeaksNone(h, h);
    var stage := Stage(cfg.fp, cfg.maxDevices, h.devices, step.req, step.now);
    if stage.Change? && step.commits {
      var h1 := h.(devices := stage.devices);
      SameLeaksNone(h, h1);
      if step.req.Revoke? && h.subscribed && step.req.id in h1.byDevice {
        var g := CleanupAll(h1, h1.byDevice[step.req.id]);
        CleanupAllLeaksNone(h1, h1.byDevice[step.req.id]);
        LeaksChain(h, h1, g);
        SameLeaksNone(g, g.(byDevice := g.byDevice - {step.req.id}));
        LeaksChain(h, g, g.(byDevice := g.byDevice - {step.req.id}));
      }
    }
  }

  lemma WorkLeaksNone(h: Host, id: ConnId, fails: bool)
    requires id in h.conns
    ensures NoneLeaks(h, EndWork(h, id, fails))
  {
    hide NoneLeaks;
    hide Cleanup;
    var g := if fails then Cleanup(h, id) else h;
    CleanupLeaksNone(h, id);
    SameLeaksNone(h, h);
    OpenLeaksNone(g, EndWork(h, id, fails), id);
    LeaksChain(h, g, EndWork(h, id, fails));
  }

  /** The exact condition for one step: a connection is closed and listed afterwards if and only if it was so before,
      or its own upgrade has just closed it, and the step is not the end of a stop. */
  lemma StepLeaks(cfg: Config, h: Host, step: Step, id: ConnId)
    requires Sound(cfg.bounds, h)
    ensures var r := Next(cfg, h, step);
            ListedClosed(r, id) <==> !step.StopEnds? && (ListedClosed(h, id) || ClosedByItsHead(h, step, r, id))
  {
    hide Sound;
    hide NoneLeaks;
    hide Upgrade;
    hide HandleFrame;
    hide EndWork;
    hide Cleanup;
    var r := Next(cfg, h, step);
    if !step.StopEnds? { ClosedIsFinal(cfg, h, step); }
    match step
    case Accept(newId, head) =>
      if newId !in h.conns {
        ListedIsKnown(cfg.bounds, h);
        UpgradeLeaks(cfg.bounds, h, newId, head, id);
      }
    case Frame(c, input) =>
      SameLeaksNone(h, h);
      if c in h.conns { FrameLeaksNone(cfg.bounds, h, c, input); }
      Unleaked(h, r, id);
    case WorkDone(c, fails) =>
      SameLeaksNone(h, h);
      if c in h.conns { WorkLeaksNone(h, c, fails); }
      Unleaked(h, r, id);
    case Terminate(c) =>
      CleanupLeaksNone(h, c);
      Unleaked(h, r, id);
    case Request(_, _, _) =>
      RequestLeaksNone(cfg, h, step);
      Unleaked(h, r, id);
    case Subscribe =>
    case StopBegins =>
    case StopEnds =>
  }

  lemma Unleaked(h: Host, r: Host, id: ConnId)
    requires NoneLeaks(h, r)
    ensures ListedClosed(r, id) ==> ListedClosed(h, id)
  {}

  lemma ListedIsKnown(b: Bounds, h: Host)
    requires Sound(b, h)
    ensures forall x | x in h.active :: x in h.conns
  {}

  /** Closed by the head of its upgrade in step k, with no stop completed since. */
  predicate LeakedSince(hosts: seq<Host>, steps: seq<Step>, k: nat, i: nat, id: ConnId)
    requires k < i <= |steps| && |hosts| == |steps| + 1
  {
    ClosedByItsHead(hosts[k], steps[k], hosts[k + 1], id) && forall j | k < j < i :: !steps[j].StopEnds?
  }

  /** Over every run: a closed connection is listed if and only if the bytes of its own upgrade closed it and no stop
      has ended since; until then it takes up room in the table. */
  lemma {:induction false} ListedClosedIffByItsHead(cfg: Config, hosts: seq<Host>, steps: seq<Step>, i: nat, id: ConnId)
    requires RunOf(cfg, hosts, steps) && i < |hosts|
    ensures ListedClosed(hosts[i], id) <==> exists k: nat :: k < i && LeakedSince(hosts, steps, k, i, id)
    decreases i
  {
    hide Sound;
    hide Next;
    hide ListedClosed;
    hide ClosedByItsHead;
    if i == 0 {
      assert !ListedClosed(hosts[0], id) by { FreshListsNobody(hosts[0], id); }
    } else {
      ListedClosedIffByItsHead(cfg, hosts, steps, i - 1, id);
      EveryStateIsSound(cfg, hosts, steps, i - 1);
      StepLeaks(cfg, hosts[i - 1], steps[i - 1], id);
      AcceptIsNoStop(hosts[i - 1], steps[i - 1], hosts[i], id);
      if ListedClosed(hosts[i], id) {
        if ListedClosed(hosts[i - 1], id) {
          var k: nat :| k < i - 1 && LeakedSince(hosts, steps, k, i - 1, id);
          assert LeakedSince(hosts, steps, k, i, id);
        } else {
          assert LeakedSince(hosts, steps, i - 1, i, id);
        }
      }
      if k: nat :| k < i && LeakedSince(hosts, steps, k, i, id) {
        if k < i - 1 { assert LeakedSince(hosts, steps, k, i - 1, id); }
      }
    }
  }

  lemma FreshListsNobody(h: Host, id: ConnId)
    requires Fresh(h)
    ensures !ListedClosed(h, id)
  {}

  lemma AcceptIsNoStop(h: Host, step: Step, r: Host, id: ConnId)
    ensures ClosedByItsHead(h, step, r, id) ==> !step.StopEnds?
  {}

  /** A frame that closes its connection whatever the handshake has come to. */
  predicate AlwaysCloses(input: Input) {
    input.CloseFrame? || input.OtherFrame? || (input.PingFrame? && input.slow)
  }

  lemma {:induction false} ClosingHeadCloses(b: Bounds, h: Host, id: ConnId, inputs: seq<Input>)
    requires id in h.conns && exists i | 0 <= i < |inputs| :: AlwaysCloses(inputs[i])
    ensures HandleFrames(b, h, id, inputs).conns[id].state == Closed
    decreases |inputs|
  {
    var init, last := inputs[..|inputs| - 1], inputs[|inputs| - 1];
    var g := HandleFrames(b, h, id, init);
    if AlwaysCloses(last) {
      CleanupShape(g, id);
    } else {
      var i :| 0 <= i < |inputs| && AlwaysCloses(inputs[i]);
      assert AlwaysCloses(init[i]);
      ClosingHeadCloses(b, h, id, init);
    }
  }

  /** A client that sends such a frame with its upgrade keeps its place in the table until a stop ends. */
  lemma ClosedByItsHeadStaysListed(cfg: Config, hosts: seq<Host>, steps: seq<Step>, k: nat, i: nat, id: ConnId, head: seq<Input>)
    requires RunOf(cfg, hosts, steps) && k < i < |hosts| && steps[k] == Accept(id, head)
    requires id !in hosts[k].conns && |hosts[k].active| < cfg.bounds.maxConnections
    requires exists j | 0 <= j < |head| :: AlwaysCloses(head[j])
    requires forall j | k < j < i :: !steps[j].StopEnds?
    ensures id in hosts[i].active && id in hosts[i].conns && hosts[i].conns[id].state == Closed
  {
    hide AlwaysCloses;
    var h1 := hosts[k].(conns := hosts[k].conns[id := Conn(Connected, None, 0)]);
    ClosingHeadCloses(cfg.bounds, h1, id, head);
    hide HandleFrames;
    assert hosts[k + 1] == Next(cfg, hosts[k], steps[k]);
    assert LeakedSince(hosts, steps, k, i, id);
    hide Next;
    ListedClosedIffByItsHead(cfg, hosts, steps, i, id);
  }

  // ----- epochs -----

  /** Connection epochs identify connections: a connection that authenticates gets an epoch beyond that of every
      connection that authenticated before it, and theirs do not change. */
  lemma EpochsIdentify(cfg: Config, h: Host, id: ConnId, input: Input, other: ConnId)
    requires Sound(cfg.bounds, h) && id in h.conns && other in h.conns && other != id
    requires h.conns[id].peer.None? && h.conns[other].peer.Some?
    ensures var r := HandleFrame(cfg.bounds, h, id, input);
            && r.conns[other].peer == h.conns[other].peer
            && (r.conns[id].peer.Some? ==> r.conns[id].peer.value.connectionEpoch > r.conns[other].peer.value.connectionEpoch)
  {
    hide HandleFrame;
    FrameTouches(cfg.bounds, h, id, input);
    assert ConnOk(h, other);
  }

  /** Each authenticated connection is released at the core exactly once, when it closes. */
  lemma ReleasedExactlyOnce(cfg: Config, hosts: seq<Host>, steps: seq<Step>, i: nat, id: ConnId)
    requires RunOf(cfg, hosts, steps) && i < |hosts| && id in hosts[i].conns && hosts[i].conns[id].peer.Some?
    ensures var h, c := hosts[i], hosts[i].conns[id];
            && (c.state == Closed <==> c.peer.value in h.released)
            && forall j, k | 0 <= j < k < |h.released| :: h.released[j] != h.released[k]
  {
    EveryStateIsSound(cfg, hosts, steps, i);
    assert ConnOk(hosts[i], id);
  }
}
