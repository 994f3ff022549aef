/** What each request to the device trust store does, exactly: when it succeeds, what it answers, the record that it
    leaves, field by field, and that nothing else changes. */
module TrustStoreOutcomes {

  import opened Wrappers
  import opened Protocol
  import opened DurableDisk
  import opened DeviceRecords
  import opened DeviceRequests
  import opened TrustJournal
  import opened TrustJournalTheorems
  import opened TrustStoreRuns
  import opened TrustStoreMemory
  import opened TrustStoreStates

  ghost predicate OthersKept(before: Devices, after: Devices, id: string) {
    forall other | other != id :: Find(after, other) == Find(before, other)
  }

  function Capabilities(r: StoredDeviceRecord): set<Capability> {
    set c | c in r.grantedCapabilities
  }

  /** A change that is staged reaches memory exactly when its commit succeeds; an I/O error at the barrier or at the
      marker poisons the store, and a poisoned store does nothing. */
  lemma ChangeOutcome(fp: FingerprintFn, maxDevices: nat, s: StoreState, req: Request, now: int, io: Io)
    ensures var (after, r) := Handle(fp, maxDevices, s, req, now, io);
            var staged := Stage(fp, maxDevices, s.devices, req, now);
            && (s.poisoned ==> after == s && r == Err(StorePoisoned))
            && (!s.poisoned && !staged.Change? ==> after == s && r.Ok? == staged.NoChange?)
            && (!s.poisoned && staged.Change? ==>
                  if CommitSucceeds(s, io) then r == Ok(staged.answer) && after.devices == staged.devices
                  else r == Err(CommitFailed) && after.devices == s.devices)
            && (after.poisoned <==> s.poisoned || (staged.Change? && Journal !in Live(s.disk) && Poisons(io.fault)))
  {
    hide Stage;
    hide Run;
    hide CommitOps;
    hide RefusedOps;
    hide Loaded;
    hide Live;
  }

  /** Pairing: the conditions in order, and the new or renewed record. */
  lemma TrustOutcome(fp: FingerprintFn, maxDevices: nat, s: StoreState, key: seq<Octet>, name: string, grants: seq<Capability>,
                     domain: string, now: int, io: Io)
    requires DistinctIds(s.devices)
    ensures var (after, r) := Handle(fp, maxDevices, s, Trust(key, name, grants, domain), now, io);
            var id := fp(key);
            var found := Find(s.devices, id);
            && (r.Err? ==> after.devices == s.devices)
            && (s.poisoned ==> r == Err(StorePoisoned))
            && (!s.poisoned && |key| != 32 ==> r == Err(BadKeyLength))
            && (!s.poisoned && |key| == 32 && found.Some? && found.value.revokedAt.Some? ==> r == Err(DeviceRevoked))
            && (!s.poisoned && |key| == 32 && found.Some? && found.value.revokedAt.None? && found.value.trustDomainId != domain ==>
                  r == Err(TrustDomainStale))
            && (!s.poisoned && |key| == 32 && found.None? && |s.devices| >= maxDevices ==> r == Err(AtCapacity))
            && (!s.poisoned && |key| == 32
                && (found.Some? ==> found.value.revokedAt.None? && found.value.trustDomainId == domain)
                && (found.None? ==> |s.devices| < maxDevices) ==>
                  if CommitSucceeds(s, io) then r.Ok? else r == Err(CommitFailed))
            && (r.Ok? ==>
                  && r.value.Snapshot? && Find(after.devices, id) == Some(r.value.record) && OthersKept(s.devices, after.devices, id)
                  && var x := r.value.record;
                     && x.deviceId == id && x.trustDomainId == domain && x.displayName == name
                     && Capabilities(x) == (set c | c in grants)
                     && x.lastSeenAt == now && x.revokedAt == None
                     && (found.None? ==> x.fingerprint == id && x.staticPublicKey == key && x.pairedAt == now && x.keyVersion == 1)
                     && (found.Some? ==> x.fingerprint == found.value.fingerprint && x.staticPublicKey == found.value.staticPublicKey
                                         && x.pairedAt == found.value.pairedAt && x.keyVersion == found.value.keyVersion + 1))
  {
    hide Handle;
    hide SetDevice;
    ChangeOutcome(fp, maxDevices, s, Trust(key, name, grants, domain), now, io);
    HandleRefuses(fp, maxDevices, s, Trust(key, name, grants, domain), now, io);
  }

  lemma HandleRefuses(fp: FingerprintFn, maxDevices: nat, s: StoreState, req: Request, now: int, io: Io)
    ensures !s.poisoned ==> match Stage(fp, maxDevices, s.devices, req, now)
                            case Refused(error) => Handle(fp, maxDevices, s, req, now, io) == (s, Err(error))
                            case NoChange(answer) => Handle(fp, maxDevices, s, req, now, io) == (s, Ok(answer))
                            case Change(_, _) => true
  {
    hide Stage;
  }

  /** Revocation: answered with true exactly for a device that was not revoked and now is. */
  lemma RevokeOutcome(fp: FingerprintFn, maxDevices: nat, s: StoreState, id: string, now: int, io: Io)
    requires DistinctIds(s.devices)
    ensures var (after, r) := Handle(fp, maxDevices, s, Revoke(id), now, io);
            var found := Find(s.devices, id);
            && (r == Ok(Changed(true)) <==> !s.poisoned && found.Some? && found.value.revokedAt.None? && CommitSucceeds(s, io))
            && (r == Ok(Changed(false)) <==> !s.poisoned && (found.None? || found.value.revokedAt.Some?))
            && (r.Err? ==> r.error == if s.poisoned then StorePoisoned else CommitFailed)
            && (r.Ok? ==> r.value.Changed?)
            && (if r == Ok(Changed(true)) then
                  Find(after.devices, id) == Some(found.value.(revokedAt := Some(now))) && OthersKept(s.devices, after.devices, id)
                else after.devices == s.devices)
  {
    hide Handle;
    hide SetDevice;
    ChangeOutcome(fp, maxDevices, s, Revoke(id), now, io);
    HandleRefuses(fp, maxDevices, s, Revoke(id), now, io);
  }

  /** Re-enrollment: a known device is granted the new capabilities and is no longer revoked. */
  lemma ReEnrollOutcome(fp: FingerprintFn, maxDevices: nat, s: StoreState, id: string, name: Option<string>, grants: seq<Capability>,
                        domain: string, now: int, io: Io)
    requires DistinctIds(s.devices)
    ensures var (after, r) := Handle(fp, maxDevices, s, ReEnroll(id, name, grants, domain), now, io);
            var found := Find(s.devices, id);
            && (r.Ok? <==> !s.poisoned && found.Some? && CommitSucceeds(s, io))
            && (r.Err? ==> after.devices == s.devices
                           && r.error == if s.poisoned then StorePoisoned else if found.None? then NotTrusted else CommitFailed)
            && (r.Ok? ==>
                  && r.value.Snapshot? && Find(after.devices, id) == Some(r.value.record) && OthersKept(s.devices, after.devices, id)
                  && var x := r.value.record;
                     && Capabilities(x) == (set c | c in grants)
                     && x.displayName == (if name.Some? then name.value else found.value.displayName)
                     && x.lastSeenAt == now && x.revokedAt == None && x.keyVersion == found.value.keyVersion + 1
                     && x == found.value.(displayName := x.displayName, grantedCapabilities := x.grantedCapabilities, lastSeenAt := now,
                                          revokedAt := None, keyVersion := x.keyVersion))
  {
    hide Handle;
    hide SetDevice;
    ChangeOutcome(fp, maxDevices, s, ReEnroll(id, name, grants, domain), now, io);
    HandleRefuses(fp, maxDevices, s, ReEnroll(id, name, grants, domain), now, io);
  }

  /** Removal: answered with true exactly for a device that was there and now is not. */
  lemma RemoveOutcome(fp: FingerprintFn, maxDevices: nat, s: StoreState, id: string, now: int, io: Io)
    requires DistinctIds(s.devices)
    ensures var (after, r) := Handle(fp, maxDevices, s, Request.RemoveDevice(id), now, io);
            var found := Find(s.devices, id);
            && (r == Ok(Changed(true)) <==> !s.poisoned && found.Some? && CommitSucceeds(s, io))
            && (r == Ok(Changed(false)) <==> !s.poisoned && found.None?)
            && (r.Err? ==> r.error == if s.poisoned then StorePoisoned else CommitFailed)
            && (r.Ok? ==> r.value.Changed?)
            && (if r == Ok(Changed(true)) then Find(after.devices, id) == None && OthersKept(s.devices, after.devices, id)
                else after.devices == s.devices)
  {
    hide Handle;
    hide DeleteDevice;
    ChangeOutcome(fp, maxDevices, s, Request.RemoveDevice(id), now, io);
    HandleRefuses(fp, maxDevices, s, Request.RemoveDevice(id), now, io);
    forall other | other != id ensures Find(DeleteDevice(s.devices, id), other) == Find(s.devices, other) {
      DeletionKeepsOthers(s.devices, id, other);
    }
  }

  /** A sighting: only the time of a known device changes. */
  lemma RecordSeenOutcome(fp: FingerprintFn, maxDevices: nat, s: StoreState, id: string, timestamp: Option<int>, now: int, io: Io)
    requires DistinctIds(s.devices)
    ensures var (after, r) := Handle(fp, maxDevices, s, RecordSeen(id, timestamp), now, io);
            var found := Find(s.devices, id);
            var seen := if timestamp.Some? then timestamp.value else now;
            && (r.Ok? <==> !s.poisoned && (found.None? || CommitSucceeds(s, io)))
            && (r.Err? ==> r.error == if s.poisoned then StorePoisoned else CommitFailed)
            && (r.Ok? ==> r.value == Changed(found.Some?))
            && (if r.Ok? && found.Some? then
                  Find(after.devices, id) == Some(found.value.(lastSeenAt := seen)) && OthersKept(s.devices, after.devices, id)
                else after.devices == s.devices)
  {
    hide Handle;
    hide SetDevice;
    ChangeOutcome(fp, maxDevices, s, RecordSeen(id, timestamp), now, io);
    HandleRefuses(fp, maxDevices, s, RecordSeen(id, timestamp), now, io);
  }

  /** Which I/O errors leave what: one at the barrier after the replacement or at the marker poisons the store, only
      those after the marker leave the staged map in memory. */
  lemma FaultOutcome(s: StoreState, staged: Devices, io: Io)
    requires Journal !in Live(s.disk)
    ensures var after := CommitStep(s, staged, io);
            match io.fault
            case NoFault => after.devices == staged && !after.poisoned && CommitSucceeds(s, io)
            case CleanupFault(_) => after.devices == staged && !after.poisoned && CommitSucceeds(s, io)
            case PrepareSyncFault => after.devices == s.devices && !after.poisoned && !CommitSucceeds(s, io)
            case TargetFault(_) => after.devices == s.devices && !after.poisoned && !CommitSucceeds(s, io)
            case CommitSyncFault(_) => after.devices == s.devices && after.poisoned && !CommitSucceeds(s, io)
            case MarkerFault(_, _) => after.devices == s.devices && after.poisoned && !CommitSucceeds(s, io)
  {
    hide Run;
    hide CommitOps;
    hide RefusedOps;
    hide Loaded;
    hide Live;
  }

  // ----- what a start does -----

  /** On any disk the start-up recovery ends without a journal, and with the store in the target that the metadata
      calls for. */
  lemma RecoveryResolves(d: Disk<Text>)
    ensures var e := Run(d, RecoverOps(d));
            Journal !in Live(e) && OutcomeAt(Live(e), e.nodes, Target) == Resolve(Live(d), d.nodes)
  {
    var ops, e := RecoverOps(d), Run(d, RecoverOps(d));
    assert KeepsContents(ops) by {
      hide Live;
      hide SaysCommitted;
      hide SaysNoPrior;
    }
    RunKeepsContents(d, ops);
    RecoveredDir(d);
    hide Run;
    hide Live;
    hide LiveAfterAll;
    hide SaysCommitted;
    hide SaysNoPrior;
  }

  /** The directory after recovery. */
  lemma RecoveredDir(d: Disk<Text>)
    ensures var dir := Live(d);
            && LiveAfterAll(dir, |d.nodes|, RecoverOps(d))
            == (if Journal !in dir then dir
                else if SaysCommitted(dir, d.nodes) then dir - {Backup} - {Journal}
                else if Backup in dir then (dir - {Backup})[Target := dir[Backup]] - {Journal}
                else if SaysNoPrior(dir, d.nodes) then dir - {Target} - {Journal}
                else dir - {Journal})
  {
    hide Live;
    hide SaysCommitted;
    hide SaysNoPrior;
    var dir, n, ops := Live(d), |d.nodes|, RecoverOps(d);
    if Journal in dir {
      TwoSteps(dir, n, ops);
      if !SaysCommitted(dir, d.nodes) && (Backup in dir || SaysNoPrior(dir, d.nodes)) {
        TwoSteps(LiveAfter(LiveAfter(dir, n, ops[0]), n, ops[1]), n, ops[2..]);
        assert ops[2..][2..] == ops[4..];
      }
    }
  }

  /** A start on any disk: it loads the store that the metadata calls for, and refuses every request when that is
      unreadable or does not pass the validation. */
  lemma StartOutcome(fp: FingerprintFn, maxDevices: nat, d: Disk<Text>)
    ensures var s := Start(fp, maxDevices, d);
            && Journal !in Live(s.disk)
            && match Resolve(Live(d), d.nodes)
               case Missing => s.devices == [] && !s.poisoned
               case Broken => s.devices == [] && s.poisoned
               case Found(image) =>
                 if Load(fp, maxDevices, image).Ok? then s.devices == Load(fp, maxDevices, image).value && !s.poisoned
                 else s.devices == [] && s.poisoned
  {
    hide Run;
    hide Live;
    hide RecoverOps;
    hide Load;
    RecoveryResolves(d);
  }
}
