/** The file-backed device trust store as an object: each method against the state machine. */
module FileDeviceTrustStores {

  import opened Wrappers
  import opened Protocol
  import opened DurableDisk
  import opened StoreFiles
  import opened DeviceRecords
  import opened DeviceRequests
  import opened TrustJournal
  import opened TrustJournalCommit
  import opened TrustJournalTheorems
  import opened TrustStoreRuns
  import opened TrustStoreMemory
  import opened TrustStoreStates

  /** What the listeners of revocations are told. */
  datatype RevocationEvent = RevocationEvent(deviceId: string, revokedAt: int, keyVersion: int)

  class FileDeviceTrustStore {
    const fingerprint: FingerprintFn
    const maxDevices: nat
    var devices: Devices
    var isPoisoned: bool
    var disk: Disk<Text>
    var notified: seq<RevocationEvent>
    ghost var origin: Disk<Text>
    ghost var log: seq<Op<Text>>

    function View(): StoreState
      reads this
    {
      StoreState(disk, devices, isPoisoned)
    }

    ghost predicate Valid()
      reads this
    {
      && disk == Run(origin, log)
      && (!isPoisoned ==> Agrees(disk, devices))
    }

    /** A start: recovery of an interrupted commit, then the validated load. On a disk where a storable map stands,
        the object is ready for every request and holds that map. */
    constructor (fp: FingerprintFn, max: nat, d: Disk<Text>)
      ensures fingerprint == fp && maxDevices == max
      ensures View() == Start(fp, max, d) && notified == []
      ensures disk == Run(origin, log) && (isPoisoned ==> Valid())
      ensures forall x, stored | Stands(d, x) && Represents(x, stored) && Storable(fp, max, stored) ::
                Valid() && !isPoisoned && devices == stored
    {
      fingerprint, maxDevices := fp, max;
      devices, isPoisoned, disk, notified := [], false, d, [];
      origin, log := d, [];
      new;
      LoadFromDisk();
      hide Stands;
      hide Storable;
      hide Agrees;
      hide Run;
      hide RecoverOps;
      hide Load;
      forall x, stored | Stands(d, x) && Represents(x, stored) && Storable(fp, max, stored)
        ensures Valid() && !isPoisoned && devices == stored
      {
        StandingReloads(fp, max, d, x, stored);
      }
    }

    method LoadFromDisk()
      requires disk == Run(origin, log) && devices == [] && !isPoisoned
      modifies this`devices, this`isPoisoned, this`disk, this`log
      ensures disk == Run(origin, log)
      ensures View() == Start(fingerprint, maxDevices, old(disk))
    {
      var dir := Live(disk);
      RunAppend(origin, log, RecoverOps(disk));
      if Journal in dir {
        if SaysCommitted(dir, disk.nodes) {
          var _ := Attempt(CLEANUP + [SyncDir], 3);
        } else {
          ExecuteInternalRollback(5);
        }
      }
      assert log == old(log) + RecoverOps(old(disk));
      match OutcomeAt(Live(disk), disk.nodes, Target)
      case Missing =>
      case Broken => isPoisoned := true;
      case Found(image) =>
        var loaded := LoadDevices(fingerprint, maxDevices, image);
        match loaded
        case Ok(found) => devices := found;
        case Err(_) => isPoisoned := true;
    }

    /** A block of file operations whose operation number failAt, if there is one, throws. */
    method Attempt(ops: seq<Op<Text>>, failAt: nat) returns (ok: bool)
      requires disk == Run(origin, log)
      modifies this`disk, this`log
      ensures disk == Run(origin, log)
      ensures log == old(log) + Take(ops, failAt) && ok == (failAt >= |ops|)
    {
      var i := 0;
      while i < |ops| && i < failAt
        invariant i <= |ops| && i <= failAt
        invariant disk == Run(origin, log) && log == old(log) + ops[..i]
      {
        RunAppend(origin, log, [ops[i]]);
        RunOne(disk, ops[i]);
        disk := Exec(disk, ops[i]);
        log := log + [ops[i]];
        i := i + 1;
      }
      ok := i == |ops|;
    }

    method Perform(op: Op<Text>)
      requires disk == Run(origin, log)
      modifies this`disk, this`log
      ensures disk == Run(origin, log)
      ensures log == old(log) + [op]
    {
      var _ := Attempt([op], 1);
    }

    /** The rollback, as the source decides it from the files that it finds. */
    method ExecuteInternalRollback(failAt: nat)
      requires disk == Run(origin, log)
      modifies this`disk, this`log
      ensures disk == Run(origin, log)
      ensures log == old(log) + if Journal !in Live(old(disk)) then []
                                else Take(RollbackOps(Backup in Live(old(disk)), SaysNoPrior(Live(old(disk)), old(disk).nodes)), failAt)
    {
      if Journal in Live(disk) {
        var _ := Attempt(RollbackOps(Backup in Live(disk), SaysNoPrior(Live(disk), disk.nodes)), failAt);
      }
    }

    /** Write the backup and the journal; a journal that is in the way ends the commit. */
    method PrepareCommit(prior: Option<StoreImage>) returns (ok: bool)
      requires disk == Run(origin, log) && prior == Loaded(disk)
      modifies this`disk, this`log
      ensures disk == Run(origin, log)
      ensures ok == (Journal !in Live(old(disk)))
      ensures log == old(log) + if ok then Prepare(prior) else RefusedOps(prior)
    {
      if prior.Some? {
        var _ := Attempt(BackupOps(prior), 3);
      }
      BackupHidesNoJournal(old(disk), prior);
      RunAppend(origin, old(log), BackupOps(prior));
      if Journal in Live(disk) {
        Perform(Op.Remove(Backup));
        return false;
      }
      var _ := Attempt(JournalOps(prior), 3);
      return true;
    }

    /** The barrier after the preparation and the replacement of the target, with their error paths. */
    method ReplaceTarget(next: StoreImage, io: Io) returns (ok: bool)
      requires disk == Run(origin, log)
      modifies this`disk, this`log
      ensures disk == Run(origin, log)
      ensures ok == !Aborts(io.fault)
      ensures log == old(log) + if ok then Replace(next, io.tmp) else AfterPrepare(None, next, io.tmp, io.marker, io.fault)
    {
      hide Run;
      hide WriteOps;
      AbortedOps(next, io);
      hide AfterPrepare;
      if io.fault.PrepareSyncFault? {
        var _ := Attempt(ABORT, 2);
        return false;
      }
      Perform(SyncDir);
      if io.fault.TargetFault? {
        var _ := Attempt(WriteOps(Tmp(io.tmp), StoreText(next)), io.fault.done);
        Perform(Op.Remove(Tmp(io.tmp)));
        var _ := Attempt(ABORT, 2);
        return false;
      }
      var _ := Attempt(TargetOps(next, io.tmp), 4);
      return true;
    }

    /** The barrier after the replacement and the transition of the journal; false when the store is now poisoned. */
    method MarkCommitted(prior: Option<StoreImage>, io: Io) returns (ok: bool)
      requires disk == Run(origin, log) && !Aborts(io.fault)
      modifies this`disk, this`log, this`isPoisoned
      ensures disk == Run(origin, log)
      ensures ok == !Poisons(io.fault) && isPoisoned == (old(isPoisoned) || !ok)
      ensures log == old(log) + if ok then Mark(prior, io.marker) + [SyncDir]
                                else if io.fault.CommitSyncFault? then []
                                else [SyncDir] + Take(MarkerOps(prior, io.marker), io.fault.done) + [Op.Remove(Tmp(io.marker))]
    {
      hide Run;
      hide MarkerOps;
      if io.fault.CommitSyncFault? {
        isPoisoned := true;
        return false;
      }
      Perform(SyncDir);
      if io.fault.MarkerFault? {
        var _ := Attempt(MarkerOps(prior, io.marker), io.fault.done);
        Perform(Op.Remove(Tmp(io.marker)));
        isPoisoned := true;
        return false;
      }
      var _ := Attempt(MarkerOps(prior, io.marker), 4);
      Perform(SyncDir);
      return true;
    }

    /** Commit a staged map: to disk first, and to memory once the commit marker is durable. */
    method CommitDurableTransaction(staged: Devices, io: Io) returns (r: Result<(), TrustError>)
      requires Valid() && FreshNames(disk, io.tmp, io.marker)
      modifies this`devices, this`isPoisoned, this`disk, this`log
      ensures Valid()
      ensures if old(isPoisoned) then r == Err(StorePoisoned) && View() == old(View())
              else View() == CommitStep(old(View()), staged, io)
                   && r == if CommitSucceeds(old(View()), io) then Ok(()) else Err(CommitFailed)
    {
      hide Run;
      hide Agrees;
      hide Loaded;
      hide Serialize;
      hide Prepare;
      hide Replace;
      hide Mark;
      hide AfterPrepare;
      hide BeforeRollback;
      hide RollbackOps;
      hide RefusedOps;
      if isPoisoned { return Err(StorePoisoned); }
      var prior, next := Loaded(disk), Serialize(staged);
      var prepared := PrepareCommit(prior);
      if !prepared {
        RefusalAgrees(old(disk), devices);
        RunAppend(origin, old(log), RefusedOps(prior));
        return Err(CommitFailed);
      }
      RunAppend(origin, old(log), CommitOps(prior, next, io.tmp, io.marker, io.fault));
      AssembledCommit(prior, next, io);
      var replaced := ReplaceTarget(next, io);
      if !replaced {
        assert log == old(log) + CommitOps(prior, next, io.tmp, io.marker, io.fault);
        AbortAgrees(old(disk), devices, next, io.tmp, io.marker, io.fault);
        return Err(CommitFailed);
      }
      var marked := MarkCommitted(prior, io);
      if !marked {
        PoisonedLog(old(log), log, prior, next, io);
        RunAppend(origin, old(log), Prepare(prior) + BeforeRollback(prior, next, io.tmp, io.marker, io.fault));
        RollbackSees(old(disk), devices, next, io.tmp, io.marker, io.fault);
        ExecuteInternalRollback(io.fault.rolledBack);
        return Err(CommitFailed);
      }
      devices := staged;
      CleanUp(io);
      CommittedLog(old(log), log, prior, next, io);
      CommitAgrees(old(disk), old(devices), staged, io.tmp, io.marker, io.fault);
      return Ok(());
    }

    /** Remove the metadata; an error here is absorbed. */
    method CleanUp(io: Io)
      requires disk == Run(origin, log) && Commits(io.fault)
      modifies this`disk, this`log
      ensures disk == Run(origin, log)
      ensures log == old(log) + FinishOps(io.fault)
    {
      if io.fault.CleanupFault? {
        var _ := Attempt(CLEANUP, io.fault.done);
      } else {
        var _ := Attempt(CLEANUP + [SyncDir], 3);
      }
    }

    // ----- requests -----

    method TrustSync(key: seq<Octet>, displayName: string, capabilities: seq<Capability>, domain: string, now: int, io: Io)
      returns (r: Result<Answer, TrustError>)
      requires Valid() && FreshNames(disk, io.tmp, io.marker)
      modifies this`devices, this`isPoisoned, this`disk, this`log
      ensures Valid()
      ensures (View(), r) == Handle(fingerprint, maxDevices, old(View()), Trust(key, displayName, capabilities, domain), now, io)
    {
      hide CommitStep;
      hide Agrees;
      if isPoisoned { return Err(StorePoisoned); }
      if |key| != 32 { return Err(BadKeyLength); }
      var deviceId := fingerprint(key);
      var staged := devices;
      var existing := Find(staged, deviceId);
      var record: StoredDeviceRecord;
      if existing.Some? {
        if existing.value.revokedAt.Some? { return Err(DeviceRevoked); }
        if existing.value.trustDomainId != domain { return Err(TrustDomainStale); }
        record := Touched(existing.value, displayName, capabilities, now);
      } else {
        if |staged| >= maxDevices { return Err(AtCapacity); }
        record := NewRecord(fingerprint, key, displayName, capabilities, domain, now);
      }
      staged := SetDevice(staged, record);
      var _ :- CommitDurableTransaction(staged, io);
      return Ok(Snapshot(record));
    }

    /** The listeners hear of a revocation only after its commit, and of every one that was committed. */
    method RevokeSync(deviceId: string, now: int, io: Io) returns (r: Result<Answer, TrustError>)
      requires Valid() && FreshNames(disk, io.tmp, io.marker)
      modifies this
      ensures Valid()
      ensures (View(), r) == Handle(fingerprint, maxDevices, old(View()), Revoke(deviceId), now, io)
      ensures var before, after := Find(old(devices), deviceId), Find(devices, deviceId);
              notified == old(notified)
                + if before.Some? && before.value.revokedAt.None? && after.Some? && after.value.revokedAt.Some?
                  then [RevocationEvent(deviceId, now, before.value.keyVersion)] else []
    {
      hide CommitStep;
      hide Agrees;
      if isPoisoned { return Err(StorePoisoned); }
      var existing := Find(devices, deviceId);
      if existing.None? || existing.value.revokedAt.Some? { return Ok(Changed(false)); }
      var target := existing.value.(revokedAt := Some(now));
      CommitStepMap(View(), SetDevice(devices, target), io);
      var _ :- CommitDurableTransaction(SetDevice(devices, target), io);
      notified := notified + [RevocationEvent(deviceId, now, target.keyVersion)];
      return Ok(Changed(true));
    }

    method AdminReEnroll(deviceId: string, displayName: Option<string>, grants: seq<Capability>, domain: string, now: int, io: Io)
      returns (r: Result<Answer, TrustError>)
      requires Valid() && FreshNames(disk, io.tmp, io.marker)
      modifies this`devices, this`isPoisoned, this`disk, this`log
      ensures Valid()
      ensures (View(), r) == Handle(fingerprint, maxDevices, old(View()), ReEnroll(deviceId, displayName, grants, domain), now, io)
    {
      hide CommitStep;
      hide Agrees;
      if isPoisoned { return Err(StorePoisoned); }
      var existing := Find(devices, deviceId);
      if existing.None? { return Err(NotTrusted); }
      var name := if displayName.Some? then displayName.value else existing.value.displayName;
      var target := Touched(existing.value, name, grants, now).(revokedAt := None);
      var _ :- CommitDurableTransaction(SetDevice(devices, target), io);
      return Ok(Snapshot(target));
    }

    method RemoveDevice(deviceId: string, io: Io) returns (r: Result<Answer, TrustError>)
      requires Valid() && FreshNames(disk, io.tmp, io.marker)
      modifies this`devices, this`isPoisoned, this`disk, this`log
      ensures Valid()
      ensures forall now :: (View(), r) == Handle(fingerprint, maxDevices, old(View()), Request.RemoveDevice(deviceId), now, io)
    {
      hide CommitStep;
      hide Agrees;
      if isPoisoned { return Err(StorePoisoned); }
      if Find(devices, deviceId).None? { return Ok(Changed(false)); }
      var _ :- CommitDurableTransaction(DeleteDevice(devices, deviceId), io);
      return Ok(Changed(true));
    }

    method RecordSeenSync(deviceId: string, timestamp: Option<int>, now: int, io: Io) returns (r: Result<Answer, TrustError>)
      requires Valid() && FreshNames(disk, io.tmp, io.marker)
      modifies this`devices, this`isPoisoned, this`disk, this`log
      ensures Valid()
      ensures (View(), r) == Handle(fingerprint, maxDevices, old(View()), RecordSeen(deviceId, timestamp), now, io)
    {
      hide CommitStep;
      hide Agrees;
      if isPoisoned { return Err(StorePoisoned); }
      var existing := Find(devices, deviceId);
      if existing.None? { return Ok(Changed(false)); }
      var target := existing.value.(lastSeenAt := if timestamp.Some? then timestamp.value else now);
      var _ :- CommitDurableTransaction(SetDevice(devices, target), io);
      return Ok(Changed(true));
    }
  }
}
