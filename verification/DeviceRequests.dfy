/** The requests that change the device map, staged on a copy of it, and exactly when the staged map
    survives the validation of the next start. */
module DeviceRequests {

  import opened Wrappers
  import opened Protocol
  import opened DeviceRecords

  datatype Request =
    | Trust(key: seq<Octet>, displayName: string, capabilities: seq<Capability>, domain: string)
    | Revoke(id: string)
    | ReEnroll(id: string, newName: Option<string>, grants: seq<Capability>, newDomain: string)
    | RemoveDevice(id: string)
    | RecordSeen(id: string, timestamp: Option<int>)

  datatype TrustError = BadKeyLength | DeviceRevoked | TrustDomainStale | AtCapacity | NotTrusted | StorePoisoned | CommitFailed

  datatype Answer = Snapshot(record: StoredDeviceRecord) | Changed(yes: bool)

  /** What a request wants: nothing but an answer, or a new map to commit. */
  datatype Staged = Refused(error: TrustError) | NoChange(answer: Answer) | Change(devices: Devices, answer: Answer)

  function Touched(r: StoredDeviceRecord, name: string, grants: seq<Capability>, now: int): StoredDeviceRecord {
    r.(displayName := name, grantedCapabilities := AsSet(grants), lastSeenAt := now, keyVersion := r.keyVersion + 1)
  }

  function NewRecord(fp: FingerprintFn, key: seq<Octet>, name: string, grants: seq<Capability>, domain: string, now: int): StoredDeviceRecord {
    StoredDeviceRecord(fp(key), key, fp(key), domain, name, AsSet(grants), now, now, None, 1)
  }

  function StageTrust(fp: FingerprintFn, maxDevices: nat, devices: Devices, req: Request, now: int): Staged
    requires req.Trust?
  {
    if |req.key| != 32 then Refused(BadKeyLength)
    else
      match Find(devices, fp(req.key))
      case Some(existing) =>
        if existing.revokedAt.Some? then Refused(DeviceRevoked)
        else if existing.trustDomainId != req.domain then Refused(TrustDomainStale)
        else
          var r := Touched(existing, req.displayName, req.capabilities, now);
          Change(SetDevice(devices, r), Snapshot(r))
      case None =>
        if |devices| >= maxDevices then Refused(AtCapacity)
        else
          var r := NewRecord(fp, req.key, req.displayName, req.capabilities, req.domain, now);
          Change(SetDevice(devices, r), Snapshot(r))
  }

  function StageExisting(devices: Devices, req: Request, existing: StoredDeviceRecord, now: int): Staged
    requires !req.Trust?
  {
    match req
    case Revoke(id) =>
      if existing.revokedAt.Some? then NoChange(Changed(false))
      else Change(SetDevice(devices, existing.(revokedAt := Some(now))), Changed(true))
    case ReEnroll(id, name, grants, _) =>
      var r := Touched(existing, if name.Some? then name.value else existing.displayName, grants, now).(revokedAt := None);
      Change(SetDevice(devices, r), Snapshot(r))
    case RemoveDevice(id) =>
      Change(DeleteDevice(devices, id), Changed(true))
    case RecordSeen(id, timestamp) =>
      Change(SetDevice(devices, existing.(lastSeenAt := if timestamp.Some? then timestamp.value else now)), Changed(true))
  }

  /** A re-enrollment ignores the trust domain that it is given: the record keeps its own. */
  function Stage(fp: FingerprintFn, maxDevices: nat, devices: Devices, req: Request, now: int): Staged {
    if req.Trust? then StageTrust(fp, maxDevices, devices, req, now)
    else
      match Find(devices, req.id)
      case None => if req.ReEnroll? then Refused(NotTrusted) else NoChange(Changed(false))
      case Some(existing) => StageExisting(devices, req, existing, now)
  }

  // ----- which requests keep the map storable -----

  /** The guard that the code leaves to the clock and to the caller of recordSeen. */
  predicate Timely(fp: FingerprintFn, devices: Devices, req: Request, now: int) {
    if req.Trust? then
      var existing := Find(devices, fp(req.key));
      if existing.Some? then now >= existing.value.pairedAt else now > 0
    else
      var existing := Find(devices, req.id);
      existing.Some? ==> TimelyFor(existing.value, req, now)
  }

  predicate TimelyFor(existing: StoredDeviceRecord, req: Request, now: int)
    requires !req.Trust?
  {
    match req
    case Revoke(_) => now > 0
    case ReEnroll(_, _, _, _) => now >= existing.pairedAt
    case RemoveDevice(_) => true
    case RecordSeen(_, timestamp) => (if timestamp.Some? then timestamp.value else now) >= existing.pairedAt
  }

  lemma SetStorable(fp: FingerprintFn, maxDevices: nat, devices: Devices, record: StoredDeviceRecord)
    requires Storable(fp, maxDevices, devices)
    requires Find(devices, record.deviceId).None? ==> |devices| < maxDevices
    ensures Storable(fp, maxDevices, SetDevice(devices, record)) <==> StorableRecord(fp, record)
  {
    hide StorableRecord;
    var i := IndexOf(devices, record.deviceId);
    var r := SetDevice(devices, record);
    assert r[i] == record;
    assert i == |devices| ==> Find(devices, record.deviceId).None?;
    assert DistinctIds(r);
  }

  lemma DeleteStorable(fp: FingerprintFn, maxDevices: nat, devices: Devices, id: string)
    requires Storable(fp, maxDevices, devices)
    ensures Storable(fp, maxDevices, DeleteDevice(devices, id))
  {
    hide StorableRecord;
    var r := DeleteDevice(devices, id);
    forall i | 0 <= i < |r| ensures StorableRecord(fp, r[i]) { assert r[i] in devices; }
  }

  lemma DeletionKeepsOthers(devices: Devices, id: string, other: string)
    requires DistinctIds(devices) && other != id
    ensures Find(DeleteDevice(devices, id), other) == Find(devices, other)
  {
    var rest, i := DeleteDevice(devices, id), IndexOf(devices, id);
    assert forall j | 0 <= j < |rest| :: rest[j] == devices[if j < i then j else j + 1];
    var j := IndexOf(rest, other);
    if j < |rest| { assert IndexOf(devices, other) == if j < i then j else j + 1; }
  }

  /** A staged map reloads exactly when the request was timely. */
  lemma StagedIsStorable(fp: FingerprintFn, maxDevices: nat, devices: Devices, req: Request, now: int)
    requires Storable(fp, maxDevices, devices)
    requires Stage(fp, maxDevices, devices, req, now).Change?
    ensures Storable(fp, maxDevices, Stage(fp, maxDevices, devices, req, now).devices) <==> Timely(fp, devices, req, now)
  {
    hide Storable;
    hide SetDevice;
    var existing := Find(devices, if req.Trust? then fp(req.key) else req.id);
    if existing.Some? { StorableMember(fp, maxDevices, devices, existing.value); }
    var after := Stage(fp, maxDevices, devices, req, now).devices;
    match req
    case Trust(key, name, grants, domain) =>
      var r := if existing.Some? then Touched(existing.value, name, grants, now) else NewRecord(fp, key, name, grants, domain, now);
      SetStorable(fp, maxDevices, devices, r);
    case Revoke(id) =>
      SetStorable(fp, maxDevices, devices, existing.value.(revokedAt := Some(now)));
    case ReEnroll(id, name, grants, _) =>
      SetStorable(fp, maxDevices, devices, Stage(fp, maxDevices, devices, req, now).answer.record);
    case RemoveDevice(id) =>
      DeleteStorable(fp, maxDevices, devices, id);
    case RecordSeen(id, timestamp) =>
      SetStorable(fp, maxDevices, devices, existing.value.(lastSeenAt := if timestamp.Some? then timestamp.value else now));
  }

  /** A staged map fits its capacity and holds real capability sets. */
  lemma StagedFits(fp: FingerprintFn, maxDevices: nat, devices: Devices, req: Request, now: int)
    requires Storable(fp, maxDevices, devices)
    requires Stage(fp, maxDevices, devices, req, now).Change?
    ensures var staged := Stage(fp, maxDevices, devices, req, now).devices;
            |staged| <= maxDevices && forall i | 0 <= i < |staged| :: Distinct(staged[i].grantedCapabilities)
  {
    var staged := Stage(fp, maxDevices, devices, req, now).devices;
    forall i | 0 <= i < |staged| ensures Distinct(staged[i].grantedCapabilities) {
      if staged[i] in devices {
        StorableMember(fp, maxDevices, devices, staged[i]);
      } else if req.Revoke? || req.RecordSeen? {
        StorableMember(fp, maxDevices, devices, Find(devices, req.id).value);
      }
    }
  }

  lemma StorableMember(fp: FingerprintFn, maxDevices: nat, devices: Devices, record: StoredDeviceRecord)
    requires Storable(fp, maxDevices, devices) && record in devices
    ensures StorableRecord(fp, record)
  {}

  // ----- authorization -----

  datatype AuthorizationError = DeviceUnknown | DeviceIsRevoked | DomainIsStale | CapabilityDenied

  /** The check before every method call; an empty domain is not compared. None means authorized. */
  function AssertAuthorized(devices: Devices, id: string, domain: string, m: Option<RemoteMethod>): (r: Option<AuthorizationError>)
    ensures r.None? <==> Authorizes(devices, id, domain, m)
  {
    var found := Find(devices, id);
    if found.None? then Some(DeviceUnknown)
    else if found.value.revokedAt.Some? then Some(DeviceIsRevoked)
    else if domain != "" && found.value.trustDomainId != domain then Some(DomainIsStale)
    else if m.Some? && RequiredCapability(m.value).Some? && RequiredCapability(m.value).value !in found.value.grantedCapabilities
    then Some(CapabilityDenied)
    else None
  }

  /** A live record of this domain that grants what the method needs. */
  predicate Authorizes(devices: Devices, id: string, domain: string, m: Option<RemoteMethod>) {
    exists r | r in devices ::
      && Find(devices, id) == Some(r) && r.revokedAt.None?
      && (domain != "" ==> r.trustDomainId == domain)
      && (m.Some? ==> RequiredCapability(m.value).None? || RequiredCapability(m.value).value in r.grantedCapabilities)
  }

  /** After a re-enrollment, the device is authorized for the trust domain that the caller asked for if and only if that
      was its domain before, or is empty and so not compared. */
  lemma ReEnrollKeepsDomain(fp: FingerprintFn, maxDevices: nat, devices: Devices, req: Request, now: int)
    requires req.ReEnroll? && Stage(fp, maxDevices, devices, req, now).Change?
    ensures Find(devices, req.id).Some?
    ensures AssertAuthorized(Stage(fp, maxDevices, devices, req, now).devices, req.id, req.newDomain, None).None?
       <==> req.newDomain == "" || Find(devices, req.id).value.trustDomainId == req.newDomain
  {
    var after, r := Stage(fp, maxDevices, devices, req, now).devices, Stage(fp, maxDevices, devices, req, now).answer.record;
    assert r.deviceId == req.id;
    assert Find(after, req.id) == Some(r);
  }

  /** A device of one trust domain that is re-enrolled for another: the request succeeds, the device stays outside. */
  lemma ReEnrolledElsewhere(fp: FingerprintFn, maxDevices: nat, record: StoredDeviceRecord, now: int)
    requires record.trustDomainId == "old"
    ensures var staged := Stage(fp, maxDevices, [record], ReEnroll(record.deviceId, None, [Observe], "new"), now);
            && staged.Change?
            && AssertAuthorized(staged.devices, record.deviceId, "new", None) == Some(DomainIsStale)
  {
    var req := ReEnroll(record.deviceId, None, [Observe], "new");
    assert Find([record], record.deviceId) == Some(record);
    var r := Stage(fp, maxDevices, [record], req, now).answer.record;
    assert Find(Stage(fp, maxDevices, [record], req, now).devices, record.deviceId) == Some(r);
    assert r.revokedAt.None? && r.trustDomainId == "old";
    assert "old" != "new" by { assert "old"[0] != "new"[0]; }
  }
}
