/** Device records: the operations on the in-memory map, its serialized form, and the validating loader. */
module DeviceRecords {

  import opened Wrappers
  import opened Protocol
  import opened StoreFiles

  type Octet = n: int | 0 <= n < 256

  datatype StoredDeviceRecord = StoredDeviceRecord(
    deviceId: string,
    staticPublicKey: seq<Octet>,
    fingerprint: string,
    trustDomainId: string,
    displayName: string,
    grantedCapabilities: seq<Capability>,
    pairedAt: int,
    lastSeenAt: int,
    revokedAt: Option<int>,
    keyVersion: int)

  /** The records in insertion order, as the source's Map keeps them. */
  type Devices = seq<StoredDeviceRecord>

  type FingerprintFn = seq<Octet> -> string

  datatype LoadError = CapacityExceeded | Corrupted

  // ----- insertion-ordered sets and maps -----

  predicate Distinct<T(==)>(s: seq<T>) {
    forall i, j | 0 <= i < j < |s| :: s[i] != s[j]
  }

  /** The insertion-ordered set of a list. */
  function AsSet<T(==,!new)>(s: seq<T>): (r: seq<T>)
    ensures Distinct(r) && (forall x :: x in r <==> x in s)
    ensures Distinct(s) ==> r == s
  {
    if s == [] then []
    else
      var init, last := s[..|s| - 1], s[|s| - 1];
      var r := AsSet(init);
      assert s == init + [last];
      if last in init then r else r + [last]
  }

  predicate DistinctIds(devices: Devices) {
    forall i, j | 0 <= i < j < |devices| :: devices[i].deviceId != devices[j].deviceId
  }

  /** The position of a device, or the size of the map when it is absent. */
  function IndexOf(devices: Devices, id: string): (i: nat)
    ensures i <= |devices|
    ensures i < |devices| ==> devices[i].deviceId == id
    ensures forall j | 0 <= j < i :: devices[j].deviceId != id
  {
    if devices == [] then 0
    else if devices[0].deviceId == id then 0
    else 1 + IndexOf(devices[1..], id)
  }

  function Find(devices: Devices, id: string): (r: Option<StoredDeviceRecord>)
    ensures r.Some? <==> exists d :: d in devices && d.deviceId == id
    ensures r.Some? ==> r.value in devices && r.value.deviceId == id
  {
    var i := IndexOf(devices, id);
    if i < |devices| then Some(devices[i]) else None
  }

  /** A record takes the place of the one with its id, or goes to the end. */
  function SetDevice(devices: Devices, record: StoredDeviceRecord): (r: Devices)
    ensures DistinctIds(devices) ==> DistinctIds(r)
    ensures Find(r, record.deviceId) == Some(record)
    ensures forall id | id != record.deviceId :: Find(r, id) == Find(devices, id)
  {
    var i := IndexOf(devices, record.deviceId);
    SetDeviceFinds(devices, record);
    if i < |devices| then devices[i := record] else devices + [record]
  }

  lemma IndexIs(devices: Devices, id: string, i: nat)
    requires i <= |devices| && (i < |devices| ==> devices[i].deviceId == id)
    requires forall j | 0 <= j < i :: devices[j].deviceId != id
    ensures IndexOf(devices, id) == i
  {}

  lemma SetDeviceFinds(devices: Devices, record: StoredDeviceRecord)
    ensures var i := IndexOf(devices, record.deviceId);
            var r := if i < |devices| then devices[i := record] else devices + [record];
            && Find(r, record.deviceId) == Some(record)
            && forall id | id != record.deviceId :: Find(r, id) == Find(devices, id)
  {
    hide IndexOf;
    var i := IndexOf(devices, record.deviceId);
    var r := if i < |devices| then devices[i := record] else devices + [record];
    IndexIs(r, record.deviceId, i);
    forall id | id != record.deviceId ensures Find(r, id) == Find(devices, id) {
      var j := IndexOf(devices, id);
      IndexIs(r, id, if j < |devices| then j else |r|);
    }
  }

  function DeleteDevice(devices: Devices, id: string): (r: Devices)
    ensures DistinctIds(devices) ==> DistinctIds(r) && Find(r, id) == None
    ensures forall d | d in r :: d in devices
    ensures |r| <= |devices|
  {
    var i := IndexOf(devices, id);
    if i < |devices| then devices[..i] + devices[i + 1..] else devices
  }

  // ----- hexadecimal text -----

  const DIGITS := "0123456789abcdef"

  function HexDigit(n: nat): char
    requires n < 16
  {
    DIGITS[n]
  }

  function HexValue(c: char): (v: Option<nat>)
    ensures v.Some? ==> v.value < 16
  {
    if '0' <= c <= '9' then Some(c as nat - '0' as nat)
    else if 'a' <= c <= 'f' then Some(c as nat - 'a' as nat + 10)
    else if 'A' <= c <= 'F' then Some(c as nat - 'A' as nat + 10)
    else None
  }

  function HexPair(b: Octet): (s: string)
    ensures |s| == 2
  {
    [HexDigit(b / 16), HexDigit(b % 16)]
  }

  function EncodeHex(bytes: seq<Octet>): (s: string)
    ensures |s| == 2 * |bytes|
  {
    if bytes == [] then "" else HexPair(bytes[0]) + EncodeHex(bytes[1..])
  }

  predicate IsHex(s: string) {
    forall i | 0 <= i < |s| :: HexValue(s[i]).Some?
  }

  /** Two digits a byte; a last single digit is dropped. */
  function DecodeHex(s: string): seq<Octet>
    requires IsHex(s)
  {
    if |s| < 2 then [] else [16 * HexValue(s[0]).value + HexValue(s[1]).value] + DecodeHex(s[2..])
  }

  lemma HexDigitValue(n: nat)
    requires n < 16
    ensures HexValue(HexDigit(n)) == Some(n)
  {}

  lemma HexPairValue(b: Octet)
    ensures var v, w := HexValue(HexPair(b)[0]), HexValue(HexPair(b)[1]);
            v.Some? && w.Some? && 16 * v.value + w.value == b
  {
    HexDigitValue(b / 16);
    HexDigitValue(b % 16);
  }

  lemma {:induction false} HexRoundTrip(bytes: seq<Octet>)
    ensures IsHex(EncodeHex(bytes)) && DecodeHex(EncodeHex(bytes)) == bytes
  {
    if bytes != [] {
      hide HexValue;
      hide HexPair;
      var pair, rest := HexPair(bytes[0]), EncodeHex(bytes[1..]);
      HexRoundTrip(bytes[1..]);
      HexPairValue(bytes[0]);
      assert (pair + rest)[2..] == rest;
    }
  }

  // ----- the serialized form -----

  function SerializeRecord(r: StoredDeviceRecord): SerializedDeviceRecord {
    SerializedDeviceRecord(r.deviceId, EncodeHex(r.staticPublicKey), r.fingerprint, r.trustDomainId, r.displayName,
      seq(|r.grantedCapabilities|, i requires 0 <= i < |r.grantedCapabilities| => CapabilityName(r.grantedCapabilities[i])),
      r.pairedAt, r.lastSeenAt, r.revokedAt, r.keyVersion)
  }

  function SerializeAll(devices: Devices): seq<SerializedDeviceRecord> {
    seq(|devices|, i requires 0 <= i < |devices| => SerializeRecord(devices[i]))
  }

  function Serialize(devices: Devices): StoreImage {
    DeviceFile(SerializeAll(devices))
  }

  /** Every check that the loader makes on one record. */
  predicate AcceptableRecord(fp: FingerprintFn, s: SerializedDeviceRecord) {
    && s.pairedAt > 0 && s.lastSeenAt >= s.pairedAt && s.keyVersion >= 1
    && |s.staticPublicKeyHex| == 64 && IsHex(s.staticPublicKeyHex)
    && (s.revokedAt.Some? ==> s.revokedAt.value > 0)
    && s.deviceId == s.fingerprint && s.deviceId == fp(DecodeHex(s.staticPublicKeyHex))
    && forall i | 0 <= i < |s.grantedCapabilities| :: ParseCapability(s.grantedCapabilities[i]).Some?
  }

  function ParsedCapabilities(names: seq<string>): seq<Capability>
    requires forall i | 0 <= i < |names| :: ParseCapability(names[i]).Some?
  {
    seq(|names|, i requires 0 <= i < |names| => ParseCapability(names[i]).value)
  }

  function ParseRecord(fp: FingerprintFn, s: SerializedDeviceRecord): StoredDeviceRecord
    requires AcceptableRecord(fp, s)
  {
    StoredDeviceRecord(s.deviceId, DecodeHex(s.staticPublicKeyHex), s.deviceId, s.trustDomainId, s.displayName,
      AsSet(ParsedCapabilities(s.grantedCapabilities)),
      s.pairedAt, s.lastSeenAt, s.revokedAt, s.keyVersion)
  }

  predicate Acceptable(fp: FingerprintFn, records: seq<SerializedDeviceRecord>) {
    && (forall i | 0 <= i < |records| :: AcceptableRecord(fp, records[i]))
    && forall i, j | 0 <= i < j < |records| :: records[i].deviceId != records[j].deviceId
  }

  /** A file of another schema is as corrupted as a malformed record. */
  function Load(fp: FingerprintFn, maxDevices: nat, image: StoreImage): Result<Devices, LoadError> {
    if !image.DeviceFile? then Err(Corrupted)
    else if |image.records| > maxDevices then Err(CapacityExceeded)
    else if !Acceptable(fp, image.records) then Err(Corrupted)
    else Ok(seq(|image.records|, i requires 0 <= i < |image.records| => ParseRecord(fp, image.records[i])))
  }

  /** The loader of the source: one pass that validates, remembers the ids and fills the map. */
  method LoadDevices(fp: FingerprintFn, maxDevices: nat, image: StoreImage) returns (r: Result<Devices, LoadError>)
    ensures r == Load(fp, maxDevices, image)
  {
    hide AcceptableRecord;
    hide ParseRecord;
    if !image.DeviceFile? { return Err(Corrupted); }
    var records := image.records;
    if |records| > maxDevices { return Err(CapacityExceeded); }
    var devices: Devices, seenIds: set<string> := [], {};
    for k := 0 to |records|
      invariant Acceptable(fp, records[..k])
      invariant |devices| == k && forall i | 0 <= i < k :: devices[i] == ParseRecord(fp, records[i])
      invariant seenIds == set i | 0 <= i < k :: records[i].deviceId
    {
      var dev := records[k];
      if !AcceptableRecord(fp, dev) || dev.deviceId in seenIds { return Err(Corrupted); }
      seenIds := seenIds + {dev.deviceId};
      devices := devices + [ParseRecord(fp, dev)];
    }
    assert records[..|records|] == records;
    assert devices == seq(|records|, i requires 0 <= i < |records| => ParseRecord(fp, records[i]));
    return Ok(devices);
  }

  // ----- what reloads -----

  predicate StorableRecord(fp: FingerprintFn, r: StoredDeviceRecord) {
    && r.pairedAt > 0 && r.lastSeenAt >= r.pairedAt && r.keyVersion >= 1
    && (r.revokedAt.Some? ==> r.revokedAt.value > 0)
    && |r.staticPublicKey| == 32
    && r.deviceId == r.fingerprint == fp(r.staticPublicKey)
    && Distinct(r.grantedCapabilities)
  }

  predicate Storable(fp: FingerprintFn, maxDevices: nat, devices: Devices) {
    && |devices| <= maxDevices
    && (forall i | 0 <= i < |devices| :: StorableRecord(fp, devices[i]))
    && DistinctIds(devices)
  }

  lemma SerializedRecord(fp: FingerprintFn, r: StoredDeviceRecord)
    ensures var s := SerializeRecord(r);
            && (StorableRecord(fp, r) ==> AcceptableRecord(fp, s) && ParseRecord(fp, s) == r)
            && (AcceptableRecord(fp, s) && ParseRecord(fp, s) == r ==> StorableRecord(fp, r))
            && (AcceptableRecord(fp, s) && Distinct(r.grantedCapabilities) ==> ParseRecord(fp, s) == r)
  {
    var s := SerializeRecord(r);
    HexRoundTrip(r.staticPublicKey);
    forall i | 0 <= i < |r.grantedCapabilities|
      ensures ParseCapability(s.grantedCapabilities[i]) == Some(r.grantedCapabilities[i])
    {
      CapabilityNames(r.grantedCapabilities[i]);
    }
    assert ParsedCapabilities(s.grantedCapabilities) == r.grantedCapabilities;
  }

  /** The exact condition for a map to survive the loader's validation unchanged. */
  lemma ReloadsExactly(fp: FingerprintFn, maxDevices: nat, devices: Devices)
    ensures Load(fp, maxDevices, Serialize(devices)) == Ok(devices) <==> Storable(fp, maxDevices, devices)
  {
    var image := SerializeAll(devices);
    forall i | 0 <= i < |devices|
      ensures image[i] == SerializeRecord(devices[i])
      ensures StorableRecord(fp, devices[i]) ==> AcceptableRecord(fp, image[i]) && ParseRecord(fp, image[i]) == devices[i]
      ensures AcceptableRecord(fp, image[i]) && ParseRecord(fp, image[i]) == devices[i] ==> StorableRecord(fp, devices[i])
    {
      SerializedRecord(fp, devices[i]);
    }
    hide SerializeRecord;
    hide ParseRecord;
    hide AcceptableRecord;
    hide StorableRecord;
    if Storable(fp, maxDevices, devices) {
      SerializedIds(devices);
      assert Acceptable(fp, image);
      assert Load(fp, maxDevices, Serialize(devices)).value == devices;
    }
    if Load(fp, maxDevices, Serialize(devices)) == Ok(devices) {
      SerializedIds(devices);
      forall i | 0 <= i < |devices| ensures StorableRecord(fp, devices[i]) {
        assert AcceptableRecord(fp, image[i]);
        assert Load(fp, maxDevices, Serialize(devices)).value[i] == ParseRecord(fp, image[i]);
      }
    }
  }

  lemma SerializedIds(devices: Devices)
    ensures forall i | 0 <= i < |devices| :: SerializeAll(devices)[i].deviceId == devices[i].deviceId
  {}

  /** A map within its capacity, with real capability sets, reloads unchanged or not at all. */
  lemma ReloadsOrFails(fp: FingerprintFn, maxDevices: nat, devices: Devices)
    requires |devices| <= maxDevices
    requires forall i | 0 <= i < |devices| :: Distinct(devices[i].grantedCapabilities)
    ensures Load(fp, maxDevices, Serialize(devices)) in {Ok(devices), Err(Corrupted)}
  {
    var image := SerializeAll(devices);
    if Acceptable(fp, image) {
      forall i | 0 <= i < |devices| ensures ParseRecord(fp, image[i]) == devices[i] {
        SerializedRecord(fp, devices[i]);
      }
      hide ParseRecord;
      assert Load(fp, maxDevices, Serialize(devices)).value == devices;
    }
  }
}
