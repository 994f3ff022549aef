/** What the validating loader of the device store accepts, and what it reads: the map in memory says record by record
    what the file says, and every file that does not pass is refused. */
module DeviceLoads {

  import opened Wrappers
  import opened Protocol
  import opened StoreFiles
  import opened DeviceRecords

  function LowerDigit(c: char): char {
    if 'A' <= c <= 'F' then (c as int - 'A' as int + 'a' as int) as char else c
  }

  function Lowered(s: string): (r: string)
    ensures |r| == |s|
  {
    seq(|s|, i requires 0 <= i < |s| => LowerDigit(s[i]))
  }

  lemma LoweredSplits(s: string)
    requires |s| >= 2
    ensures Lowered(s) == [LowerDigit(s[0]), LowerDigit(s[1])] + Lowered(s[2..])
  {}

  lemma DecodeSplits(s: string)
    requires IsHex(s) && |s| >= 2
    ensures IsHex(s[2..]) && DecodeHex(s) == [16 * HexValue(s[0]).value + HexValue(s[1]).value] + DecodeHex(s[2..])
  {}

  lemma EncodeSplits(b: Octet, rest: seq<Octet>)
    ensures EncodeHex([b] + rest) == HexPair(b) + EncodeHex(rest)
  {
    hide HexPair;
    assert ([b] + rest)[1..] == rest;
  }

  /** Hexadecimal digits of both cases are read, and what is read prints as the text in lower case. */
  lemma {:induction false} DecodedHex(s: string)
    requires IsHex(s) && |s| % 2 == 0
    ensures 2 * |DecodeHex(s)| == |s| && EncodeHex(DecodeHex(s)) == Lowered(s)
  {
    if s != [] {
      hide *;
      DecodeSplits(s);
      assert |s[2..]| % 2 == 0;
      DecodedHex(s[2..]);
      DecodedPair(s[0], s[1]);
      LoweredSplits(s);
      EncodeSplits(16 * HexValue(s[0]).value + HexValue(s[1]).value, DecodeHex(s[2..]));
    }
  }

  lemma DecodedPair(c: char, d: char)
    requires HexValue(c).Some? && HexValue(d).Some?
    ensures HexPair(16 * HexValue(c).value + HexValue(d).value) == [LowerDigit(c), LowerDigit(d)]
  {
    LowerOf(c);
    LowerOf(d);
    hide HexValue;
    hide LowerDigit;
    hide HexDigit;
  }

  lemma LowerOf(c: char)
    requires HexValue(c).Some?
    ensures HexDigit(HexValue(c).value) == LowerDigit(c)
  {}

  predicate KnownCapability(name: string) {
    name in {"observe", "prompt", "approve", "answer-question"}
  }

  /** The record in memory says what the record of the file says. */
  predicate ReadAs(s: SerializedDeviceRecord, r: StoredDeviceRecord) {
    && r.deviceId == r.fingerprint == s.deviceId && r.trustDomainId == s.trustDomainId && r.displayName == s.displayName
    && r.pairedAt == s.pairedAt && r.lastSeenAt == s.lastSeenAt && r.revokedAt == s.revokedAt && r.keyVersion == s.keyVersion
    && |s.staticPublicKeyHex| == 64
    && EncodeHex(r.staticPublicKey) == Lowered(s.staticPublicKeyHex)
    && (Observe in r.grantedCapabilities <==> "observe" in s.grantedCapabilities)
    && (Prompt in r.grantedCapabilities <==> "prompt" in s.grantedCapabilities)
    && (Approve in r.grantedCapabilities <==> "approve" in s.grantedCapabilities)
    && (AnswerQuestion in r.grantedCapabilities <==> "answer-question" in s.grantedCapabilities)
    && forall name | name in s.grantedCapabilities :: KnownCapability(name)
  }

  /** What the loader returns is a storable map that says, record by record, what the file says. */
  lemma LoadedIsFaithful(fp: FingerprintFn, maxDevices: nat, image: StoreImage)
    requires Load(fp, maxDevices, image).Ok?
    ensures var devices := Load(fp, maxDevices, image).value;
            && Storable(fp, maxDevices, devices) && image.DeviceFile? && |devices| == |image.records|
            && forall i | 0 <= i < |devices| :: ReadAs(image.records[i], devices[i])
  {
    var devices := Load(fp, maxDevices, image).value;
    forall i | 0 <= i < |devices| ensures ReadAs(image.records[i], devices[i]) && StorableRecord(fp, devices[i]) {
      assert AcceptableRecord(fp, image.records[i]);
      ParsedIsFaithful(fp, image.records[i]);
    }
  }

  lemma ParsedIsFaithful(fp: FingerprintFn, s: SerializedDeviceRecord)
    requires AcceptableRecord(fp, s)
    ensures ReadAs(s, ParseRecord(fp, s)) && StorableRecord(fp, ParseRecord(fp, s))
  {
    hide IsHex;
    hide DecodeHex;
    hide AsSet;
    hide KnownCapability;
    hide CapabilityName;
    hide ParseCapability;
    hide EncodeHex;
    hide Lowered;
    assert |s.staticPublicKeyHex| % 2 == 0;
    DecodedHex(s.staticPublicKeyHex);
    ParsedNames(s.grantedCapabilities);
    NamesInUse();
  }

  lemma NamesInUse()
    ensures CapabilityName(Observe) == "observe" && CapabilityName(Prompt) == "prompt"
    ensures CapabilityName(Approve) == "approve" && CapabilityName(AnswerQuestion) == "answer-question"
  {}

  lemma ParsedNames(names: seq<string>)
    requires forall i | 0 <= i < |names| :: ParseCapability(names[i]).Some?
    ensures forall c :: c in AsSet(ParsedCapabilities(names)) <==> CapabilityName(c) in names
    ensures forall name | name in names :: KnownCapability(name)
  {
    var caps := ParsedCapabilities(names);
    forall i | 0 <= i < |names| ensures CapabilityName(caps[i]) == names[i] && KnownCapability(names[i]) {
      NamedCapability(names[i]);
    }
    forall c ensures c in caps <==> CapabilityName(c) in names {
      CapabilityNames(c);
      hide CapabilityName;
      hide ParseCapability;
      if CapabilityName(c) in names {
        var i :| 0 <= i < |names| && names[i] == CapabilityName(c);
        assert caps[i] == c;
      }
    }
  }

  lemma NamedCapability(name: string)
    ensures ParseCapability(name).Some? <==> KnownCapability(name)
    ensures ParseCapability(name).Some? ==> CapabilityName(ParseCapability(name).value) == name
  {}

  /** What it refuses: a file that is not a device file, one beyond the capacity, one with a device twice, and one with
      a record that fails any of the checks. */
  lemma LoadRefuses(fp: FingerprintFn, maxDevices: nat, image: StoreImage)
    ensures Load(fp, maxDevices, image) == Err(CapacityExceeded) <==> image.DeviceFile? && |image.records| > maxDevices
    ensures Load(fp, maxDevices, image).Ok? <==>
              && image.DeviceFile? && |image.records| <= maxDevices
              && (forall i, j | 0 <= i < j < |image.records| :: image.records[i].deviceId != image.records[j].deviceId)
              && forall i | 0 <= i < |image.records| :: PassesChecks(fp, image.records[i])
  {
    if image.DeviceFile? {
      forall i | 0 <= i < |image.records| ensures AcceptableRecord(fp, image.records[i]) <==> PassesChecks(fp, image.records[i]) {
        AcceptsWhatPasses(fp, image.records[i]);
      }
    }
  }

  /** A record passes when it is the text, in digits of any case and names in any order, of a storable record. */
  ghost predicate PassesChecks(fp: FingerprintFn, s: SerializedDeviceRecord) {
    s.deviceId == s.fingerprint && exists r :: StorableRecord(fp, r) && ReadAs(s, r)
  }

  lemma AcceptsWhatPasses(fp: FingerprintFn, s: SerializedDeviceRecord)
    ensures AcceptableRecord(fp, s) <==> PassesChecks(fp, s)
  {
    if AcceptableRecord(fp, s) { ParsedIsFaithful(fp, s); }
    if PassesChecks(fp, s) {
      var r :| StorableRecord(fp, r) && ReadAs(s, r);
      LoweredIsHex(s.staticPublicKeyHex, r.staticPublicKey);
      forall i | 0 <= i < |s.grantedCapabilities| ensures ParseCapability(s.grantedCapabilities[i]).Some? {
        assert s.grantedCapabilities[i] in s.grantedCapabilities;
        NamedCapability(s.grantedCapabilities[i]);
      }
    }
  }

  /** A text whose lower case prints some bytes is hexadecimal and is read as these bytes. */
  lemma {:induction false} LoweredIsHex(s: string, bytes: seq<Octet>)
    requires EncodeHex(bytes) == Lowered(s)
    ensures IsHex(s) && DecodeHex(s) == bytes
  {
    if bytes != [] {
      var rest := s[2..];
      assert [bytes[0]] + bytes[1..] == bytes;
      EncodeSplits(bytes[0], bytes[1..]);
      hide HexPair;
      hide HexValue;
      hide Lowered;
      hide LowerDigit;
      hide EncodeHex;
      hide DecodeHex;
      LoweredSplits(s);
      HexPairValue(bytes[0]);
      SameValueLowered(s[0]);
      SameValueLowered(s[1]);
      PairSplits(HexPair(bytes[0]), EncodeHex(bytes[1..]), [LowerDigit(s[0]), LowerDigit(s[1])], Lowered(rest));
      LoweredIsHex(rest, bytes[1..]);
      forall i | 0 <= i < |s| ensures HexValue(s[i]).Some? {
        if i >= 2 { assert rest[i - 2] == s[i]; }
      }
      DecodeSplits(s);
    }
  }

  lemma PairSplits(a: string, x: string, b: string, y: string)
    requires |a| == |b| == 2 && a + x == b + y
    ensures a == b && x == y
  {
    assert a == (a + x)[..2] == (b + y)[..2] == b;
    assert x == (a + x)[2..] == (b + y)[2..] == y;
  }

  lemma SameValueLowered(c: char)
    ensures HexValue(LowerDigit(c)) == HexValue(c)
  {}
}
