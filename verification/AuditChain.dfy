/** The hash-chained audit log: what verification accepts, what a trusted last hash proves, and what a log file
    with write failures is still worth. */
module AuditChains {

  import opened Wrappers

  /** The hashed content of a record; an absent field is not printed. */
  datatype Payload = Payload(
    seqNo: int,
    timestamp: int,
    sessionId: string,
    toolName: string,
    args: string,
    riskLevel: string,
    verdict: Option<string>,
    reason: Option<string>,
    durationMs: Option<int>,
    status: Option<string>)

  /** A record; a line of a file can hold further fields, which no hash covers. */
  datatype Record = Record(payload: Payload, prevHash: string, hash: string, further: string)

  const NOTHING_FURTHER := ""

  /** What the hashes cover. */
  function Hashed(rec: Record): Record {
    rec.(further := NOTHING_FURTHER)
  }

  function HashedPart(records: seq<Record>): seq<Record> {
    seq(|records|, i requires 0 <= i < |records| => Hashed(records[i]))
  }

  /** The digest of a payload and the hash before it. */
  type Hasher = (Payload, string) -> string

  function HashOf(digest: Hasher, p: Payload, prevHash: string): string {
    digest(p, prevHash)
  }

  /** The assumption on the hash under which tampering is evident. */
  ghost predicate CollisionFree(digest: Hasher) {
    forall p: Payload, x: string, q: Payload, y: string | HashOf(digest, p, x) == HashOf(digest, q, y) :: p == q && x == y
  }

  const GENESIS_HASH := "0000000000000000000000000000000000000000000000000000000000000000"

  // ----- what a valid chain is -----

  function HashBefore(records: seq<Record>, i: nat): string
    requires i <= |records|
  {
    if i == 0 then GENESIS_HASH else records[i - 1].hash
  }

  predicate LinkOk(digest: Hasher, records: seq<Record>, i: nat)
    requires i < |records|
  {
    && records[i].payload.seqNo == i + 1
    && records[i].prevHash == HashBefore(records, i)
    && records[i].hash == HashOf(digest, records[i].payload, records[i].prevHash)
  }

  predicate ChainValid(digest: Hasher, records: seq<Record>) {
    forall i | 0 <= i < |records| :: LinkOk(digest, records, i)
  }

  /** Tamper evidence: two valid chains end in the same hash if and only if they agree, record by record, on all that
      the hashes cover. */
  lemma {:induction false} LastHashDetermines(digest: Hasher, a: seq<Record>, b: seq<Record>)
    requires CollisionFree(digest) && ChainValid(digest, a) && ChainValid(digest, b) && |a| > 0 && |b| > 0
    ensures a[|a| - 1].hash == b[|b| - 1].hash <==> HashedPart(a) == HashedPart(b)
    decreases |a|
  {
    var x, y := a[|a| - 1], b[|b| - 1];
    if x.hash == y.hash {
      assert LinkOk(digest, a, |a| - 1) && LinkOk(digest, b, |b| - 1);
      assert |a| == |b| && Hashed(x) == Hashed(y);
      var p, q := a[..|a| - 1], b[..|b| - 1];
      PrefixValid(digest, a, |a| - 1);
      PrefixValid(digest, b, |b| - 1);
      if p != [] {
        LastHashDetermines(digest, p, q);
      }
      SameHashedPart(a, b);
    } else if |a| == |b| {
      assert HashedPart(a)[|a| - 1].hash != HashedPart(b)[|a| - 1].hash;
    }
  }

  lemma SameHashedPart(a: seq<Record>, b: seq<Record>)
    requires |a| == |b| > 0 && Hashed(a[|a| - 1]) == Hashed(b[|a| - 1])
    requires HashedPart(a[..|a| - 1]) == HashedPart(b[..|a| - 1])
    ensures HashedPart(a) == HashedPart(b)
  {
    forall i | 0 <= i < |a| - 1 ensures Hashed(a[i]) == Hashed(b[i]) {
      assert HashedPart(a[..|a| - 1])[i] == HashedPart(b[..|a| - 1])[i];
    }
  }

  /** Verification looks at nothing else. */
  lemma FurtherIsNotChecked(digest: Hasher, a: seq<Record>, b: seq<Record>)
    requires HashedPart(a) == HashedPart(b)
    ensures ChainValid(digest, a) <==> ChainValid(digest, b)
  {
    assert |a| == |HashedPart(a)| == |b|;
    forall i | 0 <= i < |a| ensures LinkOk(digest, a, i) <==> LinkOk(digest, b, i) {
      assert HashedPart(a)[i] == HashedPart(b)[i];
      if i > 0 { assert HashedPart(a)[i - 1] == HashedPart(b)[i - 1]; }
    }
  }

  /** What the chain alone does not show: every prefix of a valid chain is a valid chain, so a cut tail goes
      unnoticed unless the last hash is known. */
  lemma PrefixValid(digest: Hasher, records: seq<Record>, n: nat)
    requires ChainValid(digest, records) && n <= |records|
    ensures ChainValid(digest, records[..n])
  {
    forall i | 0 <= i < n ensures LinkOk(digest, records[..n], i) {
      assert LinkOk(digest, records, i);
    }
  }

  /** With the last hash known, a log passes if and only if nothing that the hashes cover was altered, dropped, inserted
      or moved; fields that they do not cover can be added without notice. */
  lemma AlteredIsNoticed(digest: Hasher, records: seq<Record>, tampered: seq<Record>)
    requires CollisionFree(digest) && ChainValid(digest, records) && records != []
    ensures tampered != [] && tampered[|tampered| - 1].hash == records[|records| - 1].hash && ChainValid(digest, tampered)
       <==> HashedPart(tampered) == HashedPart(records)
  {
    if HashedPart(tampered) == HashedPart(records) {
      FurtherIsNotChecked(digest, tampered, records);
      assert |tampered| == |HashedPart(tampered)| == |records|;
      assert HashedPart(tampered)[|records| - 1] == HashedPart(records)[|records| - 1];
    } else if tampered != [] && ChainValid(digest, tampered) {
      LastHashDetermines(digest, tampered, records);
    }
  }

  // ----- appending -----

  function NextRecord(digest: Hasher, records: seq<Record>, payload: Payload): Record {
    var full := payload.(seqNo := |records| + 1);
    Record(full, HashBefore(records, |records|), HashOf(digest, full, HashBefore(records, |records|)), NOTHING_FURTHER)
  }

  lemma OneMoreLink(digest: Hasher, records: seq<Record>, rec: Record)
    requires ChainValid(digest, records) && rec.payload.seqNo == |records| + 1
    requires rec.prevHash == HashBefore(records, |records|) && rec.hash == HashOf(digest, rec.payload, rec.prevHash)
    ensures ChainValid(digest, records + [rec])
  {
    var longer := records + [rec];
    forall i | 0 <= i < |longer| ensures LinkOk(digest, longer, i) {
      if i < |records| { assert LinkOk(digest, records, i); }
    }
  }

  lemma AppendKeepsValid(digest: Hasher, records: seq<Record>, payload: Payload)
    requires ChainValid(digest, records)
    ensures ChainValid(digest, records + [NextRecord(digest, records, payload)])
  {
    OneMoreLink(digest, records, NextRecord(digest, records, payload));
  }

  // ----- the file with write failures -----

  /** What reaches the file: the records whose write succeeded. */
  function Written(records: seq<Record>, outcomes: seq<bool>): seq<Record>
    requires |outcomes| == |records|
  {
    if records == [] then []
    else
      var rest := Written(records[..|records| - 1], outcomes[..|records| - 1]);
      if outcomes[|records| - 1] then rest + [records[|records| - 1]] else rest
  }

  /** No write succeeded after one that failed. */
  predicate OnlyTailLost(outcomes: seq<bool>) {
    forall i, j | 0 <= i < j < |outcomes| :: outcomes[j] ==> outcomes[i]
  }

  lemma {:induction false} WrittenSize(digest: Hasher, records: seq<Record>, outcomes: seq<bool>)
    requires ChainValid(digest, records) && |outcomes| == |records|
    ensures var file := Written(records, outcomes);
            && |file| <= |records|
            && (|file| == |records| <==> forall i | 0 <= i < |outcomes| :: outcomes[i])
    decreases |records|
  {
    if records != [] {
      var n := |records| - 1;
      PrefixValid(digest, records, n);
      WrittenSize(digest, records[..n], outcomes[..n]);
      assert forall i | 0 <= i < n :: outcomes[..n][i] == outcomes[i];
    }
  }

  lemma {:induction false} TailWritten(digest: Hasher, records: seq<Record>, outcomes: seq<bool>)
    requires ChainValid(digest, records) && |outcomes| == |records| && OnlyTailLost(outcomes)
    ensures Written(records, outcomes) <= records
    decreases |records|
  {
    if records != [] {
      var n := |records| - 1;
      PrefixValid(digest, records, n);
      assert OnlyTailLost(outcomes[..n]);
      TailWritten(digest, records[..n], outcomes[..n]);
      if outcomes[n] {
        assert forall i | 0 <= i < n :: outcomes[..n][i];
        WrittenSize(digest, records[..n], outcomes[..n]);
      }
    }
  }

  lemma {:induction false} GapWritten(digest: Hasher, records: seq<Record>, outcomes: seq<bool>) returns (i: nat)
    requires ChainValid(digest, records) && |outcomes| == |records| && !OnlyTailLost(outcomes)
    ensures i < |Written(records, outcomes)| && Written(records, outcomes)[i].payload.seqNo != i + 1
    decreases |records|
  {
    var n := |records| - 1;
    var file := Written(records[..n], outcomes[..n]);
    PrefixValid(digest, records, n);
    if OnlyTailLost(outcomes[..n]) {
      var j, k :| 0 <= j < k < |outcomes| && outcomes[k] && !outcomes[j];
      assert k == n && !outcomes[..n][j];
      WrittenSize(digest, records[..n], outcomes[..n]);
      assert LinkOk(digest, records, n);
      i := |file|;
    } else {
      i := GapWritten(digest, records[..n], outcomes[..n]);
    }
  }

  /** The exact condition: the file of a chain loads again if and only if the lost writes are its tail. */
  lemma FileLoadsIffTailLost(digest: Hasher, records: seq<Record>, outcomes: seq<bool>)
    requires ChainValid(digest, records) && |outcomes| == |records|
    ensures ChainValid(digest, Written(records, outcomes)) <==> OnlyTailLost(outcomes)
  {
    var file := Written(records, outcomes);
    if OnlyTailLost(outcomes) {
      TailWritten(digest, records, outcomes);
      PrefixValid(digest, records, |file|);
      assert records[..|file|] == file;
    } else {
      var i := GapWritten(digest, records, outcomes);
      assert !LinkOk(digest, file, i);
    }
  }

  // ----- the object -----

  datatype Verdict = Valid | BrokenAt(index: nat)

  datatype LoadError = InvalidLine(line: nat) | BrokenLink(line: nat)

  /** A line of the file, once parsed; None is not a JSON object. */
  type Line = Option<Record>

  function Parsed(lines: seq<Line>): seq<Record>
    requires forall i | 0 <= i < |lines| :: lines[i].Some?
  {
    seq(|lines|, i requires 0 <= i < |lines| => lines[i].value)
  }

  class DshAuditChain {
    const digest: Hasher
    var records: seq<Record>
    var file: seq<Record>
    var writeFailures: nat
    ghost var outcomes: seq<bool>

    /** The chain in memory is valid, and the file holds what was written since the chain was opened. */
    ghost predicate Intact()
      reads this
    {
      && ChainValid(digest, records) && |outcomes| == |records|
      && file == Written(records, outcomes)
      && (writeFailures == 0 <==> forall i | 0 <= i < |outcomes| :: outcomes[i])
    }

    constructor (digest: Hasher)
      ensures this.digest == digest && Intact() && records == [] && outcomes == []
    {
      this.digest := digest;
      records, file, writeFailures, outcomes := [], [], 0, [];
    }

    /** Append a record; a failed write is counted and never loses the record in memory. */
    method Append(payload: Payload, writes: bool) returns (record: Record)
      requires Intact()
      modifies this
      ensures Intact() && record == NextRecord(digest, old(records), payload)
      ensures record.payload == payload.(seqNo := |old(records)| + 1) && record.hash == HashOf(digest, record.payload, record.prevHash)
      ensures record.prevHash == if old(records) == [] then GENESIS_HASH else old(records)[|old(records)| - 1].hash
      ensures records == old(records) + [record] && outcomes == old(outcomes) + [writes]
      ensures file == if writes then old(file) + [record] else old(file)
      ensures writeFailures == old(writeFailures) + if writes then 0 else 1
    {
      AppendKeepsValid(digest, records, payload);
      var seqNo := |records| + 1;
      var prevHash := if |records| > 0 then records[|records| - 1].hash else GENESIS_HASH;
      var full := payload.(seqNo := seqNo);
      record := Record(full, prevHash, HashOf(digest, full, prevHash), NOTHING_FURTHER);
      records := records + [record];
      outcomes := outcomes + [writes];
      assert records[..|records| - 1] == old(records) && outcomes[..|records| - 1] == old(outcomes);
      if writes {
        file := file + [record];
        assert writeFailures == 0 ==> forall i | 0 <= i < |outcomes| :: outcomes[i];
        if forall i | 0 <= i < |outcomes| :: outcomes[i] {
          forall i | 0 <= i < |old(outcomes)| ensures old(outcomes)[i] { assert outcomes[i]; }
        }
      } else {
        writeFailures := writeFailures + 1;
        assert !outcomes[|outcomes| - 1];
      }
    }

    /** The verification accepts exactly the valid chains, and otherwise points at the first broken record. */
    method Verify() returns (verdict: Verdict)
      ensures verdict.Valid? <==> ChainValid(digest, records)
      ensures verdict.BrokenAt? ==>
                && verdict.index < |records| && !LinkOk(digest, records, verdict.index)
                && forall i | 0 <= i < verdict.index :: LinkOk(digest, records, i)
    {
      var expectedPrevHash := GENESIS_HASH;
      for i := 0 to |records|
        invariant expectedPrevHash == HashBefore(records, i)
        invariant forall j | 0 <= j < i :: LinkOk(digest, records, j)
      {
        var rec := records[i];
        assert LinkOk(digest, records, i) <==>
          rec.payload.seqNo == i + 1 && rec.prevHash == expectedPrevHash && rec.hash == HashOf(digest, rec.payload, expectedPrevHash);
        if rec.payload.seqNo != i + 1 || rec.prevHash != expectedPrevHash { return BrokenAt(i); }
        if rec.hash != HashOf(digest, rec.payload, expectedPrevHash) { return BrokenAt(i); }
        expectedPrevHash := rec.hash;
      }
      return Valid;
    }

    /** Loading accepts exactly the logs whose lines all parse into a chain that Verify accepts; a refused log
        changes nothing. */
    method LoadAndVerify(lines: seq<Line>) returns (r: Result<nat, LoadError>)
      modifies this
      ensures r.Ok? <==> (forall i | 0 <= i < |lines| :: lines[i].Some?) && ChainValid(digest, Parsed(lines))
      ensures r.Ok? ==> Intact() && records == Parsed(lines) == file && writeFailures == 0 && r.value == |lines|
      ensures r.Err? ==> records == old(records) && file == old(file) && writeFailures == old(writeFailures) && outcomes == old(outcomes)
      ensures r.Err? ==> FirstBadLine(digest, lines, r.error.line) && (r.error.InvalidLine? <==> lines[r.error.line].None?)
    {
      hide LinkOk;
      var loaded :- CheckLines(digest, lines);
      records, file, writeFailures := loaded, loaded, 0;
      outcomes := seq(|loaded|, _ => true);
      AllWritten(loaded);
      return Ok(|loaded|);
    }
  }

  /** All lines before this one parse into a valid chain, and with it they do not. */
  predicate FirstBadLine(digest: Hasher, lines: seq<Line>, n: nat) {
    && n < |lines|
    && (forall i | 0 <= i < n :: lines[i].Some?)
    && ChainValid(digest, Parsed(lines[..n]))
    && (lines[n].Some? ==> !ChainValid(digest, Parsed(lines[..n + 1])))
  }

  /** One pass over the lines: the parsed records, or the first line that does not continue the chain. */
  method CheckLines(digest: Hasher, lines: seq<Line>) returns (r: Result<seq<Record>, LoadError>)
    ensures r.Ok? <==> (forall i | 0 <= i < |lines| :: lines[i].Some?) && ChainValid(digest, Parsed(lines))
    ensures r.Ok? ==> r.value == Parsed(lines)
    ensures r.Err? ==> FirstBadLine(digest, lines, r.error.line) && (r.error.InvalidLine? <==> lines[r.error.line].None?)
  {
    var loaded: seq<Record>, expectedPrevHash := [], GENESIS_HASH;
    for i := 0 to |lines|
      invariant |loaded| == i && expectedPrevHash == HashBefore(loaded, i)
      invariant forall j | 0 <= j < i :: lines[j] == Some(loaded[j])
      invariant ChainValid(digest, loaded)
    {
      assert loaded == Parsed(lines[..i]);
      if lines[i].None? { return Err(InvalidLine(i)); }
      var rec := lines[i].value;
      if rec.payload.seqNo != i + 1 || rec.prevHash != expectedPrevHash || HashOf(digest, rec.payload, rec.prevHash) != rec.hash {
        if forall k | 0 <= k < |lines| :: lines[k].Some? { BrokenLine(digest, lines, loaded, i); }
        BrokenLine(digest, lines[..i + 1], loaded, i);
        return Err(BrokenLink(i));
      }
      OneMoreLink(digest, loaded, rec);
      loaded := loaded + [rec];
      expectedPrevHash := rec.hash;
    }
    assert loaded == Parsed(lines);
    return Ok(loaded);
  }

  lemma BrokenLine(digest: Hasher, lines: seq<Line>, loaded: seq<Record>, i: nat)
    requires i < |lines| && |loaded| == i && forall k | 0 <= k < |lines| :: lines[k].Some?
    requires forall j | 0 <= j < i :: lines[j] == Some(loaded[j])
    requires var rec := lines[i].value;
             rec.payload.seqNo != i + 1 || rec.prevHash != HashBefore(loaded, i) || HashOf(digest, rec.payload, rec.prevHash) != rec.hash
    ensures !ChainValid(digest, Parsed(lines))
  {
    assert !LinkOk(digest, Parsed(lines), i);
  }

  lemma {:induction false} AllWritten(records: seq<Record>)
    ensures Written(records, seq(|records|, _ => true)) == records
    decreases |records|
  {
    if records != [] {
      var init := records[..|records| - 1];
      AllWritten(init);
      assert seq(|records|, _ => true)[..|init|] == seq(|init|, _ => true);
    }
  }
}
