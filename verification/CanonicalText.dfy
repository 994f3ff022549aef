/** The canonical text, read without the encoder: the order of the keys by their code units, the escapes of strings as
    section 7 of RFC 8259 reads them, which of them are in use, and the punctuation of objects and arrays,
    with the spelling of the literals. */
module CanonicalText {

  import opened CanonicalJson
  import opened CanonicalFaithful

  // ----- the order of the keys -----

  /** At the first place where they differ the one has ended or holds the smaller code unit. */
  predicate Precedes(a: Text, b: Text) {
    exists k | 0 <= k < |b| && k <= |a| :: a[..k] == b[..k] && (k == |a| || a[k] < b[k])
  }

  lemma {:induction false} BeforeIffPrecedes(a: Text, b: Text)
    ensures Before(a, b) <==> Precedes(a, b)
    decreases |a|
  {
    if a == [] || b == [] || a[0] != b[0] {
      if Before(a, b) { assert a[..0] == b[..0]; }
      if Precedes(a, b) {
        var k :| 0 <= k < |b| && k <= |a| && a[..k] == b[..k] && (k == |a| || a[k] < b[k]);
        if k > 0 { assert a[..k][0] == b[..k][0]; }
      }
    } else {
      BeforeIffPrecedes(a[1..], b[1..]);
      if Before(a, b) {
        var k :| 0 <= k < |b[1..]| && k <= |a[1..]| && a[1..][..k] == b[1..][..k] && (k == |a[1..]| || a[1..][k] < b[1..][k]);
        assert a[..k + 1] == [a[0]] + a[1..][..k] && b[..k + 1] == [b[0]] + b[1..][..k];
      }
      if Precedes(a, b) {
        var k :| 0 <= k < |b| && k <= |a| && a[..k] == b[..k] && (k == |a| || a[k] < b[k]);
        assert k > 0;
        assert a[1..][..k - 1] == a[..k][1..] && b[1..][..k - 1] == b[..k][1..];
      }
    }
  }

  /** An object is printed as its entries in ascending order of their keys, whatever order they came in. */
  lemma ObjectIsOrdered(fields: seq<Field>, entries: seq<Entry>)
    requires DistinctKeys(fields)
    requires forall e :: e in entries <==> e in Entries(fields)
    requires forall i, j | 0 <= i < j < |entries| :: Precedes(entries[i].key, entries[j].key)
    ensures Canonical(Obj(fields)) == [OPEN_OBJECT] + Join(EntryTexts(entries)) + [CLOSE_OBJECT]
  {
    ObjectText(Obj(fields));
    hide Canonical;
    forall i, j | 0 <= i < j < |entries| ensures Before(entries[i].key, entries[j].key) {
      BeforeIffPrecedes(entries[i].key, entries[j].key);
    }
    SortedKeeps(Entries(fields));
    SortedSorts(Entries(fields));
    SortedIsUnique(entries, Sorted(Entries(fields)));
  }

  // ----- strings -----

  function HexOf(c: CodeUnit): int {
    if 48 <= c <= 57 then c - 48
    else if 97 <= c <= 102 then c - 87
    else if 65 <= c <= 70 then c - 55
    else -1
  }

  /** The unit that four hexadecimal digits name, or -1. */
  function UnitOf(t: Text): int
    requires |t| == 4
  {
    if HexOf(t[0]) < 0 || HexOf(t[1]) < 0 || HexOf(t[2]) < 0 || HexOf(t[3]) < 0 then -1
    else 4096 * HexOf(t[0]) + 256 * HexOf(t[1]) + 16 * HexOf(t[2]) + HexOf(t[3])
  }

  /** The unit that the letter after a backslash stands for, or -1. */
  function UnitOfLetter(c: CodeUnit): int {
    if c in {34, 47, 92} then c
    else if c == 98 then 8
    else if c == 102 then 12
    else if c == 110 then 10
    else if c == 114 then 13
    else if c == 116 then 9
    else -1
  }

  /** The reader of a string between its quotes: a control character or a bare quote is refused. */
  predicate Reads(t: Text, s: Text)
    decreases |t|
  {
    if t == [] then s == []
    else if s == [] || t[0] == QUOTE || t[0] < 32 then false
    else if t[0] != BACKSLASH then t[0] == s[0] && Reads(t[1..], s[1..])
    else if |t| >= 6 && t[1] == 117 then UnitOf(t[2..6]) == s[0] && Reads(t[6..], s[1..])
    else |t| >= 2 && UnitOfLetter(t[1]) == s[0] && Reads(t[2..], s[1..])
  }

  /** Every string, lone surrogates and control characters included, reads back as itself. */
  lemma {:induction false} EscapedReadsBack(s: Text)
    ensures Reads(Escape(s), s)
    decreases |s|
  {
    if s != [] {
      if |s| >= 2 && IsHigh(s[0]) && IsLow(s[1]) {
        EscapedReadsBack(s[2..]);
        PairReads(s, Escape(s[2..]));
      } else {
        EscapedReadsBack(s[1..]);
        UnitReads(s[0], Escape(s[1..]), s[1..]);
        assert [s[0]] + s[1..] == s;
      }
    }
  }

  lemma PairReads(s: Text, t: Text)
    requires |s| >= 2 && IsHigh(s[0]) && IsLow(s[1]) && Reads(t, s[2..])
    ensures Reads([s[0], s[1]] + t, s)
  {
    var whole := [s[0], s[1]] + t;
    assert whole[1..] == [s[1]] + t && ([s[1]] + t)[1..] == t && s[1..][1..] == s[2..];
  }

  lemma UnitReads(c: CodeUnit, t: Text, s: Text)
    requires Reads(t, s)
    ensures Reads(EscapeUnit(c) + t, [c] + s)
  {
    hide Hex4;
    var e := EscapeUnit(c);
    assert (e + t)[|e|..] == t && ([c] + s)[1..] == s;
    if |e| == 6 {
      assert (e + t)[2..6] == Hex4(c);
      HexNames(c);
    }
  }

  lemma HexNames(c: CodeUnit)
    ensures UnitOf(Hex4(c)) == c
  {
    HexOfUnit(c / 16 / 16 / 16);
    HexOfUnit(c / 16 / 16 % 16);
    HexOfUnit(c / 16 % 16);
    HexOfUnit(c % 16);
    hide HexOf;
    hide HexUnit;
    assert c == 16 * (c / 16) + c % 16;
    assert c / 16 == 16 * (c / 16 / 16) + c / 16 % 16;
    assert c / 16 / 16 == 16 * (c / 16 / 16 / 16) + c / 16 / 16 % 16;
  }

  lemma HexOfUnit(n: nat)
    requires n < 16
    ensures HexOf(HexUnit(n)) == n
  {}

  /** Which escape is printed: a letter where there is one, four lower-case digits for other control characters and for
      lone surrogates, and nothing else is escaped. */
  lemma EscapesInUse(c: CodeUnit)
    ensures |EscapeUnit(c)| == (if c in {8, 9, 10, 12, 13, 34, 92} then 2 else if c < 32 || 0xD800 <= c < 0xE000 then 6 else 1)
    ensures |EscapeUnit(c)| == 6 ==> forall i | 2 <= i < 6 :: 48 <= EscapeUnit(c)[i] <= 57 || 97 <= EscapeUnit(c)[i] <= 102
  {}

  // ----- punctuation -----

  lemma Literals()
    ensures Canonical(Null) == Ascii("null") && Canonical(Undefined) == Ascii("undefined")
    ensures Canonical(Bool(true)) == Ascii("true") && Canonical(Bool(false)) == Ascii("false")
  {}

  lemma EmptyOnes()
    ensures Canonical(Arr([])) == Ascii("[]") && Canonical(Obj([])) == Ascii("{}")
  {}

  lemma UnprintableNumbers()
    ensures Canonical(Num(NotFinite)) == Ascii("null") && Canonical(Num(MinusZero)) == Ascii("0")
  {}

  lemma Punctuation()
    ensures Ascii("{") == [OPEN_OBJECT] && Ascii("}") == [CLOSE_OBJECT] && Ascii("[") == [OPEN_LIST] && Ascii("]") == [CLOSE_LIST]
    ensures Ascii(",") == [COMMA] && Ascii(":") == [COLON] && Ascii("\"") == [QUOTE]
  {}

  lemma JoinTwo(a: Text, b: Text)
    ensures Join([a, b]) == a + [COMMA] + b
  {}

  /** Arrays keep their order and separate with a bare comma. */
  lemma ArrayOfTwo(a: Json, b: Json)
    ensures Canonical(Arr([a, b])) == Ascii("[") + Canonical(a) + Ascii(",") + Canonical(b) + Ascii("]")
  {
    assert Texts([a, b]) == [Canonical(a), Canonical(b)];
    Punctuation();
    hide Ascii;
    hide Join;
    JoinTwo(Canonical(a), Canonical(b));
  }

  /** An object of two fields, in either order: keys in order, quoted, each with a bare colon. */
  lemma ObjectOfTwo(k: Text, a: Json, m: Text, b: Json)
    requires Precedes(k, m)
    ensures Canonical(Obj([Field(m, b), Field(k, a)])) == Canonical(Obj([Field(k, a), Field(m, b)]))
         == Ascii("{") + (Quoted(k) + Ascii(":") + Canonical(a)) + Ascii(",") + (Quoted(m) + Ascii(":") + Canonical(b)) + Ascii("}")
  {
    DistinctWhenOrdered(k, m);
    var x, y := Entry(k, Canonical(a)), Entry(m, Canonical(b));
    assert Entries([Field(m, b), Field(k, a)]) == [y, x] && Entries([Field(k, a), Field(m, b)]) == [x, y];
    hide *;
    TwoEntries([Field(m, b), Field(k, a)], x, y);
    TwoEntries([Field(k, a), Field(m, b)], x, y);
    Punctuation();
    EntryParts(x);
    EntryParts(y);
  }

  lemma EntryParts(e: Entry)
    ensures EntryText(e) == Quoted(e.key) + [COLON] + e.text
  {}

  lemma TwoEntries(fields: seq<Field>, x: Entry, y: Entry)
    requires DistinctKeys(fields) && Precedes(x.key, y.key) && Entries(fields) in {[x, y], [y, x]}
    ensures Canonical(Obj(fields)) == [OPEN_OBJECT] + EntryText(x) + [COMMA] + EntryText(y) + [CLOSE_OBJECT]
  {
    hide Canonical;
    hide Precedes;
    hide Entries;
    ObjectIsOrdered(fields, [x, y]);
    assert EntryTexts([x, y]) == [EntryText(x), EntryText(y)];
    JoinTwo(EntryText(x), EntryText(y));
    assert [OPEN_OBJECT] + (EntryText(x) + [COMMA] + EntryText(y)) == [OPEN_OBJECT] + EntryText(x) + [COMMA] + EntryText(y);
  }

  lemma DistinctWhenOrdered(k: Text, m: Text)
    requires Precedes(k, m)
    ensures k != m
  {
    BeforeIffPrecedes(k, m);
    BeforeIsOrder(k, m, k);
  }

  lemma QuotesAround(s: Text)
    ensures Canonical(Str(s)) == Ascii("\"") + Escape(s) + Ascii("\"")
  {}
}
