/** The canonical text can be decoded in one way only, so it identifies a payload up to key order. */
module CanonicalFaithful {

  import opened CanonicalJson

  // ----- cancelling equal beginnings -----

  lemma SamePrefix(p: Text, x: Text, q: Text, y: Text)
    requires p + x == q + y && |p| == |q|
    ensures p == q && x == y
  {
    assert p == (p + x)[..|p|] == (q + y)[..|q|] == q;
    assert x == (p + x)[|p|..] == (q + y)[|q|..] == y;
  }

  lemma BracketCancels(open: CodeUnit, p: Text, close: CodeUnit, x: Text, q: Text, y: Text)
    requires [open] + p + [close] + x == [open] + q + [close] + y
    ensures p + [close] + x == q + [close] + y
  {
    var l, r := p + [close] + x, q + [close] + y;
    assert [open] + p + [close] + x == [open] + l && [open] + q + [close] + y == [open] + r;
    SamePrefix([open], l, [open], r);
  }

  lemma HexUnitsDiffer(m: nat, n: nat)
    requires m < 16 && n < 16 && HexUnit(m) == HexUnit(n)
    ensures m == n
  {}

  lemma DigitsAgree(m: nat, n: nat)
    requires m / 16 == n / 16 && m % 16 == n % 16
    ensures m == n
  {}

  lemma Hex4Cancels(c: CodeUnit, d: CodeUnit)
    requires Hex4(c) == Hex4(d)
    ensures c == d
  {
    hide HexUnit;
    var s, t := Hex4(c), Hex4(d);
    assert s[0] == t[0] && s[1] == t[1] && s[2] == t[2] && s[3] == t[3];
    HexUnitsDiffer(c / 16 / 16 / 16, d / 16 / 16 / 16);
    HexUnitsDiffer(c / 16 / 16 % 16, d / 16 / 16 % 16);
    DigitsAgree(c / 16 / 16, d / 16 / 16);
    HexUnitsDiffer(c / 16 % 16, d / 16 % 16);
    DigitsAgree(c / 16, d / 16);
    HexUnitsDiffer(c % 16, d % 16);
    DigitsAgree(c, d);
  }

  lemma EscapeUnitCancels(c: CodeUnit, x: Text, d: CodeUnit, y: Text)
    requires EscapeUnit(c) + x == EscapeUnit(d) + y
    ensures c == d && x == y
  {
    var s, t := EscapeUnit(c), EscapeUnit(d);
    assert s[0] == (s + x)[0] == (t + y)[0] == t[0];
    if |s| >= 2 && |t| >= 2 {
      assert s[1] == (s + x)[1] == (t + y)[1] == t[1];
    }
    SamePrefix(s, x, t, y);
    if |s| == 6 {
      hide Hex4;
      assert Hex4(c) == s[2..] == t[2..] == Hex4(d);
      Hex4Cancels(c, d);
    }
  }

  lemma {:induction false} EscapeCancels(s: Text, x: Text, t: Text, y: Text)
    requires Escape(s) + [QUOTE] + x == Escape(t) + [QUOTE] + y
    ensures s == t && x == y
    decreases |s|
  {
    hide EscapeUnit;
    var l, r := Escape(s) + [QUOTE] + x, Escape(t) + [QUOTE] + y;
    EscapeStarts(s, x);
    EscapeStarts(t, y);
    if s == [] {
      SamePrefix([] + [QUOTE], x, [] + [QUOTE], y);
    } else {
      var (h, i) := FirstChunk(s);
      var (g, j) := FirstChunk(t);
      assert l == h + (Escape(s[i..]) + [QUOTE] + x);
      assert r == g + (Escape(t[j..]) + [QUOTE] + y);
      ChunksCancel(s, Escape(s[i..]) + [QUOTE] + x, t, Escape(t[j..]) + [QUOTE] + y);
      EscapeCancels(s[i..], x, t[j..], y);
      assert s == s[..i] + s[i..] && t == t[..j] + t[j..];
    }
  }

  /** The text of the first code unit or surrogate pair, and how many units it covers. */
  function FirstChunk(s: Text): (r: (Text, nat))
    requires s != []
    ensures 0 < r.1 <= |s| && Escape(s) == r.0 + Escape(s[r.1..])
  {
    if |s| >= 2 && IsHigh(s[0]) && IsLow(s[1]) then ([s[0], s[1]], 2) else (EscapeUnit(s[0]), 1)
  }

  lemma ChunksCancel(s: Text, x: Text, t: Text, y: Text)
    requires s != [] && t != []
    requires FirstChunk(s).0 + x == FirstChunk(t).0 + y
    ensures FirstChunk(s).1 == FirstChunk(t).1 && s[..FirstChunk(s).1] == t[..FirstChunk(t).1] && x == y
  {
    hide EscapeUnit;
    hide Escape;
    var (h, i) := FirstChunk(s);
    var (g, j) := FirstChunk(t);
    assert h[0] == (h + x)[0] == (g + y)[0] == g[0];
    if i == 2 {
      SamePrefix(h, x, g, y);
      assert s[..2] == h && t[..2] == g;
    } else {
      EscapeUnitCancels(s[0], x, t[0], y);
    }
  }

  lemma EscapeStarts(s: Text, x: Text)
    ensures (Escape(s) + [QUOTE] + x)[0] == QUOTE <==> s == []
  {}

  lemma QuotedCancels(s: Text, x: Text, t: Text, y: Text)
    requires Quoted(s) + x == Quoted(t) + y
    ensures s == t && x == y
  {
    hide Escape;
    var l, r := Escape(s) + [QUOTE] + x, Escape(t) + [QUOTE] + y;
    assert Quoted(s) + x == [QUOTE] + l && Quoted(t) + y == [QUOTE] + r;
    SamePrefix([QUOTE], l, [QUOTE], r);
    EscapeCancels(s, x, t, y);
  }

  /** What can follow a value inside a text. */
  predicate Delimited(x: Text) {
    x == [] || x[0] in {COMMA, CLOSE_LIST, CLOSE_OBJECT}
  }

  /** How many characters of a text can belong to a number at its start. */
  function NumberRun(t: Text): nat {
    if t == [] || !IsNumberUnit(t[0]) then 0 else 1 + NumberRun(t[1..])
  }

  lemma {:induction false} NumberEnds(t: Text, x: Text)
    requires (forall i | 0 <= i < |t| :: IsNumberUnit(t[i])) && Delimited(x)
    ensures NumberRun(t + x) == |t|
  {
    if t == [] {
      assert t + x == x;
    } else {
      assert (t + x)[1..] == t[1..] + x;
      NumberEnds(t[1..], x);
    }
  }

  lemma NumberCancels(t: NumberText, x: Text, u: NumberText, y: Text)
    requires t + x == u + y && Delimited(x) && Delimited(y)
    ensures t == u && x == y
  {
    NumberEnds(t, x);
    NumberEnds(u, y);
    SamePrefix(t, x, u, y);
  }

  // ----- the first character tells the kind of value -----

  function Kind(c: CodeUnit): nat {
    if c == 117 then 0
    else if c == 110 then 1
    else if c == 116 then 2
    else if c == 102 then 3
    else if StartsNumber(c) then 4
    else if c == QUOTE then 5
    else if c == OPEN_LIST then 6
    else if c == OPEN_OBJECT then 7
    else 8
  }

  function KindOf(v: Json): nat {
    match v
    case Undefined => 0
    case Null => 1
    case Bool(b) => if b then 2 else 3
    case Num(n) => if n.NotFinite? then 1 else 4
    case Str(_) => 5
    case Arr(_) => 6
    case Obj(_) => 7
  }

  lemma FirstTellsKind(v: Json)
    ensures |Canonical(v)| > 0 && Kind(Canonical(v)[0]) == KindOf(v)
  {
    hide Join;
    hide Escape;
    if v.Num? && v.n.Finite? { assert IsNumberText(v.n.text); }
  }

  // ----- lists of texts -----

  /** What follows the first text of a joined list that is closed and continued by x. */
  function AfterFirst(texts: seq<Text>, close: CodeUnit, x: Text): (r: Text)
    requires texts != []
    ensures close in {CLOSE_LIST, CLOSE_OBJECT} ==> Delimited(r)
    ensures |r| > 0 && (r[0] == COMMA || r[0] == close)
  {
    if |texts| == 1 then [close] + x else [COMMA] + (Join(texts[1..]) + [close] + x)
  }

  lemma JoinSplits(texts: seq<Text>, close: CodeUnit, x: Text)
    requires texts != []
    ensures Join(texts) + [close] + x == texts[0] + AfterFirst(texts, close, x)
  {}

  lemma AfterFirstCancels(p: seq<Text>, q: seq<Text>, close: CodeUnit, x: Text, y: Text)
    requires p != [] && q != [] && close != COMMA
    requires AfterFirst(p, close, x) == AfterFirst(q, close, y)
    ensures |p| == 1 <==> |q| == 1
    ensures |p| == 1 ==> x == y
    ensures |p| > 1 ==> Join(p[1..]) + [close] + x == Join(q[1..]) + [close] + y
  {
    hide Join;
    var l, r := AfterFirst(p, close, x), AfterFirst(q, close, y);
    assert l[0] == r[0];
    assert l[1..] == r[1..];
    if |p| == 1 {
      assert l[1..] == x;
      assert |q| == 1 ==> r[1..] == y;
    } else if |q| > 1 {
      assert l[1..] == Join(p[1..]) + [close] + x;
      assert r[1..] == Join(q[1..]) + [close] + y;
    }
  }

  /** The first character tells an empty list from one that is not. */
  lemma ListStarts(texts: seq<Text>, close: CodeUnit, x: Text)
    requires texts != [] ==> |texts[0]| > 0
    ensures (Join(texts) + [close] + x)[0] == if texts == [] then close else texts[0][0]
  {}

  // ----- decoding is unique -----

  /** A value is determined by its text and what follows it: the encoding is uniquely decodable. */
  lemma {:induction false} ValueCancels(a: Json, x: Text, b: Json, y: Text)
    requires WellFormed(a) && WellFormed(b)
    requires Canonical(a) + x == Canonical(b) + y && Delimited(x) && Delimited(y)
    ensures SameValue(a, b) && x == y
    decreases a, 2, 0
  {
    hide SameValue;
    hide Sorted;
    FirstTellsKind(a);
    FirstTellsKind(b);
    assert (Canonical(a) + x)[0] == (Canonical(b) + y)[0];
    if a.Arr? {
      ArrayCancels(a, x, b, y);
    } else if a.Obj? {
      ObjectCancels(a, x, b, y);
    } else {
      ScalarCancels(a, x, b, y);
    }
  }

  lemma ScalarCancels(a: Json, x: Text, b: Json, y: Text)
    requires !a.Arr? && !a.Obj? && KindOf(a) == KindOf(b)
    requires Canonical(a) + x == Canonical(b) + y && Delimited(x) && Delimited(y)
    ensures SameValue(a, b) && x == y
  {
    if KindOf(a) < 4 {
      SamePrefix(Canonical(a), x, Canonical(b), y);
    } else if a.Num? {
      NumberCancels(NumberTextOf(a.n), x, NumberTextOf(b.n), y);
    } else {
      QuotedCancels(a.s, x, b.s, y);
    }
  }

  lemma {:induction false} ArrayCancels(a: Json, x: Text, b: Json, y: Text)
    requires WellFormed(a) && WellFormed(b) && a.Arr? && b.Arr?
    requires Canonical(a) + x == Canonical(b) + y
    ensures SameValue(a, b) && x == y
    decreases a, 1, 0
  {
    var p, q := Texts(a.items), Texts(b.items);
    BracketCancels(OPEN_LIST, Join(p), CLOSE_LIST, x, Join(q), y);
    assert p[0..] == p && q[0..] == q;
    ItemsCancel(a, x, b, y, 0);
  }

  lemma {:induction false} ItemsCancel(a: Json, x: Text, b: Json, y: Text, k: nat)
    requires WellFormed(a) && WellFormed(b) && a.Arr? && b.Arr? && k <= |a.items| && k <= |b.items|
    requires Join(Texts(a.items)[k..]) + [CLOSE_LIST] + x == Join(Texts(b.items)[k..]) + [CLOSE_LIST] + y
    ensures |a.items| == |b.items| && x == y
    ensures forall i | k <= i < |a.items| :: SameValue(a.items[i], b.items[i])
    decreases a, 0, |a.items| - k
  {
    hide SameValue;
    hide Canonical;
    var p, q := Texts(a.items)[k..], Texts(b.items)[k..];
    if k < |a.items| { FirstTellsKind(a.items[k]); }
    if k < |b.items| { FirstTellsKind(b.items[k]); }
    ListStarts(p, CLOSE_LIST, x);
    ListStarts(q, CLOSE_LIST, y);
    assert p == [] <==> q == [];
    if p == [] {
      SamePrefix([] + [CLOSE_LIST], x, [] + [CLOSE_LIST], y);
    } else {
      JoinSplits(p, CLOSE_LIST, x);
      JoinSplits(q, CLOSE_LIST, y);
      ValueCancels(a.items[k], AfterFirst(p, CLOSE_LIST, x), b.items[k], AfterFirst(q, CLOSE_LIST, y));
      AfterFirstCancels(p, q, CLOSE_LIST, x, y);
      if |p| > 1 {
        assert p[1..] == Texts(a.items)[k + 1..] && q[1..] == Texts(b.items)[k + 1..];
        ItemsCancel(a, x, b, y, k + 1);
      }
    }
  }

  // ----- objects -----

  /** An entry that stands for a field of the object. */
  predicate FieldHas(fields: seq<Field>, e: Entry) {
    exists i | 0 <= i < |fields| :: fields[i].key == e.key && Canonical(fields[i].value) == e.text
  }

  predicate HasKey(entries: seq<Entry>, key: Text) {
    exists k | 0 <= k < |entries| :: entries[k].key == key
  }

  /** Both objects have the key, with the same value. */
  predicate Paired(a: seq<Field>, b: seq<Field>, key: Text) {
    exists i, j | 0 <= i < |a| && 0 <= j < |b| :: a[i].key == key && b[j].key == key && SameValue(a[i].value, b[j].value)
  }

  lemma {:induction false} ObjectText(v: Json)
    requires v.Obj?
    ensures Canonical(v) == [OPEN_OBJECT] + Join(EntryTexts(Sorted(Entries(v.fields)))) + [CLOSE_OBJECT]
  {}

  lemma {:induction false} ObjectCancels(a: Json, x: Text, b: Json, y: Text)
    requires WellFormed(a) && WellFormed(b) && a.Obj? && b.Obj?
    requires Canonical(a) + x == Canonical(b) + y
    ensures SameValue(a, b) && x == y
    decreases a, 1, 0
  {
    ObjectText(a);
    ObjectText(b);
    hide SameValue;
    hide Sorted;
    hide Join;
    hide Canonical;
    hide Entries;
    var p, q := Sorted(Entries(a.fields)), Sorted(Entries(b.fields));
    BracketCancels(OPEN_OBJECT, Join(EntryTexts(p)), CLOSE_OBJECT, x, Join(EntryTexts(q)), y);
    SortedEntriesAreFields(a.fields);
    SortedEntriesAreFields(b.fields);
    EntriesCancel(a, p, x, b, q, y);
    PairedIsSame(a, p, b, q);
  }

  lemma {:induction false} PairedIsSame(a: Json, p: seq<Entry>, b: Json, q: seq<Entry>)
    requires a.Obj? && b.Obj? && DistinctKeys(a.fields) && DistinctKeys(b.fields) && |p| == |q|
    requires forall i | 0 <= i < |a.fields| :: HasKey(p, a.fields[i].key)
    requires forall j | 0 <= j < |b.fields| :: HasKey(q, b.fields[j].key)
    requires forall k | 0 <= k < |p| :: p[k].key == q[k].key && Paired(a.fields, b.fields, p[k].key)
    ensures SameValue(a, b)
  {
    forall i | 0 <= i < |a.fields| ensures HasMatch(a, i, b) {
      var k :| 0 <= k < |p| && p[k].key == a.fields[i].key;
      PairedHasMatch(a, i, b);
    }
    forall j | 0 <= j < |b.fields| ensures IsMatched(a, b, j) {
      var k :| 0 <= k < |q| && q[k].key == b.fields[j].key;
      PairedIsMatched(a, b, j);
    }
  }

  lemma {:induction false} PairedHasMatch(a: Json, i: nat, b: Json)
    requires a.Obj? && b.Obj? && i < |a.fields| && DistinctKeys(a.fields) && Paired(a.fields, b.fields, a.fields[i].key)
    ensures HasMatch(a, i, b)
  {
    hide SameValue;
    var m, n :| 0 <= m < |a.fields| && 0 <= n < |b.fields| && a.fields[m].key == a.fields[i].key && b.fields[n].key == a.fields[i].key
                && SameValue(a.fields[m].value, b.fields[n].value);
    assert m == i;
  }

  lemma {:induction false} PairedIsMatched(a: Json, b: Json, j: nat)
    requires a.Obj? && b.Obj? && j < |b.fields| && DistinctKeys(b.fields) && Paired(a.fields, b.fields, b.fields[j].key)
    ensures IsMatched(a, b, j)
  {
    hide SameValue;
    var m, n :| 0 <= m < |a.fields| && 0 <= n < |b.fields| && a.fields[m].key == b.fields[j].key && b.fields[n].key == b.fields[j].key
                && SameValue(a.fields[m].value, b.fields[n].value);
    assert n == j;
  }

  lemma {:induction false} EntriesCancel(a: Json, p: seq<Entry>, x: Text, b: Json, q: seq<Entry>, y: Text)
    requires WellFormed(a) && WellFormed(b) && a.Obj? && b.Obj?
    requires forall i | 0 <= i < |p| :: FieldHas(a.fields, p[i])
    requires forall i | 0 <= i < |q| :: FieldHas(b.fields, q[i])
    requires Join(EntryTexts(p)) + [CLOSE_OBJECT] + x == Join(EntryTexts(q)) + [CLOSE_OBJECT] + y
    ensures |p| == |q| && x == y
    ensures forall k | 0 <= k < |p| :: p[k].key == q[k].key && Paired(a.fields, b.fields, p[k].key)
    decreases a, 0, |p|
  {
    hide SameValue;
    hide Canonical;
    hide Quoted;
    var s, t := EntryTexts(p), EntryTexts(q);
    if p != [] { EntryStarts(p[0]); }
    if q != [] { EntryStarts(q[0]); }
    ListStarts(s, CLOSE_OBJECT, x);
    ListStarts(t, CLOSE_OBJECT, y);
    assert p == [] <==> q == [];
    if p == [] {
      SamePrefix([] + [CLOSE_OBJECT], x, [] + [CLOSE_OBJECT], y);
    } else {
      JoinSplits(s, CLOSE_OBJECT, x);
      JoinSplits(t, CLOSE_OBJECT, y);
      EntryCancels(a, p[0], AfterFirst(s, CLOSE_OBJECT, x), b, q[0], AfterFirst(t, CLOSE_OBJECT, y));
      AfterFirstCancels(s, t, CLOSE_OBJECT, x, y);
      if |p| > 1 {
        assert s[1..] == EntryTexts(p[1..]) && t[1..] == EntryTexts(q[1..]);
        EntriesCancel(a, p[1..], x, b, q[1..], y);
        hide Paired;
        forall k | 0 < k < |p| ensures p[k].key == q[k].key && Paired(a.fields, b.fields, p[k].key) {
          assert p[k] == p[1..][k - 1] && q[k] == q[1..][k - 1];
        }
      }
    }
  }

  lemma EntryStarts(e: Entry)
    ensures |EntryText(e)| > 0 && EntryText(e)[0] == QUOTE
  {}

  lemma {:induction false} EntryCancels(a: Json, e: Entry, x: Text, b: Json, f: Entry, y: Text)
    requires WellFormed(a) && WellFormed(b) && a.Obj? && b.Obj? && FieldHas(a.fields, e) && FieldHas(b.fields, f)
    requires EntryText(e) + x == EntryText(f) + y && Delimited(x) && Delimited(y)
    ensures e.key == f.key && x == y && Paired(a.fields, b.fields, e.key)
    decreases a, 0, 0
  {
    hide SameValue;
    hide Canonical;
    hide Quoted;
    var l, r := [COLON] + (e.text + x), [COLON] + (f.text + y);
    assert EntryText(e) + x == Quoted(e.key) + l && EntryText(f) + y == Quoted(f.key) + r;
    QuotedCancels(e.key, l, f.key, r);
    SamePrefix([COLON], e.text + x, [COLON], f.text + y);
    var i :| 0 <= i < |a.fields| && a.fields[i].key == e.key && Canonical(a.fields[i].value) == e.text;
    var j :| 0 <= j < |b.fields| && b.fields[j].key == f.key && Canonical(b.fields[j].value) == f.text;
    ValueCancels(a.fields[i].value, x, b.fields[j].value, y);
  }

  // ----- sorting -----

  lemma {:induction false} InsertKeeps(e: Entry, sorted: seq<Entry>)
    ensures forall x :: x in Insert(e, sorted) <==> x == e || x in sorted
  {
    if sorted != [] {
      InsertKeeps(e, sorted[1..]);
      assert sorted == [sorted[0]] + sorted[1..];
    }
  }

  lemma {:induction false} SortedKeeps(entries: seq<Entry>)
    ensures forall x :: x in Sorted(entries) <==> x in entries
  {
    if entries != [] {
      SortedKeeps(entries[1..]);
      InsertKeeps(entries[0], Sorted(entries[1..]));
      assert entries == [entries[0]] + entries[1..];
    }
  }

  lemma SortedEntriesAreFields(fields: seq<Field>)
    ensures var p := Sorted(Entries(fields));
            && (forall k | 0 <= k < |p| :: FieldHas(fields, p[k]))
            && (forall i | 0 <= i < |fields| :: HasKey(p, fields[i].key))
  {
    hide Canonical;
    var p := Sorted(Entries(fields));
    SortedKeeps(Entries(fields));
    forall k | 0 <= k < |p| ensures FieldHas(fields, p[k]) {
      assert p[k] in Entries(fields);
    }
    forall i | 0 <= i < |fields| ensures HasKey(p, fields[i].key) {
      assert Entries(fields)[i] in p;
    }
  }

  lemma {:induction false} BeforeIsOrder(a: Text, b: Text, c: Text)
    ensures !Before(a, a)
    ensures Before(a, b) && Before(b, c) ==> Before(a, c)
    ensures a != b ==> Before(a, b) || Before(b, a)
    decreases |a|
  {
    if a != [] && b != [] {
      BeforeIsOrder(a[1..], b[1..], if c == [] then [] else c[1..]);
      assert a == [a[0]] + a[1..] && b == [b[0]] + b[1..];
    } else if a != [] {
      BeforeIsOrder(a[1..], [], []);
    }
  }

  predicate StrictlySorted(entries: seq<Entry>) {
    forall i, j | 0 <= i < j < |entries| :: Before(entries[i].key, entries[j].key)
  }

  lemma {:induction false} InsertSorts(e: Entry, sorted: seq<Entry>)
    requires StrictlySorted(sorted) && forall x | x in sorted :: x.key != e.key
    ensures StrictlySorted(Insert(e, sorted))
  {
    hide Before;
    if sorted != [] {
      var first, rest := sorted[0], sorted[1..];
      BeforeIsOrder(e.key, first.key, first.key);
      if Before(e.key, first.key) {
        forall x | x in sorted ensures Before(e.key, x.key) {
          BeforeIsOrder(e.key, first.key, x.key);
        }
      } else {
        assert Before(first.key, e.key);
        InsertSorts(e, rest);
        InsertKeeps(e, rest);
        forall x | x in Insert(e, rest) ensures Before(first.key, x.key) {}
      }
    }
  }

  lemma {:induction false} SortedSorts(entries: seq<Entry>)
    requires forall i, j | 0 <= i < j < |entries| :: entries[i].key != entries[j].key
    ensures StrictlySorted(Sorted(entries))
  {
    if entries != [] {
      SortedSorts(entries[1..]);
      SortedKeeps(entries[1..]);
      InsertSorts(entries[0], Sorted(entries[1..]));
    }
  }

  lemma RestIsLater(p: seq<Entry>)
    requires StrictlySorted(p) && p != []
    ensures forall x :: x in p[1..] <==> x in p && x != p[0]
  {
    hide Before;
    BeforeIsOrder(p[0].key, p[0].key, p[0].key);
    assert p == [p[0]] + p[1..];
  }

  lemma {:induction false} SortedIsUnique(p: seq<Entry>, q: seq<Entry>)
    requires StrictlySorted(p) && StrictlySorted(q)
    requires forall x :: x in p <==> x in q
    ensures p == q
  {
    hide Before;
    assert p != [] ==> p[0] in q;
    assert q != [] ==> q[0] in p;
    if p != [] {
      assert p[0] in q && q[0] in p;
      if p[0] != q[0] {
        BeforeIsOrder(p[0].key, q[0].key, p[0].key);
        assert false;
      }
      RestIsLater(p);
      RestIsLater(q);
      SortedIsUnique(p[1..], q[1..]);
    }
  }

  // ----- the theorem -----

  lemma {:induction false} SameHasSameText(a: Json, b: Json)
    requires WellFormed(a) && WellFormed(b) && SameValue(a, b)
    ensures Canonical(a) == Canonical(b)
    decreases a
  {
    hide Canonical;
    match a
    case Arr(items) =>
      forall i | 0 <= i < |items| ensures Canonical(items[i]) == Canonical(b.items[i]) {
        SameHasSameText(items[i], b.items[i]);
      }
      ArrayText(a, b);
    case Obj(fields) =>
      forall i | 0 <= i < |fields| ensures Entries(fields)[i] in Entries(b.fields) {
        assert HasMatch(a, i, b);
        var j :| 0 <= j < |b.fields| && b.fields[j].key == fields[i].key && SameValue(fields[i].value, b.fields[j].value);
        SameHasSameText(fields[i].value, b.fields[j].value);
        EntryIn(fields, i, b.fields, j);
      }
      forall j | 0 <= j < |b.fields| ensures Entries(b.fields)[j] in Entries(fields) {
        assert IsMatched(a, b, j);
        var i :| 0 <= i < |fields| && fields[i].key == b.fields[j].key && SameValue(fields[i].value, b.fields[j].value);
        SameHasSameText(fields[i].value, b.fields[j].value);
        EntryIn(b.fields, j, fields, i);
      }
      SameEntriesSortAlike(fields, b.fields);
      ObjectText(a);
      ObjectText(b);
    case _ =>
      ScalarText(a, b);
  }

  lemma ScalarText(a: Json, b: Json)
    requires !a.Arr? && !a.Obj? && SameValue(a, b)
    ensures Canonical(a) == Canonical(b)
  {}

  lemma ArrayText(a: Json, b: Json)
    requires a.Arr? && b.Arr? && |a.items| == |b.items|
    requires forall i | 0 <= i < |a.items| :: Canonical(a.items[i]) == Canonical(b.items[i])
    ensures Canonical(a) == Canonical(b)
  {
    assert Texts(a.items) == Texts(b.items);
  }

  lemma EntryIn(a: seq<Field>, i: nat, b: seq<Field>, j: nat)
    requires i < |a| && j < |b| && a[i].key == b[j].key && Canonical(a[i].value) == Canonical(b[j].value)
    ensures Entries(a)[i] in Entries(b)
  {
    hide Canonical;
    assert Entries(b)[j] == Entries(a)[i];
  }

  lemma SameEntriesSortAlike(a: seq<Field>, b: seq<Field>)
    requires DistinctKeys(a) && DistinctKeys(b)
    requires forall i | 0 <= i < |a| :: Entries(a)[i] in Entries(b)
    requires forall j | 0 <= j < |b| :: Entries(b)[j] in Entries(a)
    ensures Sorted(Entries(a)) == Sorted(Entries(b))
  {
    hide Canonical;
    var p, q := Entries(a), Entries(b);
    SortedSorts(p);
    SortedSorts(q);
    SortedKeeps(p);
    SortedKeeps(q);
    SortedIsUnique(Sorted(p), Sorted(q));
  }

  /** Canonical fingerprints are faithful: two payloads have one text if and only if they are the same value, up
      to the order of object keys and to the numbers that JSON prints alike. */
  lemma Faithful(a: Json, b: Json)
    requires WellFormed(a) && WellFormed(b)
    ensures Canonical(a) == Canonical(b) <==> SameValue(a, b)
  {
    hide Canonical;
    hide SameValue;
    if Canonical(a) == Canonical(b) {
      ValueCancels(a, [], b, []);
    }
    if SameValue(a, b) {
      SameHasSameText(a, b);
    }
  }

  /** Not the same value, yet the same text: a number that is too large for JSON reads as null. */
  lemma InfinityReadsAsNull(key: Text)
    ensures var a, b := Obj([Field(key, Num(NotFinite))]), Obj([Field(key, Null)]);
            a != b && WellFormed(a) && WellFormed(b) && Canonical(a) == Canonical(b)
  {
    var a, b := Obj([Field(key, Num(NotFinite))]), Obj([Field(key, Null)]);
    Faithful(a, b);
    assert SameValue(a.fields[0].value, b.fields[0].value);
    assert HasMatch(a, 0, b) && IsMatched(a, b, 0);
  }
}
