/** The canonical text of a payload, as sequences of UTF-16 code units, and its faithfulness: two payloads have
    the same text exactly when they are the same value up to the order of object keys. */
module CanonicalJson {

  type CodeUnit = n: int | 0 <= n < 0x10000

  type Text = seq<CodeUnit>

  const QUOTE: CodeUnit := 34
  const COMMA: CodeUnit := 44
  const COLON: CodeUnit := 58
  const OPEN_LIST: CodeUnit := 91
  const BACKSLASH: CodeUnit := 92
  const CLOSE_LIST: CodeUnit := 93
  const OPEN_OBJECT: CodeUnit := 123
  const CLOSE_OBJECT: CodeUnit := 125

  const NULL_TEXT: Text := [110, 117, 108, 108]
  const TRUE_TEXT: Text := [116, 114, 117, 101]
  const FALSE_TEXT: Text := [102, 97, 108, 115, 101]
  const UNDEFINED_TEXT: Text := [117, 110, 100, 101, 102, 105, 110, 101, 100]

  function Ascii(s: string): Text {
    seq(|s|, i requires 0 <= i < |s| => s[i] as int % 0x10000)
  }

  /** The characters of a printed number: digits, signs, the point and the exponent mark. */
  predicate IsNumberUnit(c: CodeUnit) {
    48 <= c <= 57 || c in {43, 45, 46, 101}
  }

  predicate StartsNumber(c: CodeUnit) {
    48 <= c <= 57 || c == 45
  }

  predicate IsNumberText(t: Text) {
    |t| > 0 && StartsNumber(t[0]) && forall i | 0 <= i < |t| :: IsNumberUnit(t[i])
  }

  type NumberText = t: Text | IsNumberText(t) witness [48]

  /** A number; a finite one is known by the shortest text that prints it, so minus zero stands apart. */
  datatype Number = Finite(text: NumberText) | MinusZero | NotFinite

  datatype Field = Field(key: Text, value: Json)

  datatype Json =
    | Undefined
    | Null
    | Bool(b: bool)
    | Num(n: Number)
    | Str(s: Text)
    | Arr(items: seq<Json>)
    | Obj(fields: seq<Field>)

  predicate DistinctKeys(fields: seq<Field>) {
    forall i, j | 0 <= i < j < |fields| :: fields[i].key != fields[j].key
  }

  /** Objects have each key once. */
  predicate WellFormed(v: Json) {
    match v
    case Arr(items) => forall i | 0 <= i < |items| :: WellFormed(items[i])
    case Obj(fields) =>
      && DistinctKeys(fields)
      && forall i | 0 <= i < |fields| :: WellFormed(fields[i].value)
    case _ => true
  }

  // ----- strings -----

  predicate IsHigh(c: CodeUnit) {
    0xD800 <= c < 0xDC00
  }

  predicate IsLow(c: CodeUnit) {
    0xDC00 <= c < 0xE000
  }

  function HexUnit(n: nat): CodeUnit
    requires n < 16
  {
    if n < 10 then 48 + n else 87 + n
  }

  function Hex4(c: CodeUnit): (t: Text)
    ensures |t| == 4
  {
    [HexUnit(c / 16 / 16 / 16), HexUnit(c / 16 / 16 % 16), HexUnit(c / 16 % 16), HexUnit(c % 16)]
  }

  /** The letter of a short escape, or 0. */
  function ShortEscape(c: CodeUnit): CodeUnit {
    if c == QUOTE then QUOTE
    else if c == BACKSLASH then BACKSLASH
    else if c == 8 then 98
    else if c == 9 then 116
    else if c == 10 then 110
    else if c == 12 then 102
    else if c == 13 then 114
    else 0
  }

  /** A code unit that is not part of a surrogate pair. */
  function EscapeUnit(c: CodeUnit): (t: Text)
    ensures |t| > 0 && t[0] != QUOTE && !(IsHigh(t[0]) || IsLow(t[0]))
  {
    if ShortEscape(c) != 0 then [BACKSLASH, ShortEscape(c)]
    else if c < 32 || IsHigh(c) || IsLow(c) then [BACKSLASH, 117] + Hex4(c)
    else [c]
  }

  /** Surrogate pairs stay as they are; lone surrogates are escaped. */
  function Escape(s: Text): Text {
    if s == [] then []
    else if |s| >= 2 && IsHigh(s[0]) && IsLow(s[1]) then [s[0], s[1]] + Escape(s[2..])
    else EscapeUnit(s[0]) + Escape(s[1..])
  }

  function Quoted(s: Text): Text {
    [QUOTE] + Escape(s) + [QUOTE]
  }

  // ----- values -----

  function NumberTextOf(n: Number): Text {
    match n
    case Finite(text) => text
    case MinusZero => [48]
    case NotFinite => NULL_TEXT
  }

  datatype Entry = Entry(key: Text, text: Text)

  /** The order of the code units, the shorter of two prefixes first. */
  predicate Before(a: Text, b: Text) {
    if b == [] then false
    else if a == [] then true
    else a[0] < b[0] || (a[0] == b[0] && Before(a[1..], b[1..]))
  }

  function Insert(e: Entry, sorted: seq<Entry>): seq<Entry> {
    if sorted == [] then [e]
    else if Before(e.key, sorted[0].key) then [e] + sorted
    else [sorted[0]] + Insert(e, sorted[1..])
  }

  function Sorted(entries: seq<Entry>): seq<Entry> {
    if entries == [] then [] else Insert(entries[0], Sorted(entries[1..]))
  }

  function Join(texts: seq<Text>): Text {
    if texts == [] then []
    else if |texts| == 1 then texts[0]
    else texts[0] + [COMMA] + Join(texts[1..])
  }

  function EntryText(e: Entry): Text {
    Quoted(e.key) + [COLON] + e.text
  }

  function EntryTexts(entries: seq<Entry>): seq<Text> {
    seq(|entries|, i requires 0 <= i < |entries| => EntryText(entries[i]))
  }

  function Texts(items: seq<Json>): seq<Text> {
    seq(|items|, i requires 0 <= i < |items| => Canonical(items[i]))
  }

  function Entries(fields: seq<Field>): seq<Entry> {
    seq(|fields|, i requires 0 <= i < |fields| => Entry(fields[i].key, Canonical(fields[i].value)))
  }

  function Canonical(v: Json): Text {
    match v
    case Undefined => UNDEFINED_TEXT
    case Null => NULL_TEXT
    case Bool(b) => if b then TRUE_TEXT else FALSE_TEXT
    case Num(n) => NumberTextOf(n)
    case Str(s) => Quoted(s)
    case Arr(items) => [OPEN_LIST] + Join(Texts(items)) + [CLOSE_LIST]
    case Obj(fields) => [OPEN_OBJECT] + Join(EntryTexts(Sorted(Entries(fields)))) + [CLOSE_OBJECT]
  }

  // ----- the same value, said without texts -----

  /** What JSON has no text for: a number that is not finite reads as null, and minus zero as zero. */
  function Plain(v: Json): Json {
    match v
    case Num(NotFinite) => Null
    case Num(MinusZero) => Num(Finite([48]))
    case _ => v
  }

  /** Equal up to the order of object keys: each field of either object has its match in the other. */
  predicate SameValue(a: Json, b: Json)
    decreases a, 1
  {
    match a
    case Arr(items) =>
      b.Arr? && |b.items| == |items| && forall i | 0 <= i < |items| :: SameValue(items[i], b.items[i])
    case Obj(fields) =>
      && b.Obj?
      && (forall i | 0 <= i < |fields| :: HasMatch(a, i, b))
      && (forall j | 0 <= j < |b.fields| :: IsMatched(a, b, j))
    case _ => Plain(a) == Plain(b)
  }

  predicate HasMatch(a: Json, i: nat, b: Json)
    requires a.Obj? && b.Obj? && i < |a.fields|
    decreases a, 0
  {
    exists j | 0 <= j < |b.fields| :: b.fields[j].key == a.fields[i].key && SameValue(a.fields[i].value, b.fields[j].value)
  }

  predicate IsMatched(a: Json, b: Json, j: nat)
    requires a.Obj? && b.Obj? && j < |b.fields|
    decreases a, 0
  {
    exists i | 0 <= i < |a.fields| :: a.fields[i].key == b.fields[j].key && SameValue(a.fields[i].value, b.fields[j].value)
  }
}
