/**
  JSON values, their canonical text, and the proof that the text is unambiguous.

  A number is carried by the text `JSON.stringify` gives it; a string is a
  sequence of Unicode scalar values; an object is the list of its entries in
  insertion order.
 */
module Json {
  import opened Sorting
  import opened Options

  predicate NumberChar(c: char) {
    '0' <= c <= '9' || c == '+' || c == '-' || c == '.' || c == 'e'
  }

  predicate IsNumberText(s: string) {
    s != "" && forall i :: 0 <= i < |s| ==> NumberChar(s[i])
  }

  type NumberText = s: string | IsNumberText(s) witness "0"

  datatype Field = Field(key: string, value: Json)

  datatype Json =
    | Null
    | Bool(b: bool)
    | Number(text: NumberText)
    | Str(s: string)
    | Arr(items: seq<Json>)
    | Obj(fields: seq<Field>)

  // ----- numbers

  function Digit(d: nat): char
    requires d < 10
  {
    ('0' as int + d) as char
  }

  function Decimal(n: nat): (s: string)
    ensures IsNumberText(s)
    ensures forall i :: 0 <= i < |s| ==> '0' <= s[i] <= '9'
  {
    if n < 10 then [Digit(n)] else Decimal(n / 10) + [Digit(n % 10)]
  }

  lemma {:induction false} DecimalInjective(m: nat, n: nat)
    requires Decimal(m) == Decimal(n)
    ensures m == n
    decreases m
  {
    var s, t := Decimal(m), Decimal(n);
    assert s[|s| - 1] == t[|t| - 1];
    assert Digit(m % 10) == s[|s| - 1] && Digit(n % 10) == t[|t| - 1];
    assert m % 10 == n % 10;
    if m >= 10 && n >= 10 {
      assert s[..|s| - 1] == Decimal(m / 10) && t[..|t| - 1] == Decimal(n / 10);
      DecimalInjective(m / 10, n / 10);
    }
  }

  const MAX_SAFE_INTEGER: nat := 9007199254740991

  function DigitsValue(s: string): nat
    requires forall i :: 0 <= i < |s| ==> '0' <= s[i] <= '9'
  {
    if s == "" then 0
    else 10 * DigitsValue(s[..|s| - 1]) + (s[|s| - 1] as int - '0' as int)
  }

  /** The number as a non-negative safe integer, when it is one. */
  function SafeNat(v: Json): (r: Option<nat>)
    ensures r.Some? ==> r.value <= MAX_SAFE_INTEGER && v == Number(Decimal(r.value))
  {
    if v.Number? && (forall i :: 0 <= i < |v.text| ==> '0' <= v.text[i] <= '9') then
      var n := DigitsValue(v.text);
      if n <= MAX_SAFE_INTEGER && Decimal(n) == v.text then Some(n) else None
    else None
  }

  lemma {:induction false} DecimalValue(n: nat)
    ensures DigitsValue(Decimal(n)) == n
  {
    var s := Decimal(n);
    if n >= 10 {
      DecimalValue(n / 10);
      assert s[..|s| - 1] == Decimal(n / 10);
    } else {
      assert s[..|s| - 1] == "";
    }
  }

  lemma {:induction false} SafeNatDecimal(n: nat)
    requires n <= MAX_SAFE_INTEGER
    ensures SafeNat(Number(Decimal(n))) == Some(n)
  {
    DecimalValue(n);
  }

  // ----- text

  function HexDigit(d: nat): char
    requires d < 16
  {
    if d < 10 then Digit(d) else ('a' as int + (d - 10)) as char
  }

  /** `JSON.stringify` of one character, inside the quotes. */
  function Escape(c: char): (s: string)
    ensures s != "" && s[0] != '"'
  {
    if c == '"' then "\\\""
    else if c == '\\' then "\\\\"
    else if c as int == 8 then "\\b"
    else if c as int == 9 then "\\t"
    else if c as int == 10 then "\\n"
    else if c as int == 12 then "\\f"
    else if c as int == 13 then "\\r"
    else if c as int < 32 then "\\u00" + [HexDigit(c as int / 16)] + [HexDigit(c as int % 16)]
    else [c]
  }

  /** The escaped characters and the closing quote. */
  function EscapeAll(s: string): string {
    if s == "" then "\"" else Escape(s[0]) + EscapeAll(s[1..])
  }

  function Quote(s: string): string {
    "\"" + EscapeAll(s)
  }

  function Render(v: Json): (s: string)
    ensures s != ""
    decreases v, 1
  {
    match v
    case Null => "null"
    case Bool(b) => if b then "true" else "false"
    case Number(text) => text
    case Str(s) => Quote(s)
    case Arr(items) => "[" + RenderItems(items, true)
    case Obj(fields) => "{" + RenderFields(fields, true)
  }

  function Comma(first: bool): string {
    if first then "" else ","
  }

  function RenderItems(items: seq<Json>, first: bool): (s: string)
    ensures s != ""
    decreases items, 0
  {
    if items == [] then "]"
    else Comma(first) + (Render(items[0]) + RenderItems(items[1..], false))
  }

  function RenderFields(fields: seq<Field>, first: bool): (s: string)
    ensures s != ""
    decreases fields, 0
  {
    if fields == [] then "}"
    else Comma(first) + (Quote(fields[0].key) + (":" + (Render(fields[0].value) + RenderFields(fields[1..], false))))
  }

  // ----- the text can be read in one way only

  lemma {:induction false} DropPrefix(p: string, x: string, y: string)
    requires p + x == p + y
    ensures x == y
  {
    assert x == (p + x)[|p|..] && y == (p + y)[|p|..];
  }

  lemma {:induction false} Assoc(a: string, b: string, c: string)
    ensures (a + b) + c == a + (b + c)
  {
  }

  lemma {:induction false} ReadEscape(c: char, d: char, x: string, y: string)
    requires Escape(c) + x == Escape(d) + y
    ensures c == d && x == y
  {
    var s, t := Escape(c) + x, Escape(d) + y;
    assert s[0] == Escape(c)[0] && t[0] == Escape(d)[0];
    if s[0] == '\\' {
      assert s[1] == Escape(c)[1] && t[1] == Escape(d)[1];
      if s[1] == 'u' {
        assert s[4] == Escape(c)[4] && t[4] == Escape(d)[4];
        assert s[5] == Escape(c)[5] && t[5] == Escape(d)[5];
      }
    }
    assert c == d;
    DropPrefix(Escape(c), x, y);
  }

  lemma {:induction false} ReadEscaped(a: string, b: string, x: string, y: string)
    requires EscapeAll(a) + x == EscapeAll(b) + y
    ensures a == b && x == y
    decreases |a|
  {
    var s, t := EscapeAll(a) + x, EscapeAll(b) + y;
    if a != "" {
      Assoc(Escape(a[0]), EscapeAll(a[1..]), x);
      assert s[0] == Escape(a[0])[0];
    }
    if b != "" {
      Assoc(Escape(b[0]), EscapeAll(b[1..]), y);
      assert t[0] == Escape(b[0])[0];
    }
    if a == "" || b == "" {
      assert a == "" ==> s[0] == '"';
      assert b == "" ==> t[0] == '"';
      assert a == b;
      DropPrefix("\"", x, y);
    } else {
      ReadEscape(a[0], b[0], EscapeAll(a[1..]) + x, EscapeAll(b[1..]) + y);
      ReadEscaped(a[1..], b[1..], x, y);
      assert a == [a[0]] + a[1..] && b == [b[0]] + b[1..];
    }
  }

  lemma {:induction false} ReadQuote(a: string, b: string, x: string, y: string)
    requires Quote(a) + x == Quote(b) + y
    ensures a == b && x == y
  {
    Assoc("\"", EscapeAll(a), x);
    Assoc("\"", EscapeAll(b), y);
    DropPrefix("\"", EscapeAll(a) + x, EscapeAll(b) + y);
    ReadEscaped(a, b, x, y);
  }

  /** What may follow a value: nothing, or a character no number contains. */
  predicate Terminated(x: string) {
    x == "" || !NumberChar(x[0])
  }

  lemma {:induction false} NumberOverhang(s: string, t: NumberText, x: string, y: string)
    requires s + x == t + y && |s| < |t|
    ensures !Terminated(x)
  {
    assert |s + x| == |t + y|;
    assert (s + x)[|s|] == x[0];
    assert (t + y)[|s|] == t[|s|];
  }

  lemma {:induction false} ReadNumber(s: NumberText, t: NumberText, x: string, y: string)
    requires s + x == t + y && Terminated(x) && Terminated(y)
    ensures s == t && x == y
  {
    if |s| < |t| {
      NumberOverhang(s, t, x, y);
    } else if |t| < |s| {
      NumberOverhang(t, s, y, x);
    }
    assert s == (s + x)[..|s|] && t == (t + y)[..|t|];
    DropPrefix(s, x, y);
  }

  /** The first character tells the kind of value. */
  function Kind(v: Json): nat {
    match v
    case Null => 0
    case Bool(b) => if b then 1 else 2
    case Number(_) => 3
    case Str(_) => 4
    case Arr(_) => 5
    case Obj(_) => 6
  }

  function KindOf(c: char): nat {
    if c == 'n' then 0 else if c == 't' then 1 else if c == 'f' then 2 else if c == '"' then 4
    else if c == '[' then 5 else if c == '{' then 6 else 3
  }

  lemma {:induction false} FirstTellsKind(v: Json)
    ensures KindOf(Render(v)[0]) == Kind(v)
    ensures Render(v)[0] != ']'
  {
  }

  lemma {:induction false} TailTerminated(items: seq<Json>, fields: seq<Field>, x: string)
    ensures Terminated(RenderItems(items, false) + x)
    ensures Terminated(RenderFields(fields, false) + x)
  {
  }

  lemma {:induction false} ReadValue(a: Json, b: Json, x: string, y: string)
    requires Render(a) + x == Render(b) + y && Terminated(x) && Terminated(y)
    ensures a == b && x == y
    decreases a, 1
  {
    FirstTellsKind(a);
    FirstTellsKind(b);
    assert (Render(a) + x)[0] == Render(a)[0] && (Render(b) + y)[0] == Render(b)[0];
    assert Kind(a) == Kind(b);
    match a {
      case Null => DropPrefix("null", x, y);
      case Bool(v) => DropPrefix(Render(a), x, y);
      case Number(s) => ReadNumber(s, b.text, x, y);
      case Str(s) => ReadQuote(s, b.s, x, y);
      case Arr(items) =>
        Assoc("[", RenderItems(items, true), x);
        Assoc("[", RenderItems(b.items, true), y);
        DropPrefix("[", RenderItems(items, true) + x, RenderItems(b.items, true) + y);
        ReadItems(items, b.items, true, x, y);
      case Obj(fields) =>
        Assoc("{", RenderFields(fields, true), x);
        Assoc("{", RenderFields(b.fields, true), y);
        DropPrefix("{", RenderFields(fields, true) + x, RenderFields(b.fields, true) + y);
        ReadFields(fields, b.fields, true, x, y);
    }
  }

  lemma {:induction false} ReadItems(a: seq<Json>, b: seq<Json>, first: bool, x: string, y: string)
    requires RenderItems(a, first) + x == RenderItems(b, first) + y
    ensures a == b && x == y
    decreases a, 0
  {
    var s, t := RenderItems(a, first) + x, RenderItems(b, first) + y;
    ItemsHead(a, first, x);
    ItemsHead(b, first, y);
    if a == [] || b == [] {
      assert a == b;
      DropPrefix("]", x, y);
    } else {
      var p, q := RenderItems(a[1..], false) + x, RenderItems(b[1..], false) + y;
      DropPrefix(Comma(first), Render(a[0]) + p, Render(b[0]) + q);
      TailTerminated(a[1..], [], x);
      TailTerminated(b[1..], [], y);
      ReadValue(a[0], b[0], p, q);
      ReadItems(a[1..], b[1..], false, x, y);
      assert a == [a[0]] + a[1..] && b == [b[0]] + b[1..];
    }
  }

  lemma {:induction false} ItemsHead(a: seq<Json>, first: bool, x: string)
    ensures a == [] <==> (RenderItems(a, first) + x)[0] == ']'
    ensures a != [] ==> RenderItems(a, first) + x == Comma(first) + (Render(a[0]) + (RenderItems(a[1..], false) + x))
  {
    if a != [] {
      FirstTellsKind(a[0]);
      Assoc(Render(a[0]), RenderItems(a[1..], false), x);
      Assoc(Comma(first), Render(a[0]) + RenderItems(a[1..], false), x);
    }
  }

  lemma {:induction false} ReadFields(a: seq<Field>, b: seq<Field>, first: bool, x: string, y: string)
    requires RenderFields(a, first) + x == RenderFields(b, first) + y
    ensures a == b && x == y
    decreases a, 0
  {
    FieldsHead(a, first, x);
    FieldsHead(b, first, y);
    if a == [] || b == [] {
      assert a == b;
      DropPrefix("}", x, y);
    } else {
      var p, q := RenderFields(a[1..], false) + x, RenderFields(b[1..], false) + y;
      DropPrefix(Comma(first), Quote(a[0].key) + (":" + (Render(a[0].value) + p)), Quote(b[0].key) + (":" + (Render(b[0].value) + q)));
      ReadQuote(a[0].key, b[0].key, ":" + (Render(a[0].value) + p), ":" + (Render(b[0].value) + q));
      DropPrefix(":", Render(a[0].value) + p, Render(b[0].value) + q);
      TailTerminated([], a[1..], x);
      TailTerminated([], b[1..], y);
      ReadValue(a[0].value, b[0].value, p, q);
      ReadFields(a[1..], b[1..], false, x, y);
      assert a == [a[0]] + a[1..] && b == [b[0]] + b[1..];
    }
  }

  lemma {:induction false} FieldsHead(a: seq<Field>, first: bool, x: string)
    ensures a == [] <==> (RenderFields(a, first) + x)[0] == '}'
    ensures a != [] ==>
              RenderFields(a, first) + x ==
              Comma(first) + (Quote(a[0].key) + (":" + (Render(a[0].value) + (RenderFields(a[1..], false) + x))))
  {
    if a != [] {
      var tail := RenderFields(a[1..], false);
      var value := Render(a[0].value);
      Assoc(value, tail, x);
      Assoc(":", value + tail, x);
      Assoc(Quote(a[0].key), ":" + (value + tail), x);
      Assoc(Comma(first), Quote(a[0].key) + (":" + (value + tail)), x);
    }
  }

  /** Values with the same text are the same value, entry order included. */
  lemma {:induction false} RenderInjective(a: Json, b: Json)
    requires Render(a) == Render(b)
    ensures a == b
  {
    assert Render(a) + "" == Render(a) && Render(b) + "" == Render(b);
    ReadValue(a, b, "", "");
  }

  // ----- objects as maps

  /** JSON values with objects read as maps. */
  datatype Value =
    | VNull
    | VBool(b: bool)
    | VNumber(text: NumberText)
    | VString(s: string)
    | VArray(items: seq<Value>)
    | VObject(fields: map<string, Value>)

  function Meaning(v: Json): Value
    decreases v, 1
  {
    match v
    case Null => VNull
    case Bool(b) => VBool(b)
    case Number(text) => VNumber(text)
    case Str(s) => VString(s)
    case Arr(items) => VArray(MeaningItems(items))
    case Obj(fields) => VObject(MeaningFields(fields))
  }

  function MeaningItems(items: seq<Json>): (r: seq<Value>)
    ensures |r| == |items|
    decreases items, 0
  {
    if items == [] then [] else [Meaning(items[0])] + MeaningItems(items[1..])
  }

  function MeaningFields(fields: seq<Field>): (m: map<string, Value>)
    ensures forall k :: k in m <==> exists i :: 0 <= i < |fields| && fields[i].key == k
    decreases fields, 0
  {
    if fields == [] then map[] else MeaningFields(fields[1..])[fields[0].key := Meaning(fields[0].value)]
  }

  /** A JavaScript object has each key once. */
  ghost predicate WellFormed(v: Json)
    decreases v
  {
    match v
    case Arr(items) => forall i :: 0 <= i < |items| ==> WellFormed(items[i])
    case Obj(fields) =>
      && DistinctKeys(fields)
      && (forall i :: 0 <= i < |fields| ==> WellFormed(fields[i].value))
    case _ => true
  }

  /** The key whose assignment sets an object's prototype and stores nothing. */
  const PROTO: string := "__proto__"

  /** Entries sorted by key at every level: what `canonicalJson` reads off. */
  function Norm(v: Json): Json
    decreases v, 1
  {
    match v
    case Arr(items) => Arr(NormItems(items))
    case Obj(fields) => Obj(Sort(KeyOf, NormFields(fields)))
    case _ => v
  }

  function NormItems(items: seq<Json>): (r: seq<Json>)
    ensures |r| == |items|
    decreases items, 0
  {
    if items == [] then [] else [Norm(items[0])] + NormItems(items[1..])
  }

  function NormFields(fields: seq<Field>): (r: seq<Field>)
    ensures |r| == |fields|
    ensures forall i :: 0 <= i < |fields| ==> r[i].key == fields[i].key
    decreases fields, 0
  {
    if fields == [] then []
    else [Field(fields[0].key, Norm(fields[0].value))] + NormFields(fields[1..])
  }

  function CanonicalJson(v: Json): string {
    Render(Norm(v))
  }

  predicate DistinctKeys(fields: seq<Field>) {
    forall i, j :: 0 <= i < j < |fields| ==> fields[i].key != fields[j].key
  }

  lemma {:induction false} MeaningLookup(fields: seq<Field>, i: nat)
    requires DistinctKeys(fields) && i < |fields|
    ensures fields[i].key in MeaningFields(fields)
    ensures MeaningFields(fields)[fields[i].key] == Meaning(fields[i].value)
    decreases fields
  {
    if i > 0 {
      MeaningLookup(fields[1..], i - 1);
    }
  }

  lemma {:induction false} NormFieldAt(fields: seq<Field>, i: nat)
    requires i < |fields|
    ensures NormFields(fields)[i] == Field(fields[i].key, Norm(fields[i].value))
    decreases fields
  {
    if i > 0 {
      NormFieldAt(fields[1..], i - 1);
    }
  }

  function KeyOf(f: Field): string {
    f.key
  }

  /** Distinct keys sort strictly. */
  lemma {:induction false} SortDistinct(fields: seq<Field>)
    requires DistinctKeys(fields)
    ensures StrictBy(KeyOf, Sort(KeyOf, fields))
    ensures forall f :: f in Sort(KeyOf, fields) <==> f in fields
    ensures DistinctKeys(Sort(KeyOf, fields))
  {
    var sorted := Sort(KeyOf, fields);
    SortContents(KeyOf, fields);
    SameMembers(sorted, fields);
    SortSorted(KeyOf, fields);
    forall i, j | 0 <= i < j < |sorted| ensures Less(sorted[i].key, sorted[j].key) {
      LessTotal(sorted[i].key, sorted[j].key);
      if sorted[i].key == sorted[j].key {
        SameKeySameField(fields, sorted[i], sorted[j]);
        RepeatedMember(sorted, i, j);
        NoRepeats(fields, sorted[i]);
      }
    }
    forall i, j | 0 <= i < j < |sorted| ensures sorted[i].key != sorted[j].key {
      LessIrreflexive(sorted[i].key);
    }
  }

  lemma {:induction false} SameKeySameField(fields: seq<Field>, f: Field, g: Field)
    requires DistinctKeys(fields) && f in fields && g in fields && f.key == g.key
    ensures f == g
  {
  }

  lemma {:induction false} RepeatedMember<T>(xs: seq<T>, i: nat, j: nat)
    requires i < j < |xs| && xs[i] == xs[j]
    ensures multiset(xs)[xs[i]] >= 2
  {
    assert xs == xs[..j] + [xs[j]] + xs[j + 1..];
    assert xs[..j][i] == xs[i];
  }

  lemma {:induction false} NoRepeats(fields: seq<Field>, f: Field)
    requires DistinctKeys(fields)
    ensures multiset(fields)[f] <= 1
  {
    if fields != [] {
      assert fields == [fields[0]] + fields[1..];
      NoRepeats(fields[1..], f);
      if f == fields[0] {
        assert f !in fields[1..];
        assert f !in multiset(fields[1..]);
      }
    }
  }

  /** Sorted entry lists are equal as soon as they denote the same map. */
  lemma {:induction false} NormUnique(a: Json, b: Json)
    requires WellFormed(a) && WellFormed(b) && Meaning(a) == Meaning(b)
    ensures Norm(a) == Norm(b)
    decreases a, 1
  {
    match a {
      case Arr(items) => NormUniqueItems(items, b.items);
      case Obj(fields) =>
        forall i | 0 <= i < |fields| ensures NormFields(fields)[i] in NormFields(b.fields) {
          NormUniqueField(fields, b.fields, i);
        }
        SameEntries(fields, b.fields);
      case _ =>
    }
  }

  /** Objects of one meaning whose normalized entries are contained in each other sort alike. */
  lemma {:induction false} SameEntries(a: seq<Field>, b: seq<Field>)
    requires DistinctKeys(a) && DistinctKeys(b) && MeaningFields(a) == MeaningFields(b)
    requires forall i :: 0 <= i < |a| ==> NormFields(a)[i] in NormFields(b)
    ensures Sort(KeyOf, NormFields(a)) == Sort(KeyOf, NormFields(b))
  {
    var xs, ys := NormFields(a), NormFields(b);
    forall j | 0 <= j < |b| ensures ys[j] in xs {
      var i := MeaningIndex(b, a, j);
      var k :| 0 <= k < |ys| && ys[k] == xs[i];
      assert b[k].key == b[j].key;
    }
    SortDistinct(xs);
    SortDistinct(ys);
    StrictUnique(KeyOf, Sort(KeyOf, xs), Sort(KeyOf, ys));
  }

  lemma {:induction false} MeaningIndex(a: seq<Field>, b: seq<Field>, i: nat) returns (j: nat)
    requires DistinctKeys(a) && DistinctKeys(b) && MeaningFields(a) == MeaningFields(b) && i < |a|
    ensures j < |b| && b[j].key == a[i].key && Meaning(b[j].value) == Meaning(a[i].value)
  {
    MeaningLookup(a, i);
    assert a[i].key in MeaningFields(b);
    j :| 0 <= j < |b| && b[j].key == a[i].key;
    MeaningLookup(b, j);
  }

  lemma {:induction false} NormUniqueField(a: seq<Field>, b: seq<Field>, i: nat)
    requires WellFormed(Obj(a)) && WellFormed(Obj(b)) && MeaningFields(a) == MeaningFields(b) && i < |a|
    ensures NormFields(a)[i] in NormFields(b)
    decreases a, 0
  {
    var j := MeaningIndex(a, b, i);
    NormUnique(a[i].value, b[j].value);
    NormFieldAt(a, i);
    NormFieldAt(b, j);
    assert NormFields(b)[j] == NormFields(a)[i];
  }

  lemma {:induction false} NormUniqueItems(a: seq<Json>, b: seq<Json>)
    requires WellFormed(Arr(a)) && WellFormed(Arr(b)) && MeaningItems(a) == MeaningItems(b)
    ensures NormItems(a) == NormItems(b)
    decreases a, 0
  {
    assert |a| == |MeaningItems(a)| == |b|;
    if a != [] {
      assert MeaningItems(a)[0] == MeaningItems(b)[0];
      assert MeaningItems(a)[1..] == MeaningItems(b)[1..];
      NormUnique(a[0], b[0]);
      assert WellFormed(Arr(a[1..])) && WellFormed(Arr(b[1..]));
      NormUniqueItems(a[1..], b[1..]);
    }
  }

  /** Sorting entries does not change what an object means. */
  lemma {:induction false} NormKeepsMeaning(v: Json)
    requires WellFormed(v)
    ensures Meaning(Norm(v)) == Meaning(v)
    ensures WellFormed(Norm(v))
    decreases v, 1
  {
    match v {
      case Arr(items) => NormKeepsItems(items);
      case Obj(fields) =>
        var xs := NormFields(fields);
        var ys := Sort(KeyOf, xs);
        SortDistinct(xs);
        forall i | 0 <= i < |fields| ensures WellFormed(xs[i].value) && Meaning(xs[i].value) == Meaning(fields[i].value) {
          NormFieldAt(fields, i);
          NormKeepsMeaning(fields[i].value);
        }
        forall j | 0 <= j < |ys| ensures exists i :: 0 <= i < |xs| && xs[i] == ys[j] {
          assert ys[j] in xs;
        }
        SameMap(fields, xs, ys);
      case _ =>
    }
  }

  lemma {:induction false} SameMap(fields: seq<Field>, xs: seq<Field>, ys: seq<Field>)
    requires DistinctKeys(fields) && |xs| == |fields| && DistinctKeys(ys)
    requires forall i :: 0 <= i < |fields| ==> xs[i].key == fields[i].key && Meaning(xs[i].value) == Meaning(fields[i].value)
    requires forall f :: f in ys <==> f in xs
    ensures MeaningFields(ys) == MeaningFields(fields)
  {
    var m, n := MeaningFields(fields), MeaningFields(ys);
    forall k | k in m ensures k in n && n[k] == m[k] {
      var i :| 0 <= i < |fields| && fields[i].key == k;
      EntryFound(fields, xs, ys, i);
    }
    forall k | k in n ensures k in m {
      var j :| 0 <= j < |ys| && ys[j].key == k;
      KeyFound(fields, xs, ys, j);
    }
  }

  lemma {:induction false} EntryFound(fields: seq<Field>, xs: seq<Field>, ys: seq<Field>, i: nat)
    requires DistinctKeys(fields) && DistinctKeys(ys) && i < |fields| == |xs| && xs[i] in ys
    requires xs[i].key == fields[i].key && Meaning(xs[i].value) == Meaning(fields[i].value)
    ensures var k := fields[i].key; k in MeaningFields(fields) && k in MeaningFields(ys) && MeaningFields(fields)[k] == MeaningFields(ys)[k]
  {
    var j :| 0 <= j < |ys| && ys[j] == xs[i];
    SameEntry(fields, i, ys, j);
  }

  lemma {:induction false} KeyFound(fields: seq<Field>, xs: seq<Field>, ys: seq<Field>, j: nat)
    requires |xs| == |fields| && (forall i :: 0 <= i < |fields| ==> xs[i].key == fields[i].key)
    requires j < |ys| && ys[j] in xs
    ensures ys[j].key in MeaningFields(fields)
  {
    var i :| 0 <= i < |xs| && xs[i] == ys[j];
    assert fields[i].key == ys[j].key;
  }

  lemma {:induction false} SameEntry(a: seq<Field>, i: nat, b: seq<Field>, j: nat)
    requires DistinctKeys(a) && DistinctKeys(b) && i < |a| && j < |b|
    requires a[i].key == b[j].key && Meaning(a[i].value) == Meaning(b[j].value)
    ensures var k := a[i].key; k in MeaningFields(a) && k in MeaningFields(b) && MeaningFields(a)[k] == MeaningFields(b)[k]
  {
    MeaningLookup(a, i);
    MeaningLookup(b, j);
  }

  lemma {:induction false} NormKeepsItems(items: seq<Json>)
    requires WellFormed(Arr(items))
    ensures MeaningItems(NormItems(items)) == MeaningItems(items)
    ensures WellFormed(Arr(NormItems(items)))
    decreases items, 0
  {
    if items != [] {
      NormKeepsMeaning(items[0]);
      assert WellFormed(Arr(items[1..]));
      NormKeepsItems(items[1..]);
      assert NormItems(items)[1..] == NormItems(items[1..]);
    }
  }

  /**
    Canonical text decides equality of JSON values with objects read as maps:
    key insertion order never matters, and nothing else is ever confused.
   */
  lemma {:induction false} CanonicalTextDecidesValue(a: Json, b: Json)
    requires WellFormed(a) && WellFormed(b)
    ensures CanonicalJson(a) == CanonicalJson(b) <==> Meaning(a) == Meaning(b)
  {
    if CanonicalJson(a) == CanonicalJson(b) {
      RenderInjective(Norm(a), Norm(b));
      NormKeepsMeaning(a);
      NormKeepsMeaning(b);
    }
    if Meaning(a) == Meaning(b) {
      NormUnique(a, b);
    }
  }

  /** A second sorting of the entries, at every level, changes nothing. */
  lemma {:induction false} NormIdempotent(v: Json)
    ensures Norm(Norm(v)) == Norm(v)
    decreases v, 1
  {
    match v {
      case Arr(items) => NormItemsTwice(items);
      case Obj(fields) =>
        SortNormFields(fields);
        var ys := Sort(KeyOf, fields);
        NormFieldsTwice(fields);
        SortNormFields(NormFields(fields));
        SortSorted(KeyOf, NormFields(fields));
        SortFixpoint(KeyOf, Sort(KeyOf, NormFields(fields)));
      case _ =>
    }
  }

  lemma {:induction false} NormItemsTwice(items: seq<Json>)
    ensures NormItems(NormItems(items)) == NormItems(items)
    decreases items, 0
  {
    if items != [] {
      NormIdempotent(items[0]);
      NormItemsTwice(items[1..]);
      assert NormItems(items)[1..] == NormItems(items[1..]);
    }
  }

  lemma {:induction false} NormFieldsTwice(fields: seq<Field>)
    ensures NormFields(NormFields(fields)) == NormFields(fields)
    decreases fields, 0
  {
    if fields != [] {
      NormIdempotent(fields[0].value);
      NormFieldsTwice(fields[1..]);
      assert NormFields(fields)[1..] == NormFields(fields[1..]);
    }
  }

  /** Sorting moves entries by their keys, which normalizing their values leaves alone. */
  lemma {:induction false} SortNormFields(fields: seq<Field>)
    ensures Sort(KeyOf, NormFields(fields)) == NormFields(Sort(KeyOf, fields))
  {
    if fields != [] {
      assert NormFields(fields)[1..] == NormFields(fields[1..]);
      SortNormFields(fields[1..]);
      InsertNormFields(fields[0], Sort(KeyOf, fields[1..]));
    }
  }

  lemma {:induction false} InsertNormFields(f: Field, fields: seq<Field>)
    ensures Insert(KeyOf, Field(f.key, Norm(f.value)), NormFields(fields)) == NormFields(Insert(KeyOf, f, fields))
  {
    if fields != [] {
      assert NormFields(fields)[1..] == NormFields(fields[1..]);
      if Less(fields[0].key, f.key) {
        InsertNormFields(f, fields[1..]);
        assert ([fields[0]] + Insert(KeyOf, f, fields[1..]))[1..] == Insert(KeyOf, f, fields[1..]);
      } else {
        assert ([f] + fields)[1..] == fields;
      }
    } else {
      assert [f][1..] == [];
    }
  }
}
