/**
  Moving large proofs out of a signed text into attachments, and the proof that plain
  substring replacement puts them back, byte for byte, in whatever order it is done.
 */
module Splice {
  import opened Options
  import opened Json
  import opened Bytes

  const QUOTE: char := '"'

  /** The field whose values are moved out. */
  const MARKER: string := "\"longfellow_proof\":\""

  const HOLE_START: string := "@@BINPROOF:"
  const HOLE_END: string := "@@"

  /** The runtime's base64; decoding fails on text outside the alphabet. */
  datatype Base64 = Base64(decode: string -> Option<seq<byte>>, encode: seq<byte> -> string)

  // ----- substrings

  predicate OccursAt(text: string, pat: string, i: nat) {
    i + |pat| <= |text| && text[i..i + |pat|] == pat
  }

  predicate Occurs(text: string, pat: string) {
    exists i :: 0 <= i <= |text| && OccursAt(text, pat, i)
  }

  /** `indexOf` from a position. */
  function IndexOf(text: string, pat: string, from: nat): (r: Option<nat>)
    ensures r.Some? ==> from <= r.value && OccursAt(text, pat, r.value)
    decreases |text| + 1 - from
  {
    if from > |text| then None
    else if OccursAt(text, pat, from) then Some(from)
    else IndexOf(text, pat, from + 1)
  }

  lemma {:induction false} IndexOfIsFirst(text: string, pat: string, from: nat, i: nat)
    requires from <= i && OccursAt(text, pat, i)
    ensures IndexOf(text, pat, from).Some? && IndexOf(text, pat, from).value <= i
    decreases i - from
  {
    if from < i && !OccursAt(text, pat, from) {
      IndexOfIsFirst(text, pat, from + 1, i);
    }
  }

  /** Every occurrence replaced, from the left, without overlaps. */
  function ReplaceAll(text: string, pat: string, sub: string): string
    requires pat != ""
  {
    if text == "" then ""
    else if pat <= text then sub + ReplaceAll(text[|pat|..], pat, sub)
    else [text[0]] + ReplaceAll(text[1..], pat, sub)
  }

  lemma {:induction false} PrefixAround(a: string, b: string, pat: string)
    requires QUOTE !in pat
    ensures pat <= a + [QUOTE] + b <==> pat <= a
  {
    var text := a + [QUOTE] + b;
    if |pat| <= |a| {
      assert text[..|pat|] == a[..|pat|];
    } else {
      assert pat[|a|] in pat && text[|a|] == QUOTE;
      assert pat[|a|] != text[|a|];
    }
  }

  /** Replacement works on both sides of a quote apart, when the pattern has none. */
  lemma {:induction false} ReplaceAround(a: string, b: string, pat: string, sub: string)
    requires pat != "" && QUOTE !in pat
    ensures ReplaceAll(a + [QUOTE] + b, pat, sub) == ReplaceAll(a, pat, sub) + [QUOTE] + ReplaceAll(b, pat, sub)
    decreases |a|
  {
    var text := a + [QUOTE] + b;
    PrefixAround(a, b, pat);
    if a == "" {
      assert text[1..] == b;
    } else if pat <= a {
      assert text[|pat|..] == a[|pat|..] + [QUOTE] + b;
      ReplaceAround(a[|pat|..], b, pat, sub);
    } else {
      assert text[1..] == a[1..] + [QUOTE] + b;
      ReplaceAround(a[1..], b, pat, sub);
    }
  }

  lemma {:induction false} OccursTail(text: string, pat: string)
    requires text != "" && !Occurs(text, pat)
    ensures !Occurs(text[1..], pat)
  {
    if i :| 0 <= i <= |text[1..]| && OccursAt(text[1..], pat, i) {
      assert OccursAt(text, pat, i + 1);
    }
  }

  lemma {:induction false} ReplaceAbsent(text: string, pat: string, sub: string)
    requires pat != "" && !Occurs(text, pat)
    ensures ReplaceAll(text, pat, sub) == text
    decreases |text|
  {
    if text != "" {
      assert pat <= text ==> OccursAt(text, pat, 0);
      OccursTail(text, pat);
      ReplaceAbsent(text[1..], pat, sub);
    }
  }

  // ----- pieces of a spliced text

  /** Text kept, or a value moved out under a key. */
  datatype Piece = Plain(text: string) | Hole(key: string, value: string)

  function Placeholder(key: string): string {
    HOLE_START + key + HOLE_END
  }

  /** The text with the holes of `filled` showing their values, the others their placeholders. */
  function Show(pieces: seq<Piece>, filled: set<string>): string {
    if pieces == [] then ""
    else
      (match pieces[0]
       case Plain(text) => text
       case Hole(key, value) => if key in filled then value else Placeholder(key))
      + Show(pieces[1..], filled)
  }

  function Keys(pieces: seq<Piece>): set<string> {
    if pieces == [] then {}
    else (if pieces[0].Hole? then {pieces[0].key} else {}) + Keys(pieces[1..])
  }

  function Key(inputIndex: nat, occurrence: nat): string {
    Decimal(inputIndex) + ['_'] + Decimal(occurrence)
  }

  /** The scanning loop from `cursor` on; `None` where the code throws. */
  function Scan(text: string, cursor: nat, inputIndex: nat, occurrence: nat, b: Base64): Option<seq<Piece>>
    decreases |text| - cursor
  {
    var start := IndexOf(text, MARKER, cursor);
    if cursor > |text| then None
    else if start.None? then Some([Plain(text[cursor..])])
    else
      var valueStart := start.value + |MARKER|;
      var valueEnd := IndexOf(text, [QUOTE], valueStart);
      if valueEnd.None? then None
      else
        var value := text[valueStart..valueEnd.value];
        if b.decode(value).None? then None
        else
          var rest := Scan(text, valueEnd.value, inputIndex, occurrence + 1, b);
          if rest.None? then None
          else Some([Plain(text[cursor..valueStart]), Hole(Key(inputIndex, occurrence), value)] + rest.value)
  }

  // ----- keys and placeholders

  predicate NoBar(s: string) {
    forall i :: 0 <= i < |s| ==> s[i] != '_'
  }

  lemma {:induction false} SplitUnique(a: string, x: string, b: string, y: string)
    requires NoBar(a) && NoBar(b) && a + ['_'] + x == b + ['_'] + y
    ensures a == b && x == y
    decreases |a|
  {
    var k, l := a + ['_'] + x, b + ['_'] + y;
    assert k[0] == l[0];
    if a != "" && b != "" {
      assert k[1..] == a[1..] + ['_'] + x && l[1..] == b[1..] + ['_'] + y;
      SplitUnique(a[1..], x, b[1..], y);
    } else {
      assert a == "" ==> k[1..] == x;
      assert b == "" ==> l[1..] == y;
    }
  }

  lemma {:induction false} KeyInjective(i: nat, m: nat, j: nat, n: nat)
    requires Key(i, m) == Key(j, n)
    ensures i == j && m == n
  {
    SplitUnique(Decimal(i), Decimal(m), Decimal(j), Decimal(n));
    DecimalInjective(i, j);
    DecimalInjective(m, n);
  }

  predicate NoAt(s: string) {
    forall i :: 0 <= i < |s| ==> s[i] != '@'
  }

  lemma {:induction false} KeyHasNoAt(inputIndex: nat, occurrence: nat)
    ensures NoAt(Key(inputIndex, occurrence)) && QUOTE !in Key(inputIndex, occurrence)
  {
  }

  /** Where the characters of a placeholder stand. */
  lemma {:induction false} PlaceholderChars(key: string)
    ensures var p := Placeholder(key);
            && |p| == 13 + |key| && p[0] == '@' && p[1] == '@' && p[2] == 'B'
            && (forall i :: 2 <= i < 11 ==> p[i] != '@' && p[i] != QUOTE)
            && (forall i :: 0 <= i < |key| ==> p[11 + i] == key[i])
            && p[11 + |key|] == '@' && p[12 + |key|] == '@'
  {
  }

  /** A placeholder stands in another only if it is the same. */
  lemma {:induction false} PlaceholdersApart(k: string, key: string)
    requires NoAt(k) && NoAt(key) && k != key
    ensures !Occurs(Placeholder(k), Placeholder(key))
  {
    var p, q := Placeholder(k), Placeholder(key);
    PlaceholderChars(k);
    PlaceholderChars(key);
    forall i: nat ensures !OccursAt(p, q, i) {
      if i == 0 {
        SamePrefix(k, key);
      } else if i + |q| <= |p| {
        assert p[i..i + |q|][0] == p[i] && p[i..i + |q|][1] == p[i + 1] && p[i..i + |q|][2] == p[i + 2];
      }
    }
  }

  lemma {:induction false} SamePrefix(k: string, key: string)
    requires NoAt(k) && NoAt(key) && k != key
    ensures !OccursAt(Placeholder(k), Placeholder(key), 0)
  {
    var p, q := Placeholder(k), Placeholder(key);
    PlaceholderChars(k);
    PlaceholderChars(key);
    if |q| <= |p| {
      if |key| < |k| {
        assert p[11 + |key|] == k[|key|] && q[11 + |key|] == '@';
        assert p[0..|q|][11 + |key|] == p[11 + |key|];
      } else {
        var i :| 0 <= i < |k| && k[i] != key[i];
        assert p[11 + i] == k[i] && q[11 + i] == key[i];
        assert p[0..|q|][11 + i] == p[11 + i];
      }
    }
  }

  // ----- replacing undoes moving out

  /** Kept text and values alternate, with a quote on each side of every value. */
  predicate Guarded(pieces: seq<Piece>) {
    pieces != [] && pieces[0].Plain? &&
    (|pieces| == 1 ||
     (|pieces| >= 3 && pieces[1].Hole? && pieces[0].text != "" && pieces[0].text[|pieces[0].text| - 1] == QUOTE
      && pieces[2].Plain? && pieces[2].text != "" && pieces[2].text[0] == QUOTE && Guarded(pieces[2..])))
  }

  /** The placeholder of `key` is nowhere in the text; a hole with that key holds `value`. */
  predicate Fits(pieces: seq<Piece>, key: string, value: string) {
    forall i :: 0 <= i < |pieces| ==>
      match pieces[i]
      case Plain(text) => !Occurs(text, Placeholder(key))
      case Hole(k, v) => !Occurs(v, Placeholder(key)) && NoAt(k) && (k == key ==> v == value)
  }

  /** What a hole shows. */
  function Shown(key: string, value: string, filled: set<string>): string {
    if key in filled then value else Placeholder(key)
  }

  /** Replacing the placeholder of `key` by its value fills the holes of that key and no others. */
  lemma {:induction false} ReplaceFills(pieces: seq<Piece>, filled: set<string>, key: string, value: string)
    requires Guarded(pieces) && Fits(pieces, key, value) && NoAt(key) && QUOTE !in key
    ensures ReplaceAll(Show(pieces, filled), Placeholder(key), value) == Show(pieces, filled + {key})
    decreases |pieces|
  {
    var pat := Placeholder(key);
    PlaceholderChars(key);
    if |pieces| == 1 {
      ShowLast(pieces, filled);
      ShowLast(pieces, filled + {key});
      ReplaceAbsent(pieces[0].text, pat, value);
    } else {
      var a, rest := pieces[0].text[..|pieces[0].text| - 1], pieces[2..];
      var k, v := pieces[1].key, pieces[1].value;
      var tail, full := Show(rest, filled), Show(rest, filled + {key});
      ReplaceFills(rest, filled, key, value);
      ShowFirst(pieces, filled);
      ShowFirst(pieces, filled + {key});
      HoleFills(k, v, filled, key, value);
      PlainFills(pieces[0].text, pat, value);
      assert QUOTE !in pat by { QuoteFree(key); }
      ReplaceParts(a, Shown(k, v, filled), tail, pat, value);
    }
  }

  lemma {:induction false} QuoteFree(key: string)
    requires QUOTE !in key
    ensures QUOTE !in Placeholder(key)
  {
    PlaceholderChars(key);
    var p := Placeholder(key);
    forall i | 0 <= i < |p| ensures p[i] != QUOTE {
      if 11 <= i < 11 + |key| {
        assert p[i] == key[i - 11];
      }
    }
  }

  lemma {:induction false} ShowLast(pieces: seq<Piece>, filled: set<string>)
    requires |pieces| == 1 && pieces[0].Plain?
    ensures Show(pieces, filled) == pieces[0].text
  {
    assert pieces[1..] == [];
  }

  lemma {:induction false} ShowFirst(pieces: seq<Piece>, filled: set<string>)
    requires Guarded(pieces) && |pieces| >= 3
    ensures var a := pieces[0].text[..|pieces[0].text| - 1];
            Show(pieces, filled) == a + [QUOTE] + (Shown(pieces[1].key, pieces[1].value, filled) + Show(pieces[2..], filled))
    ensures Show(pieces[2..], filled) != "" && Show(pieces[2..], filled)[0] == QUOTE
  {
    assert pieces[1..][1..] == pieces[2..] && pieces[1..][0] == pieces[1];
    var a := pieces[0].text[..|pieces[0].text| - 1];
    assert pieces[0].text == a + [QUOTE];
  }

  lemma {:induction false} HoleFills(k: string, v: string, filled: set<string>, key: string, value: string)
    requires NoAt(k) && NoAt(key) && !Occurs(v, Placeholder(key)) && (k == key ==> v == value)
    ensures ReplaceAll(Shown(k, v, filled), Placeholder(key), value) == Shown(k, v, filled + {key})
  {
    var pat := Placeholder(key);
    if k in filled {
      ReplaceAbsent(v, pat, value);
    } else if k == key {
      assert pat[|pat|..] == "";
    } else {
      PlaceholdersApart(k, key);
      ReplaceAbsent(Placeholder(k), pat, value);
    }
  }

  lemma {:induction false} PlainFills(text: string, pat: string, sub: string)
    requires text != "" && pat != "" && !Occurs(text, pat)
    ensures ReplaceAll(text[..|text| - 1], pat, sub) == text[..|text| - 1]
  {
    var a := text[..|text| - 1];
    forall i: nat ensures !OccursAt(a, pat, i) {
      if i + |pat| <= |a| {
        assert a[i..i + |pat|] == text[i..i + |pat|];
        assert !OccursAt(text, pat, i);
      }
    }
    ReplaceAbsent(a, pat, sub);
  }

  /** Replacement on text, quote, hole and a tail that begins with a quote. */
  lemma {:induction false} ReplaceParts(a: string, hole: string, tail: string, pat: string, sub: string)
    requires pat != "" && QUOTE !in pat && tail != "" && tail[0] == QUOTE
    ensures ReplaceAll(a + [QUOTE] + (hole + tail), pat, sub) ==
            ReplaceAll(a, pat, sub) + [QUOTE] + (ReplaceAll(hole, pat, sub) + ReplaceAll(tail, pat, sub))
  {
    var b := tail[1..];
    assert tail == "" + [QUOTE] + b && hole + tail == hole + [QUOTE] + b;
    ReplaceAround(a, hole + tail, pat, sub);
    ReplaceAround(hole, b, pat, sub);
    ReplaceAround("", b, pat, sub);
  }

  // ----- what the scan finds

  /** `part` is cut out of `text`. */
  predicate PartOf(part: string, text: string) {
    exists i, j :: 0 <= i <= j <= |text| && part == text[i..j]
  }

  lemma {:induction false} SliceOfSlice<T>(s: seq<T>, i: nat, j: nat, k: nat, l: nat)
    requires i <= j <= |s| && k <= l <= j - i
    ensures s[i..j][k..l] == s[i + k..i + l]
  {
    var a, b := s[i..j][k..l], s[i + k..i + l];
    forall m | 0 <= m < l - k ensures a[m] == b[m] {
      assert s[i..j][k + m] == s[i + (k + m)];
    }
  }

  lemma {:induction false} PartHasNone(part: string, text: string, pat: string)
    requires PartOf(part, text) && !Occurs(text, pat)
    ensures !Occurs(part, pat)
  {
    var i, j :| 0 <= i <= j <= |text| && part == text[i..j];
    if Occurs(part, pat) {
      var k: nat :| OccursAt(part, pat, k);
      PartOccurrence(text, i, j, pat, k);
    }
  }

  lemma {:induction false} PartOccurrence(text: string, i: nat, j: nat, pat: string, k: nat)
    requires i <= j <= |text| && OccursAt(text[i..j], pat, k)
    ensures Occurs(text, pat)
  {
    assert OccursAt(text, pat, i + k) by { SliceOfSlice(text, i, j, k, k + |pat|); }
  }

  /** A hole found by the scan: its key, its value, and where it came from. */
  ghost predicate Found(p: Piece, text: string, inputIndex: nat, occurrence: nat, b: Base64) {
    match p
    case Plain(t) => PartOf(t, text)
    case Hole(k, v) => PartOf(v, text) && b.decode(v).Some? && exists o: nat :: o >= occurrence && k == Key(inputIndex, o)
  }

  ghost predicate AllFound(pieces: seq<Piece>, text: string, inputIndex: nat, occurrence: nat, b: Base64) {
    forall i :: 0 <= i < |pieces| ==> Found(pieces[i], text, inputIndex, occurrence, b)
  }

  /** Every hole has its own key. */
  predicate KeysApart(pieces: seq<Piece>) {
    forall i, j :: 0 <= i < j < |pieces| && pieces[i].Hole? && pieces[j].Hole? ==> pieces[i].key != pieces[j].key
  }

  /** The text behind the pieces, with every hole showing its value. */
  function Original(pieces: seq<Piece>): string {
    if pieces == [] then ""
    else (match pieces[0] case Plain(text) => text case Hole(_, value) => value) + Original(pieces[1..])
  }

  predicate AtQuote(text: string, cursor: nat) {
    cursor == 0 || (cursor < |text| && text[cursor] == QUOTE)
  }

  /** One turn of the scanning loop. */
  lemma {:induction false} ScanTurn(text: string, cursor: nat, inputIndex: nat, occurrence: nat, b: Base64)
      returns (valueStart: nat, valueEnd: nat, rest: seq<Piece>)
    requires cursor <= |text| && IndexOf(text, MARKER, cursor).Some?
    requires Scan(text, cursor, inputIndex, occurrence, b).Some?
    ensures cursor + |MARKER| <= valueStart <= valueEnd < |text| && text[valueStart - 1] == QUOTE && text[valueEnd] == QUOTE
    ensures b.decode(text[valueStart..valueEnd]).Some?
    ensures Scan(text, valueEnd, inputIndex, occurrence + 1, b) == Some(rest)
    ensures Scan(text, cursor, inputIndex, occurrence, b).value ==
            [Plain(text[cursor..valueStart]), Hole(Key(inputIndex, occurrence), text[valueStart..valueEnd])] + rest
  {
    var start := IndexOf(text, MARKER, cursor).value;
    valueStart := start + |MARKER|;
    valueEnd := IndexOf(text, [QUOTE], valueStart).value;
    rest := Scan(text, valueEnd, inputIndex, occurrence + 1, b).value;
    assert text[start..valueStart][|MARKER| - 1] == MARKER[|MARKER| - 1];
    assert text[valueEnd..valueEnd + 1][0] == QUOTE;
  }

  lemma {:induction false} ScanLast(text: string, cursor: nat, inputIndex: nat, occurrence: nat, b: Base64)
    requires cursor <= |text| && IndexOf(text, MARKER, cursor).None?
    ensures Scan(text, cursor, inputIndex, occurrence, b) == Some([Plain(text[cursor..])])
    ensures Guarded([Plain(text[cursor..])]) && Original([Plain(text[cursor..])]) == text[cursor..]
  {
    var pieces := [Plain(text[cursor..])];
    assert pieces[1..] == [];
  }

  ghost predicate GuardsFrom(pieces: seq<Piece>, text: string, cursor: nat)
    requires cursor <= |text|
  {
    && Guarded(pieces) && Original(pieces) == text[cursor..]
    && (cursor > 0 ==> pieces[0].text != "" && pieces[0].text[0] == QUOTE)
  }

  lemma {:induction false} GuardTurn(text: string, cursor: nat, valueStart: nat, valueEnd: nat, key: string, rest: seq<Piece>)
    requires cursor < valueStart <= valueEnd < |text| && text[valueStart - 1] == QUOTE && text[valueEnd] == QUOTE
    requires AtQuote(text, cursor) && GuardsFrom(rest, text, valueEnd)
    ensures GuardsFrom([Plain(text[cursor..valueStart]), Hole(key, text[valueStart..valueEnd])] + rest, text, cursor)
  {
    var p, v := text[cursor..valueStart], text[valueStart..valueEnd];
    assert p[|p| - 1] == text[valueStart - 1] && p[0] == text[cursor];
    GuardFirst(p, key, v, rest);
    assert text[cursor..] == p + (v + text[valueEnd..]);
  }

  lemma {:induction false} ScanGuards(text: string, cursor: nat, inputIndex: nat, occurrence: nat, b: Base64)
    requires cursor <= |text| && AtQuote(text, cursor) && Scan(text, cursor, inputIndex, occurrence, b).Some?
    ensures GuardsFrom(Scan(text, cursor, inputIndex, occurrence, b).value, text, cursor)
    decreases |text| - cursor
  {
    if IndexOf(text, MARKER, cursor).None? {
      ScanLast(text, cursor, inputIndex, occurrence, b);
    } else {
      var valueStart, valueEnd, rest := ScanTurn(text, cursor, inputIndex, occurrence, b);
      ScanGuards(text, valueEnd, inputIndex, occurrence + 1, b);
      GuardTurn(text, cursor, valueStart, valueEnd, Key(inputIndex, occurrence), rest);
    }
  }

  lemma {:induction false} GuardFirst(p: string, key: string, v: string, rest: seq<Piece>)
    requires p != "" && p[|p| - 1] == QUOTE && Guarded(rest) && rest[0].text != "" && rest[0].text[0] == QUOTE
    ensures var all := [Plain(p), Hole(key, v)] + rest;
            Guarded(all) && Original(all) == p + (v + Original(rest))
  {
    var all := [Plain(p), Hole(key, v)] + rest;
    assert all[2..] == rest && all[1..][1..] == rest && all[1..][0] == Hole(key, v);
  }

  lemma {:induction false} ScanFinds(text: string, cursor: nat, inputIndex: nat, occurrence: nat, b: Base64)
    requires cursor <= |text| && Scan(text, cursor, inputIndex, occurrence, b).Some?
    ensures var pieces := Scan(text, cursor, inputIndex, occurrence, b).value;
            AllFound(pieces, text, inputIndex, occurrence, b) && KeysApart(pieces)
    decreases |text| - cursor
  {
    var pieces := Scan(text, cursor, inputIndex, occurrence, b).value;
    if IndexOf(text, MARKER, cursor).None? {
      assert PartOf(text[cursor..|text|], text);
    } else {
      var valueStart, valueEnd, rest := ScanTurn(text, cursor, inputIndex, occurrence, b);
      ScanFinds(text, valueEnd, inputIndex, occurrence + 1, b);
      FoundFirst(text, cursor, valueStart, valueEnd, inputIndex, occurrence, rest, b);
    }
  }

  lemma {:induction false} FoundFirst(text: string, cursor: nat, valueStart: nat, valueEnd: nat, inputIndex: nat,
                                      occurrence: nat, rest: seq<Piece>, b: Base64)
    requires cursor <= valueStart <= valueEnd <= |text| && b.decode(text[valueStart..valueEnd]).Some?
    requires AllFound(rest, text, inputIndex, occurrence + 1, b) && KeysApart(rest)
    ensures var all := [Plain(text[cursor..valueStart]), Hole(Key(inputIndex, occurrence), text[valueStart..valueEnd])] + rest;
            AllFound(all, text, inputIndex, occurrence, b) && KeysApart(all)
  {
    var all := [Plain(text[cursor..valueStart]), Hole(Key(inputIndex, occurrence), text[valueStart..valueEnd])] + rest;
    assert PartOf(text[cursor..valueStart], text) && PartOf(text[valueStart..valueEnd], text);
    forall i | 2 <= i < |all| ensures Found(all[i], text, inputIndex, occurrence, b)
                                  && (all[i].Hole? ==> all[i].key != Key(inputIndex, occurrence)) {
      assert all[i] == rest[i - 2] && Found(rest[i - 2], text, inputIndex, occurrence + 1, b);
      if all[i].Hole? {
        var o: nat :| o >= occurrence + 1 && all[i].key == Key(inputIndex, o);
        if all[i].key == Key(inputIndex, occurrence) {
          KeyInjective(inputIndex, o, inputIndex, occurrence);
        }
      }
    }
    forall i, j | 2 <= i < j < |all| && all[i].Hole? && all[j].Hole? ensures all[i].key != all[j].key {
      assert all[i] == rest[i - 2] && all[j] == rest[j - 2];
    }
  }

  // ----- the payload

  /** An input with a text to scan, or one passed on as it is. */
  datatype Input = Proofs(inputIndex: nat, text: string) | Other

  function PiecesOf(input: Input, b: Base64): Option<seq<Piece>> {
    if input.Other? then Some([]) else Scan(input.text, 0, input.inputIndex, 0, b)
  }

  function Spliced(input: Input, b: Base64): Input
    requires PiecesOf(input, b).Some?
  {
    if input.Other? then input else Proofs(input.inputIndex, Show(PiecesOf(input, b).value, {}))
  }

  /** A hole's bytes enter the table under its key. */
  function Put(p: Piece, b: Base64, table: map<string, seq<byte>>): map<string, seq<byte>> {
    if p.Hole? && b.decode(p.value).Some? then table[p.key := b.decode(p.value).value] else table
  }

  /** The attachments of the pieces, put into a table. */
  function Attach(pieces: seq<Piece>, b: Base64, table: map<string, seq<byte>>): map<string, seq<byte>> {
    if pieces == [] then table else Attach(pieces[1..], b, Put(pieces[0], b, table))
  }

  function AttachAll(inputs: seq<Input>, b: Base64): map<string, seq<byte>>
    requires forall i :: 0 <= i < |inputs| ==> PiecesOf(inputs[i], b).Some?
  {
    if inputs == [] then map[]
    else Attach(PiecesOf(inputs[|inputs| - 1], b).value, b, AttachAll(inputs[..|inputs| - 1], b))
  }

  /** Where the scanning loop stands: what it has done, and what that says about the whole scan. */
  ghost predicate Scanned(whole: Option<seq<Piece>>, left: Option<seq<Piece>>, b: Base64, table: map<string, seq<byte>>,
                          done: seq<Piece>, shown: string, proofs: map<string, seq<byte>>)
  {
    && shown == Show(done, {}) && proofs == Attach(done, b, table)
    && whole == if left.None? then None else Some(done + left.value)
  }

  lemma {:induction false} ScannedTurn(whole: Option<seq<Piece>>, left: Option<seq<Piece>>, rest: Option<seq<Piece>>, b: Base64,
                                       table: map<string, seq<byte>>, done: seq<Piece>, shown: string,
                                       proofs: map<string, seq<byte>>, kept: string, key: string, value: string)
    requires Scanned(whole, left, b, table, done, shown, proofs) && b.decode(value).Some?
    requires left == if rest.None? then None else Some([Plain(kept), Hole(key, value)] + rest.value)
    ensures Scanned(whole, rest, b, table, done + [Plain(kept), Hole(key, value)], shown + (kept + Placeholder(key)),
                    proofs[key := b.decode(value).value])
  {
    var more := [Plain(kept), Hole(key, value)];
    ShowMore(done, more, b, table);
    ShowPair(kept, key, value, b, proofs);
    if rest.Some? {
      assert done + (more + rest.value) == (done + more) + rest.value;
    }
  }

  lemma {:induction false} ScannedAll(whole: Option<seq<Piece>>, b: Base64, table: map<string, seq<byte>>, done: seq<Piece>,
                                      shown: string, proofs: map<string, seq<byte>>, kept: string)
    requires Scanned(whole, Some([Plain(kept)]), b, table, done, shown, proofs)
    ensures whole.Some? && shown + kept == Show(whole.value, {}) && proofs == Attach(whole.value, b, table)
  {
    ShowMore(done, [Plain(kept)], b, table);
    ShowOne(Plain(kept), b, proofs);
  }

  lemma {:induction false} ScanStarts(whole: Option<seq<Piece>>, b: Base64, table: map<string, seq<byte>>)
    ensures Scanned(whole, whole, b, table, [], "", table)
  {
    assert whole.Some? ==> [] + whole.value == whole.value;
  }

  /** What is left of a scan, by its next marker. */
  lemma {:induction false} ScanNext(text: string, cursor: nat, inputIndex: nat, occurrence: nat, b: Base64, start: nat)
    requires cursor <= |text| && IndexOf(text, MARKER, cursor) == Some(start)
    ensures start + |MARKER| <= |text|
    ensures var valueStart := start + |MARKER|;
            var end := IndexOf(text, [QUOTE], valueStart);
            Scan(text, cursor, inputIndex, occurrence, b) ==
            if end.None? || b.decode(text[valueStart..end.value]).None? then None
            else
              var rest := Scan(text, end.value, inputIndex, occurrence + 1, b);
              if rest.None? then None
              else Some([Plain(text[cursor..valueStart]), Hole(Key(inputIndex, occurrence), text[valueStart..end.value])] + rest.value)
  {
  }

  /** `scan` is the scan of one text; stated so that it is used only where `Scan` is mentioned. */
  ghost predicate IsScan(scan: (nat, nat) -> Option<seq<Piece>>, text: string, inputIndex: nat, b: Base64) {
    forall cursor: nat, occurrence: nat {:trigger Scan(text, cursor, inputIndex, occurrence, b)} ::
      scan(cursor, occurrence) == Scan(text, cursor, inputIndex, occurrence, b)
  }

  /** A turn of the loop with a marker found keeps its account of the whole scan. */
  lemma {:induction false} TurnKeeps(scan: (nat, nat) -> Option<seq<Piece>>, text: string, cursor: nat, inputIndex: nat,
                                     occurrence: nat, b: Base64, start: nat, end: nat, table: map<string, seq<byte>>,
                                     done: seq<Piece>, shown: string, proofs: map<string, seq<byte>>)
    requires IsScan(scan, text, inputIndex, b)
    requires cursor <= |text| && IndexOf(text, MARKER, cursor) == Some(start)
    requires start + |MARKER| <= |text| && IndexOf(text, [QUOTE], start + |MARKER|) == Some(end)
    requires b.decode(text[start + |MARKER|..end]).Some?
    requires Scanned(scan(0, 0), scan(cursor, occurrence), b, table, done, shown, proofs)
    ensures var key, value, kept := Key(inputIndex, occurrence), text[start + |MARKER|..end], text[cursor..start + |MARKER|];
            Scanned(scan(0, 0), scan(end, occurrence + 1), b, table, done + [Plain(kept), Hole(key, value)],
                    shown + (kept + Placeholder(key)), proofs[key := b.decode(value).value])
  {
    ScanNext(text, cursor, inputIndex, occurrence, b, start);
    assert scan(end, occurrence + 1) == Scan(text, end, inputIndex, occurrence + 1, b);
    ScannedTurn(scan(0, 0), scan(cursor, occurrence), scan(end, occurrence + 1),
                b, table, done, shown, proofs, text[cursor..start + |MARKER|], Key(inputIndex, occurrence),
                text[start + |MARKER|..end]);
  }

  lemma {:induction false} TurnThrows(scan: (nat, nat) -> Option<seq<Piece>>, text: string, cursor: nat, inputIndex: nat,
                                      occurrence: nat, b: Base64, start: nat, table: map<string, seq<byte>>, done: seq<Piece>,
                                      shown: string, proofs: map<string, seq<byte>>)
    requires IsScan(scan, text, inputIndex, b)
    requires cursor <= |text| && IndexOf(text, MARKER, cursor) == Some(start) && start + |MARKER| <= |text|
    requires var end := IndexOf(text, [QUOTE], start + |MARKER|);
             end.None? || b.decode(text[start + |MARKER|..end.value]).None?
    requires Scanned(scan(0, 0), scan(cursor, occurrence), b, table, done, shown, proofs)
    ensures scan(0, 0).None?
  {
    ScanNext(text, cursor, inputIndex, occurrence, b, start);
  }

  lemma {:induction false} TurnEnds(scan: (nat, nat) -> Option<seq<Piece>>, text: string, cursor: nat, inputIndex: nat,
                                    occurrence: nat, b: Base64, table: map<string, seq<byte>>, done: seq<Piece>, shown: string,
                                    proofs: map<string, seq<byte>>)
    requires IsScan(scan, text, inputIndex, b)
    requires cursor <= |text| && IndexOf(text, MARKER, cursor).None?
    requires Scanned(scan(0, 0), scan(cursor, occurrence), b, table, done, shown, proofs)
    ensures var whole := scan(0, 0);
            whole.Some? && shown + text[cursor..] == Show(whole.value, {}) && proofs == Attach(whole.value, b, table)
  {
    ScanLast(text, cursor, inputIndex, occurrence, b);
    ScannedAll(scan(0, 0), b, table, done, shown, proofs, text[cursor..]);
  }

  ghost function ScanFrom(text: string, inputIndex: nat, b: Base64): (nat, nat) -> Option<seq<Piece>> {
    (cursor: nat, occurrence: nat) => Scan(text, cursor, inputIndex, occurrence, b)
  }

  /** The loop over one text. */
  method SpliceText(text: string, inputIndex: nat, b: Base64, table: map<string, seq<byte>>)
      returns (out: Option<string>, proofs: map<string, seq<byte>>)
    ensures var pieces := Scan(text, 0, inputIndex, 0, b);
            if pieces.None? then out.None?
            else out == Some(Show(pieces.value, {})) && proofs == Attach(pieces.value, b, table)
  {
    out, proofs := SpliceFrom(text, inputIndex, b, table, ScanFrom(text, inputIndex, b));
  }

  method SpliceFrom(text: string, inputIndex: nat, b: Base64, table: map<string, seq<byte>>,
                    ghost scan: (nat, nat) -> Option<seq<Piece>>)
      returns (out: Option<string>, proofs: map<string, seq<byte>>)
    requires IsScan(scan, text, inputIndex, b)
    ensures var whole := scan(0, 0);
            if whole.None? then out.None?
            else out == Some(Show(whole.value, {})) && proofs == Attach(whole.value, b, table)
  {
    var shown := "";
    var cursor: nat, occurrence: nat := 0, 0;
    proofs := table;
    ghost var done: seq<Piece> := [];
    ScanStarts(scan(0, 0), b, table);
    while true
      invariant cursor <= |text|
      invariant Scanned(scan(0, 0), scan(cursor, occurrence), b, table, done, shown, proofs)
      decreases |text| - cursor
    {
      var start := IndexOf(text, MARKER, cursor);
      if start.None? {
        TurnEnds(scan, text, cursor, inputIndex, occurrence, b, table, done, shown, proofs);
        return Some(shown + text[cursor..]), proofs;
      }
      var valueStart := start.value + |MARKER|;
      var valueEnd := IndexOf(text, [QUOTE], valueStart);
      if valueEnd.None? || b.decode(text[valueStart..valueEnd.value]).None? {
        TurnThrows(scan, text, cursor, inputIndex, occurrence, b, start.value, table, done, shown, proofs);
        return None, proofs;
      }
      var value := text[valueStart..valueEnd.value];
      var key := Key(inputIndex, occurrence);
      TurnKeeps(scan, text, cursor, inputIndex, occurrence, b, start.value, valueEnd.value, table, done, shown, proofs);
      proofs := proofs[key := b.decode(value).value];
      shown := shown + (text[cursor..valueStart] + Placeholder(key));
      done := done + [Plain(text[cursor..valueStart]), Hole(key, value)];
      cursor := valueEnd.value;
      occurrence := occurrence + 1;
    }
  }

  lemma {:induction false} ShowPair(text: string, key: string, value: string, b: Base64, table: map<string, seq<byte>>)
    requires b.decode(value).Some?
    ensures var pair := [Plain(text), Hole(key, value)];
            && Show(pair, {}) == text + Placeholder(key)
            && Attach(pair, b, table) == table[key := b.decode(value).value]
  {
    var pair := [Plain(text), Hole(key, value)];
    assert pair == [Plain(text)] + [Hole(key, value)];
    ShowMore([Plain(text)], [Hole(key, value)], b, table);
    ShowOne(Plain(text), b, table);
    ShowOne(Hole(key, value), b, table);
  }

  lemma {:induction false} ShowOne(p: Piece, b: Base64, table: map<string, seq<byte>>)
    ensures Show([p], {}) == if p.Plain? then p.text else Placeholder(p.key)
    ensures Attach([p], b, table) == Put(p, b, table)
  {
    assert [p][1..] == [];
  }

  lemma {:induction false} ShowMore(done: seq<Piece>, more: seq<Piece>, b: Base64, table: map<string, seq<byte>>)
    ensures Show(done + more, {}) == Show(done, {}) + Show(more, {})
    ensures Attach(done + more, b, table) == Attach(more, b, Attach(done, b, table))
  {
    ShowConcat(done, more);
    AttachConcat(done, more, b, table);
  }

  lemma {:induction false} AttachConcat(done: seq<Piece>, more: seq<Piece>, b: Base64, table: map<string, seq<byte>>)
    ensures Attach(done + more, b, table) == Attach(more, b, Attach(done, b, table))
    decreases |done|
  {
    if done == [] {
      assert done + more == more;
    } else {
      assert (done + more)[1..] == done[1..] + more;
      AttachConcat(done[1..], more, b, Put(done[0], b, table));
    }
  }

  lemma {:induction false} ShowConcat(done: seq<Piece>, more: seq<Piece>)
    ensures Show(done + more, {}) == Show(done, {}) + Show(more, {})
    decreases |done|
  {
    if done == [] {
      assert done + more == more;
    } else {
      assert (done + more)[1..] == done[1..] + more;
      ShowConcat(done[1..], more);
    }
  }

  /** The step over one input of the list. */
  method SpliceInput(input: Input, b: Base64, table: map<string, seq<byte>>)
      returns (out: Option<Input>, proofs: map<string, seq<byte>>)
    ensures out.Some? <==> PiecesOf(input, b).Some?
    ensures out.Some? ==> out.value == Spliced(input, b) && proofs == Attach(PiecesOf(input, b).value, b, table)
  {
    match input {
      case Other => out, proofs := Some(Other), table;
      case Proofs(inputIndex, text) =>
        var shown;
        shown, proofs := SpliceText(text, inputIndex, b, table);
        out := if shown.None? then None else Some(Proofs(inputIndex, shown.value));
    }
  }

  ghost predicate AllScan(inputs: seq<Input>, b: Base64) {
    forall i :: 0 <= i < |inputs| ==> PiecesOf(inputs[i], b).Some?
  }

  /** The inputs taken over and the attachments collected. */
  ghost predicate Moved(inputs: seq<Input>, b: Base64, moved: seq<Input>, proofs: map<string, seq<byte>>) {
    && AllScan(inputs, b) && proofs == AttachAll(inputs, b)
    && |moved| == |inputs| && forall i :: 0 <= i < |inputs| ==> moved[i] == Spliced(inputs[i], b)
  }

  lemma {:induction false} MovedMore(inputs: seq<Input>, b: Base64, moved: seq<Input>, proofs: map<string, seq<byte>>, input: Input)
    requires Moved(inputs, b, moved, proofs) && PiecesOf(input, b).Some?
    ensures Moved(inputs + [input], b, moved + [Spliced(input, b)], Attach(PiecesOf(input, b).value, b, proofs))
  {
    var more := inputs + [input];
    assert more[..|inputs|] == inputs;
  }

  /** `_spliceFinalizeBinaryProofs`: `None` where it throws; without holes the inputs are returned as they are. */
  method SpliceFinalizeBinaryProofs(inputs: seq<Input>, b: Base64)
      returns (out: Option<seq<Input>>, proofs: map<string, seq<byte>>)
    ensures out.Some? <==> AllScan(inputs, b)
    ensures out.Some? ==> Moved(inputs, b, out.value, proofs)
  {
    proofs := map[];
    var moved: seq<Input> := [];
    for i := 0 to |inputs|
      invariant Moved(inputs[..i], b, moved, proofs)
    {
      var input, more := SpliceInput(inputs[i], b, proofs);
      if input.None? {
        return None, proofs;
      }
      MovedMore(inputs[..i], b, moved, proofs, inputs[i]);
      assert inputs[..i] + [inputs[i]] == inputs[..i + 1];
      moved := moved + [input.value];
      proofs := more;
    }
    assert inputs[..|inputs|] == inputs;
    if proofs == map[] {
      NothingMoved(inputs, b);
      return Some(inputs), proofs;
    }
    out := Some(moved);
  }

  lemma {:induction false} AttachGrows(pieces: seq<Piece>, b: Base64, table: map<string, seq<byte>>)
    ensures table.Keys <= Attach(pieces, b, table).Keys
    ensures forall i :: 0 <= i < |pieces| && pieces[i].Hole? && b.decode(pieces[i].value).Some? ==>
              pieces[i].key in Attach(pieces, b, table)
    decreases |pieces|
  {
    if pieces != [] {
      AttachGrows(pieces[1..], b, Put(pieces[0], b, table));
      forall i | 0 < i < |pieces| ensures pieces[i] == pieces[1..][i - 1] {
      }
    }
  }

  lemma {:induction false} ShowPlain(pieces: seq<Piece>, filled: set<string>)
    requires forall i :: 0 <= i < |pieces| && pieces[i].Hole? ==> pieces[i].key in filled
    ensures Show(pieces, filled) == Original(pieces)
    decreases |pieces|
  {
    if pieces != [] {
      ShowPlain(pieces[1..], filled);
    }
  }

  lemma {:induction false} UnmovedInput(input: Input, b: Base64, table: map<string, seq<byte>>)
    requires PiecesOf(input, b).Some? && Attach(PiecesOf(input, b).value, b, table) == map[]
    ensures Spliced(input, b) == input
  {
    if input.Proofs? {
      var pieces := PiecesOf(input, b).value;
      AttachGrows(pieces, b, table);
      ScanFinds(input.text, 0, input.inputIndex, 0, b);
      forall i | 0 <= i < |pieces| ensures pieces[i].Plain? {
        assert Found(pieces[i], input.text, input.inputIndex, 0, b);
      }
      ScanGuards(input.text, 0, input.inputIndex, 0, b);
      ShowPlain(pieces, {});
    }
  }

  lemma {:induction false} NothingMoved(inputs: seq<Input>, b: Base64)
    requires AllScan(inputs, b) && AttachAll(inputs, b) == map[]
    ensures forall i :: 0 <= i < |inputs| ==> Spliced(inputs[i], b) == inputs[i]
    decreases |inputs|
  {
    if inputs != [] {
      var front, last := inputs[..|inputs| - 1], inputs[|inputs| - 1];
      assert AllScan(front, b) && PiecesOf(last, b).Some?;
      var before := AttachAll(front, b);
      UnmovedInput(last, b, before);
      AttachGrows(PiecesOf(last, b).value, b, before);
      assert before.Keys == {};
      NothingMoved(front, b);
    }
  }

  // ----- the server's replacement

  /** One plain replacement per attachment, in the order of `keys`. */
  function Restore(text: string, keys: seq<string>, proofs: map<string, seq<byte>>, b: Base64): string
    requires forall i :: 0 <= i < |keys| ==> keys[i] in proofs
  {
    if keys == [] then text
    else
      var key := keys[|keys| - 1];
      ReplaceAll(Restore(text, keys[..|keys| - 1], proofs, b), Placeholder(key), b.encode(proofs[key]))
  }

  /** Every hole is in the table with its own value. */
  ghost predicate Attached(pieces: seq<Piece>, b: Base64, proofs: map<string, seq<byte>>) {
    forall i :: 0 <= i < |pieces| && pieces[i].Hole? ==>
      pieces[i].key in proofs && b.decode(pieces[i].value) == Some(proofs[pieces[i].key])
  }

  /** Values are base64 as the encoder writes it. */
  ghost predicate Canonical(pieces: seq<Piece>, b: Base64) {
    forall i :: 0 <= i < |pieces| && pieces[i].Hole? && b.decode(pieces[i].value).Some? ==>
      b.encode(b.decode(pieces[i].value).value) == pieces[i].value
  }

  lemma {:induction false} AttachKeeps(pieces: seq<Piece>, b: Base64, table: map<string, seq<byte>>, key: string)
    requires forall i :: 0 <= i < |pieces| && pieces[i].Hole? ==> pieces[i].key != key
    ensures var t := Attach(pieces, b, table);
            (key in t <==> key in table) && (key in table ==> t[key] == table[key])
    decreases |pieces|
  {
    if pieces != [] {
      AttachKeeps(pieces[1..], b, Put(pieces[0], b, table), key);
    }
  }

  lemma {:induction false} AttachPuts(pieces: seq<Piece>, b: Base64, table: map<string, seq<byte>>, i: nat)
    requires KeysApart(pieces) && i < |pieces| && pieces[i].Hole? && b.decode(pieces[i].value).Some?
    ensures var t := Attach(pieces, b, table);
            pieces[i].key in t && b.decode(pieces[i].value) == Some(t[pieces[i].key])
    decreases |pieces|
  {
    var next := Put(pieces[0], b, table);
    if i > 0 {
      AttachPuts(pieces[1..], b, next, i - 1);
    } else {
      AttachKeeps(pieces[1..], b, next, pieces[0].key);
    }
  }

  /** No two inputs have the same index. */
  predicate IndicesApart(inputs: seq<Input>) {
    forall i, j :: 0 <= i < j < |inputs| && inputs[i].Proofs? && inputs[j].Proofs? ==>
      inputs[i].inputIndex != inputs[j].inputIndex
  }

  /** Every hole of every input is in the table. */
  lemma {:induction false} AllAttached(inputs: seq<Input>, b: Base64, i: nat)
    requires IndicesApart(inputs) && i < |inputs| && inputs[i].Proofs?
    requires AllScan(inputs, b)
    ensures Attached(PiecesOf(inputs[i], b).value, b, AttachAll(inputs, b))
    decreases |inputs|
  {
    var n := |inputs| - 1;
    var last, pieces := PiecesOf(inputs[n], b).value, PiecesOf(inputs[i], b).value;
    var before := AttachAll(inputs[..n], b);
    ScanFinds(inputs[i].text, 0, inputs[i].inputIndex, 0, b);
    if i == n {
      forall k | 0 <= k < |pieces| && pieces[k].Hole?
        ensures pieces[k].key in AttachAll(inputs, b) && b.decode(pieces[k].value) == Some(AttachAll(inputs, b)[pieces[k].key])
      {
        assert Found(pieces[k], inputs[i].text, inputs[i].inputIndex, 0, b);
        AttachPuts(pieces, b, before, k);
      }
    } else {
      AllAttached(inputs[..n], b, i);
      forall k | 0 <= k < |pieces| && pieces[k].Hole?
        ensures pieces[k].key in AttachAll(inputs, b) && b.decode(pieces[k].value) == Some(AttachAll(inputs, b)[pieces[k].key])
      {
        OtherInputsKey(inputs[i], inputs[n], k, b);
        AttachKeeps(last, b, before, pieces[k].key);
      }
    }
  }

  /** The keys of one input are none of another's. */
  lemma {:induction false} OtherInputsKey(x: Input, y: Input, k: nat, b: Base64)
    requires PiecesOf(x, b).Some? && PiecesOf(y, b).Some? && x.Proofs?
    requires y.Proofs? ==> x.inputIndex != y.inputIndex
    requires k < |PiecesOf(x, b).value| && PiecesOf(x, b).value[k].Hole?
    ensures var key := PiecesOf(x, b).value[k].key;
            forall i :: 0 <= i < |PiecesOf(y, b).value| && PiecesOf(y, b).value[i].Hole? ==> PiecesOf(y, b).value[i].key != key
  {
    if y.Proofs? {
      ScanFinds(x.text, 0, x.inputIndex, 0, b);
      ScanFinds(y.text, 0, y.inputIndex, 0, b);
      var xs, ys := PiecesOf(x, b).value, PiecesOf(y, b).value;
      assert Found(xs[k], x.text, x.inputIndex, 0, b);
      var o: nat :| xs[k].key == Key(x.inputIndex, o);
      forall i | 0 <= i < |ys| && ys[i].Hole? ensures ys[i].key != xs[k].key {
        assert Found(ys[i], y.text, y.inputIndex, 0, b);
        var m: nat :| ys[i].key == Key(y.inputIndex, m);
        if ys[i].key == xs[k].key {
          KeyInjective(y.inputIndex, m, x.inputIndex, o);
        }
      }
    }
  }

  /** No placeholder of any key can stand in a text without the start of one. */
  lemma {:induction false} NoPlaceholder(text: string, key: string)
    requires !Occurs(text, HOLE_START)
    ensures !Occurs(text, Placeholder(key))
  {
    var pat := Placeholder(key);
    forall i: nat ensures !OccursAt(text, pat, i) {
      if i + |pat| <= |text| {
        assert !OccursAt(text, HOLE_START, i);
        SliceOfSlice(text, i, i + |pat|, 0, |HOLE_START|);
        assert pat[0..|HOLE_START|] == HOLE_START;
      }
    }
  }

  /** What the pieces of a scanned text need for a replacement to fill exactly its holes. */
  lemma {:induction false} ScanFits(text: string, inputIndex: nat, b: Base64, proofs: map<string, seq<byte>>, key: string)
    requires Scan(text, 0, inputIndex, 0, b).Some? && !Occurs(text, HOLE_START) && key in proofs
    requires Attached(Scan(text, 0, inputIndex, 0, b).value, b, proofs)
    requires Canonical(Scan(text, 0, inputIndex, 0, b).value, b)
    ensures Fits(Scan(text, 0, inputIndex, 0, b).value, key, b.encode(proofs[key]))
  {
    var pieces := Scan(text, 0, inputIndex, 0, b).value;
    ScanFinds(text, 0, inputIndex, 0, b);
    NoPlaceholder(text, key);
    forall i | 0 <= i < |pieces| ensures
      match pieces[i]
      case Plain(t) => !Occurs(t, Placeholder(key))
      case Hole(k, v) => !Occurs(v, Placeholder(key)) && NoAt(k) && (k == key ==> v == b.encode(proofs[key]))
    {
      assert Found(pieces[i], text, inputIndex, 0, b);
      match pieces[i] {
        case Plain(t) => PartHasNone(t, text, Placeholder(key));
        case Hole(k, v) =>
          PartHasNone(v, text, Placeholder(key));
          var o: nat :| k == Key(inputIndex, o);
          KeyHasNoAt(inputIndex, o);
      }
    }
  }

  function SetOf(keys: seq<string>): set<string> {
    set k | k in keys
  }

  /** Each key can be replaced without touching anything but its own holes. */
  ghost predicate AllFit(pieces: seq<Piece>, keys: seq<string>, proofs: map<string, seq<byte>>, b: Base64) {
    forall i :: 0 <= i < |keys| ==>
      keys[i] in proofs && NoAt(keys[i]) && QUOTE !in keys[i] && Fits(pieces, keys[i], b.encode(proofs[keys[i]]))
  }

  /** After some replacements exactly the holes of their keys are filled. */
  lemma {:induction false} RestoreShows(pieces: seq<Piece>, keys: seq<string>, proofs: map<string, seq<byte>>, b: Base64)
    requires Guarded(pieces) && AllFit(pieces, keys, proofs, b)
    ensures Restore(Show(pieces, {}), keys, proofs, b) == Show(pieces, SetOf(keys))
    decreases |keys|
  {
    if keys == [] {
      assert SetOf(keys) == {};
    } else {
      var front, key := keys[..|keys| - 1], keys[|keys| - 1];
      RestoreShows(pieces, front, proofs, b);
      ReplaceFills(pieces, SetOf(front), key, b.encode(proofs[key]));
      SetOfSnoc(front, key);
      assert keys == front + [key];
    }
  }

  lemma {:induction false} SetOfSnoc(front: seq<string>, key: string)
    ensures SetOf(front + [key]) == SetOf(front) + {key}
  {
  }

  /** Keys of attachments are numbers joined by a bar. */
  lemma {:induction false} AttachedKeys(inputs: seq<Input>, b: Base64, key: string)
    requires AllScan(inputs, b)
    requires key in AttachAll(inputs, b)
    ensures NoAt(key) && QUOTE !in key
    decreases |inputs|
  {
    var n := |inputs| - 1;
    if key in AttachAll(inputs[..n], b) {
      AttachedKeys(inputs[..n], b, key);
    } else {
      var last := PiecesOf(inputs[n], b).value;
      if forall i :: 0 <= i < |last| && last[i].Hole? ==> last[i].key != key {
        AttachKeeps(last, b, AttachAll(inputs[..n], b), key);
      } else {
        var i :| 0 <= i < |last| && last[i].Hole? && last[i].key == key;
        ScanFinds(inputs[n].text, 0, inputs[n].inputIndex, 0, b);
        assert Found(last[i], inputs[n].text, inputs[n].inputIndex, 0, b);
        var o: nat :| key == Key(inputs[n].inputIndex, o);
        KeyHasNoAt(inputs[n].inputIndex, o);
      }
    }
  }

  /**
    Replacing each placeholder by its attachment's base64, in any order and on any number
    of inputs and proofs, restores every text exactly.
   */
  lemma {:induction false} RestoreUndoesSplice(inputs: seq<Input>, b: Base64, keys: seq<string>, i: nat)
    requires AllScan(inputs, b)
    requires IndicesApart(inputs) && i < |inputs| && inputs[i].Proofs?
    requires !Occurs(inputs[i].text, HOLE_START) && Canonical(PiecesOf(inputs[i], b).value, b)
    requires forall k :: k in keys <==> k in AttachAll(inputs, b)
    ensures Restore(Spliced(inputs[i], b).text, keys, AttachAll(inputs, b), b) == inputs[i].text
  {
    var proofs, text, inputIndex := AttachAll(inputs, b), inputs[i].text, inputs[i].inputIndex;
    var pieces := PiecesOf(inputs[i], b).value;
    AllAttached(inputs, b, i);
    forall j | 0 <= j < |keys|
      ensures keys[j] in proofs && NoAt(keys[j]) && QUOTE !in keys[j] && Fits(pieces, keys[j], b.encode(proofs[keys[j]]))
    {
      assert keys[j] in keys;
      AttachedKeys(inputs, b, keys[j]);
      ScanFits(text, inputIndex, b, proofs, keys[j]);
    }
    ScanGuards(text, 0, inputIndex, 0, b);
    RestoreShows(pieces, keys, proofs, b);
    ShowPlain(pieces, SetOf(keys));
  }

  // ----- the second form: whole texts as attachments

  /**
    An input of the finalize payload: its index if that is a non-negative integer, its
    proofs if those are a text, and its other fields.
   */
  datatype FinalizeInput =
    | Object(inputIndex: Option<nat>, policyProofs: Option<string>, others: map<string, Json>)
    | NotObject

  datatype EnvelopeInput = EnvelopeInput(inputIndex: nat, others: map<string, Json>)

  /** Fields copied one by one into a new object: assigning to `__proto__` stores nothing. */
  function Copied(others: map<string, Json>): map<string, Json> {
    others - {PROTO}
  }

  /** The input with the fields a copy keeps. */
  function Kept(input: FinalizeInput): FinalizeInput {
    if input.Object? then input.(others := Copied(input.others)) else input
  }

  predicate Acceptable(input: FinalizeInput) {
    input.Object? && input.inputIndex.Some? && input.policyProofs.Some?
  }

  /** What the second form asks of a payload. */
  predicate AllAcceptable(inputs: seq<FinalizeInput>) {
    && (forall i :: 0 <= i < |inputs| ==> Acceptable(inputs[i]))
    && (forall i, j :: 0 <= i < j < |inputs| ==> inputs[i].inputIndex.value != inputs[j].inputIndex.value)
  }

  /** The input an envelope entry and the attachments stand for. */
  function Reassembled(e: EnvelopeInput, attachments: map<string, seq<byte>>, decode: seq<byte> -> string): FinalizeInput {
    var key := Decimal(e.inputIndex);
    Object(Some(e.inputIndex), if key in attachments then Some(decode(attachments[key])) else None, e.others)
  }

  /** What the loop has taken over so far. */
  ghost predicate Prepared(done: seq<FinalizeInput>, entries: seq<EnvelopeInput>, seen: set<nat>,
                           attachments: map<string, seq<byte>>, decode: seq<byte> -> string)
  {
    && AllAcceptable(done) && |entries| == |done|
    && (forall j :: 0 <= j < |done| ==> done[j].inputIndex.value in seen)
    && (forall n :: n in seen ==> exists j :: 0 <= j < |done| && done[j].inputIndex.value == n)
    && (forall n: nat :: Decimal(n) in attachments ==> n in seen)
    && (forall j :: 0 <= j < |done| ==> Reassembled(entries[j], attachments, decode) == Kept(done[j]))
  }

  /** Each input's proofs are attached as their bytes under its index, and nothing else is. */
  ghost predicate TextsAttached(done: seq<FinalizeInput>, attachments: map<string, seq<byte>>, encode: string -> seq<byte>) {
    && AllAcceptable(done)
    && (forall j :: 0 <= j < |done| ==>
          var key := Decimal(done[j].inputIndex.value); key in attachments && attachments[key] == encode(done[j].policyProofs.value))
    && forall key <- attachments :: exists j :: 0 <= j < |done| && key == Decimal(done[j].inputIndex.value)
  }

  lemma {:induction false} TextsMore(done: seq<FinalizeInput>, attachments: map<string, seq<byte>>, encode: string -> seq<byte>,
                              input: FinalizeInput)
    requires TextsAttached(done, attachments, encode) && Acceptable(input)
    requires forall j :: 0 <= j < |done| ==> done[j].inputIndex.value != input.inputIndex.value
    ensures TextsAttached(done + [input], attachments[Decimal(input.inputIndex.value) := encode(input.policyProofs.value)], encode)
  {
    var index, more := input.inputIndex.value, done + [input];
    var grown := attachments[Decimal(index) := encode(input.policyProofs.value)];
    KeyIsIndex(index);
    assert more[|done|] == input && forall j :: 0 <= j < |done| ==> more[j] == done[j];
    forall key | key in grown ensures exists j :: 0 <= j < |more| && key == Decimal(more[j].inputIndex.value) {
      if key == Decimal(index) {
        assert key == Decimal(more[|done|].inputIndex.value);
      } else {
        var j :| 0 <= j < |done| && key == Decimal(done[j].inputIndex.value);
        assert key == Decimal(more[j].inputIndex.value);
      }
    }
  }

  lemma {:induction false} KeyIsIndex(index: nat)
    ensures forall n: nat :: Decimal(n) == Decimal(index) ==> n == index
  {
    forall n: nat | Decimal(n) == Decimal(index) ensures n == index {
      DecimalInjective(n, index);
    }
  }

  lemma {:induction false} PreparedMore(done: seq<FinalizeInput>, entries: seq<EnvelopeInput>, seen: set<nat>,
                                        attachments: map<string, seq<byte>>, encode: string -> seq<byte>,
                                        decode: seq<byte> -> string, input: FinalizeInput)
    requires forall s :: decode(encode(s)) == s
    requires Prepared(done, entries, seen, attachments, decode) && Acceptable(input) && input.inputIndex.value !in seen
    ensures Prepared(done + [input], entries + [EnvelopeInput(input.inputIndex.value, Copied(input.others))],
                     seen + {input.inputIndex.value},
                     attachments[Decimal(input.inputIndex.value) := encode(input.policyProofs.value)], decode)
  {
    var index, more := input.inputIndex.value, done + [input];
    KeyIsIndex(index);
    assert forall j :: 0 <= j < |done| ==> more[j] == done[j];
    assert more[|done|].inputIndex.value == index;
    forall n | n in seen ensures exists j :: 0 <= j < |more| && more[j].inputIndex.value == n {
      var j :| 0 <= j < |done| && done[j].inputIndex.value == n;
      assert more[j].inputIndex.value == n;
    }
    forall j | 0 <= j < |done| ensures entries[j].inputIndex == done[j].inputIndex.value {
      assert Reassembled(entries[j], attachments, decode) == Kept(done[j]);
    }
  }

  lemma {:induction false} RepeatedIndex(inputs: seq<FinalizeInput>, i: nat)
    requires i < |inputs| && AllAcceptable(inputs[..i]) && Acceptable(inputs[i])
    requires exists j :: 0 <= j < i && inputs[..i][j].inputIndex.value == inputs[i].inputIndex.value
    ensures !AllAcceptable(inputs)
  {
    var j :| 0 <= j < i && inputs[..i][j].inputIndex.value == inputs[i].inputIndex.value;
    assert inputs[j] == inputs[..i][j];
  }

  /** The loop's account: the envelope so far, the indices seen, and the attachments. */
  ghost predicate TakenOver(done: seq<FinalizeInput>, entries: seq<EnvelopeInput>, seen: set<nat>,
                            attachments: map<string, seq<byte>>, encode: string -> seq<byte>, decode: seq<byte> -> string)
  {
    Prepared(done, entries, seen, attachments, decode) && TextsAttached(done, attachments, encode)
  }

  /** `taken` is that account; stated so that it is used only where `TakenOver` is mentioned. */
  ghost predicate IsTaken(taken: (seq<FinalizeInput>, seq<EnvelopeInput>, set<nat>, map<string, seq<byte>>) -> bool,
                          encode: string -> seq<byte>, decode: seq<byte> -> string)
  {
    forall done, entries, seen, attachments {:trigger TakenOver(done, entries, seen, attachments, encode, decode)} ::
      taken(done, entries, seen, attachments) <==> TakenOver(done, entries, seen, attachments, encode, decode)
  }

  lemma {:induction false} TakenMore(taken: (seq<FinalizeInput>, seq<EnvelopeInput>, set<nat>, map<string, seq<byte>>) -> bool,
                              inputs: seq<FinalizeInput>, i: nat, entries: seq<EnvelopeInput>, seen: set<nat>,
                              attachments: map<string, seq<byte>>, encode: string -> seq<byte>, decode: seq<byte> -> string)
    requires (forall s :: decode(encode(s)) == s) && IsTaken(taken, encode, decode)
    requires i < |inputs| && taken(inputs[..i], entries, seen, attachments)
    requires Acceptable(inputs[i]) && inputs[i].inputIndex.value !in seen
    ensures var index := inputs[i].inputIndex.value;
            taken(inputs[..i + 1], entries + [EnvelopeInput(index, Copied(inputs[i].others))], seen + {index},
                  attachments[Decimal(index) := encode(inputs[i].policyProofs.value)])
  {
    assert inputs[..i] + [inputs[i]] == inputs[..i + 1];
    assert TakenOver(inputs[..i], entries, seen, attachments, encode, decode);
    OneTaken(inputs[..i], entries, seen, attachments, encode, decode, inputs[i]);
  }

  lemma {:induction false} OneTaken(done: seq<FinalizeInput>, entries: seq<EnvelopeInput>, seen: set<nat>,
                             attachments: map<string, seq<byte>>, encode: string -> seq<byte>, decode: seq<byte> -> string,
                             input: FinalizeInput)
    requires forall s :: decode(encode(s)) == s
    requires TakenOver(done, entries, seen, attachments, encode, decode)
    requires Acceptable(input) && input.inputIndex.value !in seen
    ensures var index := input.inputIndex.value;
            TakenOver(done + [input], entries + [EnvelopeInput(index, Copied(input.others))], seen + {index},
                      attachments[Decimal(index) := encode(input.policyProofs.value)], encode, decode)
  {
    PreparedMore(done, entries, seen, attachments, encode, decode, input);
    TextsMore(done, attachments, encode, input);
  }

  lemma {:induction false} SeenBefore(taken: (seq<FinalizeInput>, seq<EnvelopeInput>, set<nat>, map<string, seq<byte>>) -> bool,
                               inputs: seq<FinalizeInput>, i: nat, entries: seq<EnvelopeInput>, seen: set<nat>,
                               attachments: map<string, seq<byte>>, encode: string -> seq<byte>, decode: seq<byte> -> string)
    requires IsTaken(taken, encode, decode) && i < |inputs| && taken(inputs[..i], entries, seen, attachments)
    requires Acceptable(inputs[i]) && inputs[i].inputIndex.value in seen
    ensures !AllAcceptable(inputs)
  {
    assert TakenOver(inputs[..i], entries, seen, attachments, encode, decode);
    RepeatedIndex(inputs, i);
  }

  /** What the envelope and the attachments hold when all inputs are taken over. */
  ghost predicate Holds(inputs: seq<FinalizeInput>, envelope: seq<EnvelopeInput>, attachments: map<string, seq<byte>>,
                        encode: string -> seq<byte>, decode: seq<byte> -> string)
  {
    && |envelope| == |inputs| && TextsAttached(inputs, attachments, encode)
    && forall i :: 0 <= i < |inputs| ==>
         && envelope[i] == EnvelopeInput(inputs[i].inputIndex.value, inputs[i].others - {"__proto__"})
         && Reassembled(envelope[i], attachments, decode) == Kept(inputs[i])
  }

  lemma {:induction false} AllTaken(taken: (seq<FinalizeInput>, seq<EnvelopeInput>, set<nat>, map<string, seq<byte>>) -> bool,
                             inputs: seq<FinalizeInput>, entries: seq<EnvelopeInput>, seen: set<nat>,
                             attachments: map<string, seq<byte>>, encode: string -> seq<byte>, decode: seq<byte> -> string)
    requires IsTaken(taken, encode, decode) && taken(inputs[..|inputs|], entries, seen, attachments)
    ensures AllAcceptable(inputs) && Holds(inputs, entries, attachments, encode, decode)
  {
    assert inputs[..|inputs|] == inputs;
    assert TakenOver(inputs, entries, seen, attachments, encode, decode);
    forall i | 0 <= i < |inputs|
      ensures entries[i] == EnvelopeInput(inputs[i].inputIndex.value, inputs[i].others - {"__proto__"})
    {
      assert Reassembled(entries[i], attachments, decode) == Kept(inputs[i]);
    }
  }

  lemma {:induction false} NothingTaken(taken: (seq<FinalizeInput>, seq<EnvelopeInput>, set<nat>, map<string, seq<byte>>) -> bool,
                                 inputs: seq<FinalizeInput>, encode: string -> seq<byte>, decode: seq<byte> -> string)
    requires IsTaken(taken, encode, decode)
    ensures taken(inputs[..0], [], {}, map[])
  {
    assert TakenOver(inputs[..0], [], {}, map[], encode, decode);
  }

  /** Reassembling gives an input back exactly when it has no own `__proto__` field. */
  lemma {:induction false} KeptIff(input: FinalizeInput)
    requires input.Object?
    ensures Kept(input) == input <==> PROTO !in input.others
  {
  }

  ghost function Account(encode: string -> seq<byte>, decode: seq<byte> -> string):
      (seq<FinalizeInput>, seq<EnvelopeInput>, set<nat>, map<string, seq<byte>>) -> bool
  {
    (done: seq<FinalizeInput>, entries: seq<EnvelopeInput>, seen: set<nat>, attachments: map<string, seq<byte>>) =>
      TakenOver(done, entries, seen, attachments, encode, decode)
  }

  /**
    `_prepareFinalizeV2`: refused exactly for an empty or unacceptable list; otherwise each
    input's proofs are attached as bytes under its index, its other fields stay in the
    envelope, an own `__proto__` apart, and both together are the inputs again.
   */
  method PrepareFinalizeV2(inputs: seq<FinalizeInput>, encode: string -> seq<byte>, ghost decode: seq<byte> -> string)
      returns (envelope: Option<seq<EnvelopeInput>>, attachments: map<string, seq<byte>>)
    requires forall s :: decode(encode(s)) == s
    ensures envelope.Some? <==> inputs != [] && AllAcceptable(inputs)
    ensures envelope.Some? ==> Holds(inputs, envelope.value, attachments, encode, decode)
  {
    envelope, attachments := PrepareInputs(inputs, encode, decode, Account(encode, decode));
  }

  /** The loop. */
  method PrepareInputs(inputs: seq<FinalizeInput>, encode: string -> seq<byte>, ghost decode: seq<byte> -> string,
                       ghost taken: (seq<FinalizeInput>, seq<EnvelopeInput>, set<nat>, map<string, seq<byte>>) -> bool)
      returns (envelope: Option<seq<EnvelopeInput>>, attachments: map<string, seq<byte>>)
    requires (forall s :: decode(encode(s)) == s) && IsTaken(taken, encode, decode)
    ensures envelope.Some? <==> inputs != [] && AllAcceptable(inputs)
    ensures envelope.Some? ==> Holds(inputs, envelope.value, attachments, encode, decode)
  {
    attachments := map[];
    if inputs == [] {
      return None, attachments;
    }
    var entries: seq<EnvelopeInput> := [];
    var seen: set<nat> := {};
    NothingTaken(taken, inputs, encode, decode);
    for i := 0 to |inputs|
      invariant taken(inputs[..i], entries, seen, attachments)
    {
      var input := inputs[i];
      if !Acceptable(input) {
        return None, attachments;
      }
      var index := input.inputIndex.value;
      if index in seen {
        SeenBefore(taken, inputs, i, entries, seen, attachments, encode, decode);
        return None, attachments;
      }
      TakenMore(taken, inputs, i, entries, seen, attachments, encode, decode);
      seen := seen + {index};
      attachments := attachments[Decimal(index) := encode(input.policyProofs.value)];
      entries := entries + [EnvelopeInput(index, Copied(input.others))];
    }
    AllTaken(taken, inputs, entries, seen, attachments, encode, decode);
    envelope := Some(entries);
  }
}
