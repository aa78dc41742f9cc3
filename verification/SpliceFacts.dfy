/**
  What the scan for proof values cuts a text into, told from the text alone, and the
  literal form of what is left behind.
 */
module SpliceFacts {
  import opened Options
  import opened Json
  import opened Bytes
  import opened Splice

  /** The mark occurs in the text at no place before `end`. */
  predicate NoneBefore(text: string, mark: string, end: int) {
    forall p: nat :: p < end ==> !OccursAt(text, mark, p)
  }

  /**
    The pieces a text is cut into: up to the first mark, then the value up to the next
    quote, and so on from that quote; the last piece has no mark. Values must decode, and
    are numbered from `occurrence` on.
   */
  ghost predicate Cuts(text: string, mark: string, pieces: seq<Piece>, inputIndex: nat, occurrence: nat, b: Base64)
    decreases |pieces|
  {
    if |pieces| == 1 then pieces[0] == Plain(text) && NoneBefore(text, mark, |text| + 1)
    else |pieces| >= 3 && FirstCut(text, mark, pieces[0], pieces[1], inputIndex, occurrence, b) &&
         Cuts(text[|pieces[0].text| + |pieces[1].value|..], mark, pieces[2..], inputIndex, occurrence + 1, b)
  }

  ghost predicate FirstCut(text: string, mark: string, plain: Piece, hole: Piece, inputIndex: nat, occurrence: nat, b: Base64) {
    && plain.Plain? && hole.Hole? && CutAt(text, mark, plain.text, hole.value)
    && b.decode(hole.value).Some? && hole.key == Decimal(inputIndex) + "_" + Decimal(occurrence)
  }

  /** The text goes on with `front`, which ends with the first mark, then `value` up to the next quote. */
  predicate CutAt(text: string, mark: string, front: string, value: string) {
    && |front| + |value| < |text| && text[..|front|] == front && text[|front|..|front| + |value|] == value
    && |mark| <= |front| && OccursAt(text, mark, |front| - |mark|) && NoneBefore(text, mark, |front| - |mark|)
    && (forall k :: 0 <= k < |value| ==> value[k] != '"') && text[|front| + |value|] == '"'
  }

  lemma {:induction false} MarkerIs(mark: string)
    ensures mark == "\"longfellow_proof\":\"" <==> mark == MARKER
  {
  }

  lemma {:induction false} KeyIs(inputIndex: nat, occurrence: nat)
    ensures Key(inputIndex, occurrence) == Decimal(inputIndex) + "_" + Decimal(occurrence)
  {
  }

  lemma {:induction false} OccursBehind(text: string, cursor: nat, pat: string, p: nat)
    requires cursor <= |text|
    ensures OccursAt(text[cursor..], pat, p) <==> OccursAt(text, pat, cursor + p)
  {
    if cursor + p + |pat| <= |text| {
      assert text[cursor..][p..p + |pat|] == text[cursor + p..cursor + p + |pat|];
    }
  }

  /** The next mark, seen from the cursor. */
  lemma {:induction false} NextMark(text: string, mark: string, cursor: nat, start: nat)
    requires cursor <= |text|
    ensures IndexOf(text, mark, cursor) == Some(start) ==>
            OccursAt(text[cursor..], mark, start - cursor) && NoneBefore(text[cursor..], mark, start - cursor)
  {
    if IndexOf(text, mark, cursor) == Some(start) {
      OccursBehind(text, cursor, mark, start - cursor);
      forall p: nat | p < start - cursor ensures !OccursAt(text[cursor..], mark, p) {
        OccursBehind(text, cursor, mark, p);
        if OccursAt(text, mark, cursor + p) {
          IndexOfIsFirst(text, mark, cursor, cursor + p);
        }
      }
    }
  }

  lemma {:induction false} MarkFound(text: string, mark: string, cursor: nat, k: nat)
    requires cursor <= |text| && OccursAt(text[cursor..], mark, k) && NoneBefore(text[cursor..], mark, k)
    ensures IndexOf(text, mark, cursor) == Some(cursor + k)
  {
    OccursBehind(text, cursor, mark, k);
    IndexOfIsFirst(text, mark, cursor, cursor + k);
    var found := IndexOf(text, mark, cursor).value;
    OccursBehind(text, cursor, mark, found - cursor);
  }

  lemma {:induction false} NoNextMark(text: string, mark: string, cursor: nat)
    requires cursor <= |text|
    ensures IndexOf(text, mark, cursor).None? <==> NoneBefore(text[cursor..], mark, |text| - cursor + 1)
  {
    var rest, found := text[cursor..], IndexOf(text, mark, cursor);
    if found.None? {
      forall p: nat ensures !OccursAt(rest, mark, p) {
        OccursBehind(text, cursor, mark, p);
        if OccursAt(text, mark, cursor + p) {
          IndexOfIsFirst(text, mark, cursor, cursor + p);
        }
      }
    } else {
      OccursBehind(text, cursor, mark, found.value - cursor);
    }
  }

  predicate QuoteFirst(text: string, from: nat, end: nat) {
    from <= end < |text| && text[end] == QUOTE && forall k :: from <= k < end ==> text[k] != QUOTE
  }

  lemma {:induction false} OneQuote(text: string, k: nat)
    ensures OccursAt(text, [QUOTE], k) <==> k < |text| && text[k] == QUOTE
  {
    if k < |text| {
      assert text[k..k + 1] == [text[k]];
    }
  }

  /** The next quote. */
  lemma {:induction false} NextQuote(text: string, from: nat, end: nat)
    ensures IndexOf(text, [QUOTE], from) == Some(end) <==> QuoteFirst(text, from, end)
  {
    if IndexOf(text, [QUOTE], from) == Some(end) {
      OneQuote(text, end);
      forall k | from <= k < end ensures text[k] != QUOTE {
        OneQuote(text, k);
        if text[k] == QUOTE {
          IndexOfIsFirst(text, [QUOTE], from, k);
        }
      }
    }
    if QuoteFirst(text, from, end) {
      OneQuote(text, end);
      IndexOfIsFirst(text, [QUOTE], from, end);
      OneQuote(text, IndexOf(text, [QUOTE], from).value);
    }
  }

  /** The scan cuts a text into the pieces told above, and fails exactly when there are none. */
  lemma {:induction false} ScanCuts(text: string, mark: string, inputIndex: nat, b: Base64, pieces: seq<Piece>)
    requires mark == "\"longfellow_proof\":\""
    ensures Scan(text, 0, inputIndex, 0, b) == Some(pieces) <==> Cuts(text, mark, pieces, inputIndex, 0, b)
  {
    MarkerIs(mark);
    MarkedCuts(text, mark, inputIndex, b, pieces);
  }

  lemma {:induction false} MarkedCuts(text: string, mark: string, inputIndex: nat, b: Base64, pieces: seq<Piece>)
    requires mark == MARKER
    ensures Scan(text, 0, inputIndex, 0, b) == Some(pieces) <==> Cuts(text, mark, pieces, inputIndex, 0, b)
  {
    AllCuts(ScanFrom(text, inputIndex, b), text, mark, inputIndex, b, pieces);
  }

  lemma {:induction false} AllCuts(scan: (nat, nat) -> Option<seq<Piece>>, text: string, mark: string, inputIndex: nat, b: Base64,
                                   pieces: seq<Piece>)
    requires mark == MARKER && IsScan(scan, text, inputIndex, b)
    ensures scan(0, 0) == Some(pieces) <==> Cuts(text, mark, pieces, inputIndex, 0, b)
  {
    assert text[0..] == text;
    if scan(0, 0) == Some(pieces) {
      FoundCuts(scan, text, mark, 0, inputIndex, 0, b, pieces);
    }
    if Cuts(text, mark, pieces, inputIndex, 0, b) {
      CutsFound(scan, text, mark, 0, inputIndex, 0, b, pieces);
    }
  }

  /** One turn of the scan. */
  lemma {:induction false} ScanIs(scan: (nat, nat) -> Option<seq<Piece>>, text: string, mark: string, cursor: nat, inputIndex: nat,
                                  occurrence: nat,
                           b: Base64, start: nat, end: nat)
    requires mark == MARKER && IsScan(scan, text, inputIndex, b) && cursor <= start && start + |mark| <= end < |text|
    requires IndexOf(text, mark, cursor) == Some(start) && IndexOf(text, [QUOTE], start + |mark|) == Some(end)
    requires b.decode(text[start + |mark|..end]).Some?
    ensures var from := start + |mark|; var rest := scan(end, occurrence + 1);
            scan(cursor, occurrence) ==
            if rest.None? then None
            else Some([Plain(text[cursor..from]), Hole(Key(inputIndex, occurrence), text[from..end])] + rest.value)
  {
    ScanNext(text, cursor, inputIndex, occurrence, b, start);
    assert scan(end, occurrence + 1) == Scan(text, end, inputIndex, occurrence + 1, b);
  }

  /** The last turn. */
  lemma {:induction false} ScanEnds(scan: (nat, nat) -> Option<seq<Piece>>, text: string, mark: string, cursor: nat,
                                    inputIndex: nat, occurrence: nat,
                             b: Base64)
    requires mark == MARKER && IsScan(scan, text, inputIndex, b) && cursor <= |text| && IndexOf(text, mark, cursor).None?
    ensures scan(cursor, occurrence) == Some([Plain(text[cursor..])])
  {
    ScanLast(text, cursor, inputIndex, occurrence, b);
  }

  lemma {:induction false} FoundCuts(scan: (nat, nat) -> Option<seq<Piece>>, text: string, mark: string, cursor: nat, inputIndex: nat,
                              occurrence: nat, b: Base64, pieces: seq<Piece>)
    requires mark == MARKER && IsScan(scan, text, inputIndex, b) && cursor <= |text| && scan(cursor, occurrence) == Some(pieces)
    ensures Cuts(text[cursor..], mark, pieces, inputIndex, occurrence, b)
    decreases |text| - cursor
  {
    var found := IndexOf(text, mark, cursor);
    if found.None? {
      NoNextMark(text, mark, cursor);
      ScanEnds(scan, text, mark, cursor, inputIndex, occurrence, b);
    } else {
      var start, end := TurnOf(scan, text, mark, cursor, inputIndex, occurrence, b);
      var from := start + |mark|;
      var rest := scan(end, occurrence + 1).value;
      ScanIs(scan, text, mark, cursor, inputIndex, occurrence, b, start, end);
      FoundCuts(scan, text, mark, end, inputIndex, occurrence + 1, b, rest);
      CutStands(text, mark, cursor, start, end);
      KeyIs(inputIndex, occurrence);
      CutsMore(text[cursor..], mark, text[cursor..from], text[from..end], text[end..], rest, inputIndex, occurrence, b);
    }
  }

  lemma {:induction false} TurnOf(scan: (nat, nat) -> Option<seq<Piece>>, text: string, mark: string, cursor: nat, inputIndex: nat,
                                  occurrence: nat,
                           b: Base64) returns (start: nat, end: nat)
    requires mark == MARKER && IsScan(scan, text, inputIndex, b) && cursor <= |text| && scan(cursor, occurrence).Some?
    requires IndexOf(text, mark, cursor).Some?
    ensures cursor <= start && start + |mark| <= end < |text| && cursor < end
    ensures IndexOf(text, mark, cursor) == Some(start) && IndexOf(text, [QUOTE], start + |mark|) == Some(end)
    ensures b.decode(text[start + |mark|..end]).Some? && scan(end, occurrence + 1).Some?
  {
    start := IndexOf(text, mark, cursor).value;
    ScanNext(text, cursor, inputIndex, occurrence, b, start);
    end := IndexOf(text, [QUOTE], start + |mark|).value;
    assert scan(end, occurrence + 1) == Scan(text, end, inputIndex, occurrence + 1, b);
    NextQuote(text, start + |mark|, end);
  }

  lemma {:induction false} CutStands(text: string, mark: string, cursor: nat, start: nat, end: nat)
    requires cursor <= start && start + |mark| <= end < |text|
    requires IndexOf(text, mark, cursor) == Some(start) && IndexOf(text, [QUOTE], start + |mark|) == Some(end)
    ensures var from := start + |mark|;
            CutAt(text[cursor..], mark, text[cursor..from], text[from..end]) && text[cursor..][end - cursor..] == text[end..]
  {
    var from := start + |mark|;
    assert QuoteFirst(text, from, end) by { NextQuote(text, from, end); }
    NextMark(text, mark, cursor, start);
    CutFits(text, mark, cursor, from, end);
  }

  lemma {:induction false} CutFits(text: string, mark: string, cursor: nat, from: nat, end: nat)
    requires cursor <= from - |mark| && from <= end < |text| && QuoteFirst(text, from, end)
    requires OccursAt(text[cursor..], mark, from - |mark| - cursor) && NoneBefore(text[cursor..], mark, from - |mark| - cursor)
    ensures CutAt(text[cursor..], mark, text[cursor..from], text[from..end]) && text[cursor..][end - cursor..] == text[end..]
  {
    Slices(text, cursor, from, end);
  }

  lemma {:induction false} Slices(text: string, cursor: nat, from: nat, end: nat)
    requires cursor <= from <= end < |text|
    ensures var rest := text[cursor..];
            && rest[..from - cursor] == text[cursor..from] && rest[from - cursor..end - cursor] == text[from..end]
            && rest[end - cursor] == text[end] && rest[end - cursor..] == text[end..]
  {
  }

  lemma {:induction false} CutsMore(text: string, mark: string, front: string, value: string, tail: string, rest: seq<Piece>,
                                    inputIndex: nat,
                             occurrence: nat, b: Base64)
    requires CutAt(text, mark, front, value) && text[|front| + |value|..] == tail && b.decode(value).Some?
    requires Cuts(tail, mark, rest, inputIndex, occurrence + 1, b)
    ensures Cuts(text, mark, [Plain(front), Hole(Decimal(inputIndex) + "_" + Decimal(occurrence), value)] + rest, inputIndex, occurrence, b)
  {
    var pieces := [Plain(front), Hole(Decimal(inputIndex) + "_" + Decimal(occurrence), value)] + rest;
    assert pieces[2..] == rest && rest != [];
  }

  /** A first cut and what the scan gives behind it. */
  lemma {:induction false} TurnBack(scan: (nat, nat) -> Option<seq<Piece>>, text: string, mark: string, cursor: nat, inputIndex: nat,
                             occurrence: nat, b: Base64, front: string, value: string, rest: seq<Piece>)
    requires mark == MARKER && IsScan(scan, text, inputIndex, b)
    requires cursor <= |text| && CutAt(text[cursor..], mark, front, value) && b.decode(value).Some?
    requires scan(cursor + |front| + |value|, occurrence + 1) == Some(rest)
    ensures scan(cursor, occurrence) == Some([Plain(front), Hole(Decimal(inputIndex) + "_" + Decimal(occurrence), value)] + rest)
  {
    var from := cursor + |front|;
    var end := from + |value|;
    CutFound(text, mark, cursor, front, value, from, end);
    KeyIs(inputIndex, occurrence);
    ScanIs(scan, text, mark, cursor, inputIndex, occurrence, b, from - |mark|, end);
  }

  lemma {:induction false} CutsSplit(text: string, mark: string, pieces: seq<Piece>, inputIndex: nat, occurrence: nat, b: Base64)
      returns (front: string, key: string, value: string)
    requires |pieces| != 1 && Cuts(text, mark, pieces, inputIndex, occurrence, b)
    ensures CutAt(text, mark, front, value) && b.decode(value).Some? && key == Decimal(inputIndex) + "_" + Decimal(occurrence)
    ensures |pieces| >= 3 && pieces == [Plain(front), Hole(key, value)] + pieces[2..]
    ensures Cuts(text[|front| + |value|..], mark, pieces[2..], inputIndex, occurrence + 1, b)
  {
    front, key, value := pieces[0].text, pieces[1].key, pieces[1].value;
    assert pieces == [pieces[0], pieces[1]] + pieces[2..];
  }

  lemma {:induction false} CutsFound(scan: (nat, nat) -> Option<seq<Piece>>, text: string, mark: string, cursor: nat, inputIndex: nat,
                              occurrence: nat, b: Base64, pieces: seq<Piece>)
    requires mark == MARKER && IsScan(scan, text, inputIndex, b)
    requires cursor <= |text| && Cuts(text[cursor..], mark, pieces, inputIndex, occurrence, b)
    ensures scan(cursor, occurrence) == Some(pieces)
    decreases |pieces|
  {
    if |pieces| == 1 {
      assert pieces == [pieces[0]];
      NoNextMark(text, mark, cursor);
      ScanEnds(scan, text, mark, cursor, inputIndex, occurrence, b);
    } else {
      var front, key, value := CutsSplit(text[cursor..], mark, pieces, inputIndex, occurrence, b);
      var end := cursor + |front| + |value|;
      assert text[cursor..][|front| + |value|..] == text[end..];
      CutsFound(scan, text, mark, end, inputIndex, occurrence + 1, b, pieces[2..]);
      TurnBack(scan, text, mark, cursor, inputIndex, occurrence, b, front, value, pieces[2..]);
    }
  }

  lemma {:induction false} CutFound(text: string, mark: string, cursor: nat, front: string, value: string, from: nat, end: nat)
    requires cursor <= |text| && CutAt(text[cursor..], mark, front, value)
    requires from == cursor + |front| && end == from + |value|
    ensures end < |text| && cursor + |mark| <= from && IndexOf(text, mark, cursor) == Some(from - |mark|)
    ensures IndexOf(text, [QUOTE], from) == Some(end)
    ensures front == text[cursor..from] && value == text[from..end]
  {
    Slices(text, cursor, from, end);
    MarkFound(text, mark, cursor, |front| - |mark|);
    forall k | from <= k < end ensures text[k] != QUOTE {
      assert text[k] == value[k - from];
    }
    NextQuote(text, from, end);
  }

  // ----- what is left behind

  /** A value that is moved out leaves its key between the two ends of the placeholder. */
  lemma {:induction false} HoleShows(front: string, key: string, value: string, rest: seq<Piece>)
    ensures Show([Plain(front), Hole(key, value)] + rest, {}) == front + ("@@BINPROOF:" + key + "@@" + Show(rest, {}))
  {
    var pieces := [Plain(front), Hole(key, value)] + rest;
    assert pieces[1..][1..] == rest && pieces[1..][0] == Hole(key, value);
    assert Show(pieces[1..], {}) == Placeholder(key) + Show(rest, {});
  }

  lemma {:induction false} TextShows(text: string)
    ensures Show([Plain(text)], {}) == text
  {
    assert [Plain(text)][1..] == [];
  }

  /** A text with one proof: its value becomes the first attachment of the input. */
  lemma {:induction false} OneProof(front: string, mark: string, value: string, tail: string, inputIndex: nat, b: Base64)
    requires mark == "\"longfellow_proof\":\""
    requires NoneBefore(front + mark + value + ("\"" + tail), mark, |front|) && NoneBefore("\"" + tail, mark, |tail| + 2)
    requires b.decode(value).Some? && forall k :: 0 <= k < |value| ==> value[k] != '"'
    ensures var text, key := front + mark + value + ("\"" + tail), Decimal(inputIndex) + "_" + Decimal(0);
            && Scan(text, 0, inputIndex, 0, b).Some?
            && Show(Scan(text, 0, inputIndex, 0, b).value, {}) == front + mark + ("@@BINPROOF:" + key + "@@" + ("\"" + tail))
            && Attach(Scan(text, 0, inputIndex, 0, b).value, b, map[]) == map[key := b.decode(value).value]
  {
    var text, key, last := front + mark + value + ("\"" + tail), Decimal(inputIndex) + "_" + Decimal(0), "\"" + tail;
    var pieces := [Plain(front + mark), Hole(key, value)] + [Plain(last)];
    OneCut(front, mark, value, last, text);
    assert Cuts(last, mark, [Plain(last)], inputIndex, 1, b);
    CutsMore(text, mark, front + mark, value, last, [Plain(last)], inputIndex, 0, b);
    ScanCuts(text, mark, inputIndex, b, pieces);
    HoleShows(front + mark, key, value, [Plain(last)]);
    TextShows(last);
    AttachOne(front + mark, key, value, last, b);
  }

  lemma {:induction false} OneCut(front: string, mark: string, value: string, last: string, text: string)
    requires text == front + mark + value + last && last != "" && last[0] == '"' && NoneBefore(text, mark, |front|)
    requires forall k :: 0 <= k < |value| ==> value[k] != '"'
    ensures CutAt(text, mark, front + mark, value) && text[|front + mark| + |value|..] == last
  {
    assert text[|front|..|front| + |mark|] == mark;
    assert text[..|front + mark|] == front + mark && text[|front + mark|..|front + mark| + |value|] == value;
  }

  lemma {:induction false} AttachFirst(p: Piece, rest: seq<Piece>, b: Base64, table: map<string, seq<byte>>)
    ensures Attach([p] + rest, b, table) == Attach(rest, b, Put(p, b, table))
  {
    assert ([p] + rest)[1..] == rest;
  }

  lemma {:induction false} AttachOne(front: string, key: string, value: string, last: string, b: Base64)
    requires b.decode(value).Some?
    ensures Attach([Plain(front), Hole(key, value)] + [Plain(last)], b, map[]) == map[key := b.decode(value).value]
  {
    var none: map<string, seq<byte>>, one: map<string, seq<byte>> := map[], map[key := b.decode(value).value];
    assert [Plain(front), Hole(key, value)] + [Plain(last)] == [Plain(front)] + ([Hole(key, value)] + ([Plain(last)] + []));
    AttachFirst(Plain(front), [Hole(key, value)] + ([Plain(last)] + []), b, none);
    AttachFirst(Hole(key, value), [Plain(last)] + [], b, none);
    AttachFirst(Plain(last), [], b, one);
  }
}
