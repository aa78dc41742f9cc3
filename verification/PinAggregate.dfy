/**
  The message behind the pin aggregate of an authorization subject: parts are pushed to a
  list whose join is hashed. Counts are framed, the session id and the pinned challenges
  are not, so the message identifies the pins exactly as far as their lengths are right.
 */
module PinAggregate {

  import opened Options
  import opened Bytes

  const TAG: string := "SIGBASH.AUTHZ.PINAGG.V1"

  /** Bytes of a pin, and of the short pins. */
  const PIN: nat := 32
  const SHORT_PIN: nat := 16

  datatype Position = Position(eHat: seq<byte>, mode: nat)

  datatype Chunk = Chunk(hashOutputs: seq<byte>, covenantWrite: seq<byte>)

  datatype Completing = Completing(hashOutputs: seq<byte>, hin: seq<byte>, salt: seq<byte>, polyCoeffs: seq<byte>,
                                   inputSetPolyProduct: seq<byte>)

  datatype Pins = Pins(sessionId: seq<byte>, completingPosition: nat, positions: seq<Position>, chunks: seq<Chunk>,
                       completing: Completing)

  function Ascii(text: string): seq<byte> {
    seq(|text|, i requires 0 <= i < |text| => text[i] as int % 256)
  }

  predicate ChunkChecked(c: Chunk) {
    |c.hashOutputs| == PIN && |c.covenantWrite| == SHORT_PIN
  }

  predicate ChunksChecked(cs: seq<Chunk>) {
    forall i :: 0 <= i < |cs| ==> ChunkChecked(cs[i])
  }

  predicate CompletingChecked(c: Completing) {
    && |c.hashOutputs| == PIN && |c.hin| == PIN && |c.salt| == PIN && |c.polyCoeffs| == PIN
    && |c.inputSetPolyProduct| == SHORT_PIN
  }

  /** What the source checks. */
  predicate Checked(x: Pins) {
    ChunksChecked(x.chunks) && CompletingChecked(x.completing)
  }

  /** The lengths an array can have. */
  predicate Countable(x: Pins) {
    |x.positions| < Pow256(U32) && |x.chunks| < Pow256(U32)
  }

  function PositionBytes(p: Position): seq<byte> {
    p.eHat + LeBytes(p.mode, 1)
  }

  function ChunkBytes(c: Chunk): seq<byte> {
    c.hashOutputs + c.covenantWrite
  }

  function Positions(ps: seq<Position>): seq<byte> {
    if ps == [] then [] else Positions(ps[..|ps| - 1]) + PositionBytes(ps[|ps| - 1])
  }

  function Chunks(cs: seq<Chunk>): seq<byte> {
    if cs == [] then [] else Chunks(cs[..|cs| - 1]) + ChunkBytes(cs[|cs| - 1])
  }

  function CompletingBytes(c: Completing): seq<byte> {
    c.hashOutputs + (c.hin + (c.salt + (c.polyCoeffs + c.inputSetPolyProduct)))
  }

  function Head(x: Pins): seq<byte> {
    Ascii(TAG) + x.sessionId + LeBytes(|x.positions|, U32) + LeBytes(x.completingPosition, U32)
  }

  /** The message that is hashed. */
  function Message(x: Pins): seq<byte> {
    Head(x) + (Positions(x.positions) + (LeBytes(|x.chunks|, U32) + (Chunks(x.chunks) + CompletingBytes(x.completing))))
  }

  // ----- the loops

  method PushPositions(ps: seq<Position>, msg: seq<seq<byte>>) returns (out: seq<seq<byte>>)
    ensures Joined(out) == Joined(msg) + Positions(ps)
  {
    out := msg;
    for i := 0 to |ps|
      invariant Joined(out) == Joined(msg) + Positions(ps[..i])
    {
      JoinedSnoc(out, ps[i].eHat);
      JoinedSnoc(out + [ps[i].eHat], LeBytes(ps[i].mode, 1));
      assert ps[..i + 1][..i] == ps[..i];
      out := out + [ps[i].eHat] + [LeBytes(ps[i].mode, 1)];
    }
    assert ps[..|ps|] == ps;
  }

  method PushChunks(cs: seq<Chunk>, msg: seq<seq<byte>>) returns (out: Option<seq<seq<byte>>>)
    ensures out.Some? <==> ChunksChecked(cs)
    ensures out.Some? ==> Joined(out.value) == Joined(msg) + Chunks(cs)
  {
    var parts := msg;
    for i := 0 to |cs|
      invariant forall j :: 0 <= j < i ==> ChunkChecked(cs[j])
      invariant Joined(parts) == Joined(msg) + Chunks(cs[..i])
    {
      if !ChunkChecked(cs[i]) {
        return None;
      }
      JoinedSnoc(parts, cs[i].hashOutputs);
      JoinedSnoc(parts + [cs[i].hashOutputs], cs[i].covenantWrite);
      assert cs[..i + 1][..i] == cs[..i];
      parts := parts + [cs[i].hashOutputs] + [cs[i].covenantWrite];
    }
    assert cs[..|cs|] == cs;
    out := Some(parts);
  }

  lemma {:induction false} FiveParts(a: seq<byte>, b: seq<byte>, c: seq<byte>, d: seq<byte>, e: seq<byte>)
    ensures a + b + c + d + e == a + (b + (c + (d + e)))
  {
  }

  /** `authzPinAggregate` up to the hash; `None` where it throws. */
  method AuthzPinMessage(x: Pins) returns (out: Option<seq<byte>>)
    ensures out == if Checked(x) then Some(Message(x)) else None
  {
    var msg := [Head(x)];
    assert Joined(msg) == Head(x) + Joined(msg[1..]) == Head(x);
    msg := PushPositions(x.positions, msg);
    JoinedSnoc(msg, LeBytes(|x.chunks|, U32));
    var chunks := PushChunks(x.chunks, msg + [LeBytes(|x.chunks|, U32)]);
    if chunks.None? || !CompletingChecked(x.completing) {
      return None;
    }
    JoinedSnoc(chunks.value, CompletingBytes(x.completing));
    out := Some(Joined(chunks.value + [CompletingBytes(x.completing)]));
    FiveParts(Head(x), Positions(x.positions), LeBytes(|x.chunks|, U32), Chunks(x.chunks), CompletingBytes(x.completing));
  }

  // ----- what the message tells

  /** The lengths the source leaves to its callers. */
  predicate WellFormed(x: Pins) {
    |x.sessionId| == PIN && ChallengesFull(x.positions)
  }

  predicate ChallengesFull(ps: seq<Position>) {
    forall i :: 0 <= i < |ps| ==> |ps[i].eHat| == PIN
  }

  predicate SamePosition(p: Position, q: Position) {
    p.eHat == q.eHat && p.mode % 0x100 == q.mode % 0x100
  }

  predicate AllSame(ps: seq<Position>, qs: seq<Position>) {
    |ps| == |qs| && forall i :: 0 <= i < |ps| ==> SamePosition(ps[i], qs[i])
  }

  /** Equal up to what the fixed-width numbers cut off. */
  predicate Same(x: Pins, y: Pins) {
    && x.sessionId == y.sessionId
    && x.completingPosition % 0x1_0000_0000 == y.completingPosition % 0x1_0000_0000
    && AllSame(x.positions, y.positions)
    && x.chunks == y.chunks
    && x.completing == y.completing
  }

  lemma {:induction false} SplitSame(a: seq<byte>, b: seq<byte>, a': seq<byte>, b': seq<byte>)
    requires |a| == |a'|
    ensures a + b == a' + b' <==> a == a' && b == b'
  {
    assert (a + b)[..|a|] == a && (a + b)[|a|..] == b;
    assert (a' + b')[..|a'|] == a' && (a' + b')[|a'|..] == b';
  }

  lemma {:induction false} SameNumber(v: nat, w: nat, n: nat)
    ensures LeBytes(v, n) == LeBytes(w, n) <==> v % Pow256(n) == w % Pow256(n)
  {
    LeBytesWrap(v, n);
    LeBytesWrap(w, n);
    LeWriteRead(LeBytes(v, n));
    LeWriteRead(LeBytes(w, n));
  }

  lemma {:induction false} SameCount(v: nat, w: nat)
    requires v < Pow256(U32) && w < Pow256(U32) && LeBytes(v, U32) == LeBytes(w, U32)
    ensures v == w
  {
    LeReadWrite(v, U32);
    LeReadWrite(w, U32);
  }

  lemma {:induction false} SamePositions(ps: seq<Position>, qs: seq<Position>)
    requires |ps| == |qs|
    requires ChallengesFull(ps) && ChallengesFull(qs)
    ensures |Positions(ps)| == |Positions(qs)|
    ensures Positions(ps) == Positions(qs) <==> AllSame(ps, qs)
    decreases |ps|
  {
    if ps != [] {
      var n := |ps| - 1;
      SamePositions(ps[..n], qs[..n]);
      SplitSame(Positions(ps[..n]), PositionBytes(ps[n]), Positions(qs[..n]), PositionBytes(qs[n]));
      SameBytes(ps[n], qs[n]);
      LastSame(ps, qs);
    }
  }

  lemma {:induction false} SameBytes(p: Position, q: Position)
    requires |p.eHat| == |q.eHat|
    ensures |PositionBytes(p)| == |PositionBytes(q)|
    ensures PositionBytes(p) == PositionBytes(q) <==> SamePosition(p, q)
  {
    SplitSame(p.eHat, LeBytes(p.mode, 1), q.eHat, LeBytes(q.mode, 1));
    SameNumber(p.mode, q.mode, 1);
    assert Pow256(1) == 0x100 * Pow256(0) == 0x100;
  }

  lemma {:induction false} LastSame(ps: seq<Position>, qs: seq<Position>)
    requires |ps| == |qs| > 0
    ensures var n := |ps| - 1; AllSame(ps, qs) <==> AllSame(ps[..n], qs[..n]) && SamePosition(ps[n], qs[n])
  {
    var n := |ps| - 1;
    assert forall i :: 0 <= i < n ==> ps[..n][i] == ps[i] && qs[..n][i] == qs[i];
    if AllSame(ps[..n], qs[..n]) {
      forall i | 0 <= i < n ensures SamePosition(ps[i], qs[i]) {
        assert SamePosition(ps[..n][i], qs[..n][i]);
      }
    }
  }

  lemma {:induction false} SameChunks(cs: seq<Chunk>, ds: seq<Chunk>)
    requires |cs| == |ds|
    requires ChunksChecked(cs) && ChunksChecked(ds)
    ensures |Chunks(cs)| == |Chunks(ds)|
    ensures Chunks(cs) == Chunks(ds) <==> cs == ds
    decreases |cs|
  {
    if cs != [] {
      var n := |cs| - 1;
      SameChunks(cs[..n], ds[..n]);
      SplitSame(Chunks(cs[..n]), ChunkBytes(cs[n]), Chunks(ds[..n]), ChunkBytes(ds[n]));
      SplitSame(cs[n].hashOutputs, cs[n].covenantWrite, ds[n].hashOutputs, ds[n].covenantWrite);
      assert cs == cs[..n] + [cs[n]] && ds == ds[..n] + [ds[n]];
    }
  }

  lemma {:induction false} SameCompleting(c: Completing, d: Completing)
    requires CompletingChecked(c) && CompletingChecked(d)
    ensures CompletingBytes(c) == CompletingBytes(d) <==> c == d
  {
    SplitSame(c.hashOutputs, c.hin + (c.salt + (c.polyCoeffs + c.inputSetPolyProduct)),
              d.hashOutputs, d.hin + (d.salt + (d.polyCoeffs + d.inputSetPolyProduct)));
    SplitSame(c.hin, c.salt + (c.polyCoeffs + c.inputSetPolyProduct), d.hin, d.salt + (d.polyCoeffs + d.inputSetPolyProduct));
    SplitSame(c.salt, c.polyCoeffs + c.inputSetPolyProduct, d.salt, d.polyCoeffs + d.inputSetPolyProduct);
    SplitSame(c.polyCoeffs, c.inputSetPolyProduct, d.polyCoeffs, d.inputSetPolyProduct);
  }

  lemma {:induction false} SameHead(x: Pins, y: Pins)
    requires WellFormed(x) && WellFormed(y) && Countable(x) && Countable(y)
    ensures |Head(x)| == |Head(y)|
    ensures Head(x) == Head(y) <==>
              && x.sessionId == y.sessionId
              && |x.positions| == |y.positions|
              && x.completingPosition % 0x1_0000_0000 == y.completingPosition % 0x1_0000_0000
  {
    var a, b := Ascii(TAG) + x.sessionId, Ascii(TAG) + y.sessionId;
    var m, n := LeBytes(|x.positions|, U32), LeBytes(|y.positions|, U32);
    SplitSame(a + m, LeBytes(x.completingPosition, U32), b + n, LeBytes(y.completingPosition, U32));
    SplitSame(a, m, b, n);
    SplitSame(Ascii(TAG), x.sessionId, Ascii(TAG), y.sessionId);
    SameNumber(x.completingPosition, y.completingPosition, U32);
    Pow256Values();
    if m == n {
      SameCount(|x.positions|, |y.positions|);
    }
  }

  /** The part behind the positions. */
  function Tail(x: Pins): seq<byte> {
    LeBytes(|x.chunks|, U32) + (Chunks(x.chunks) + CompletingBytes(x.completing))
  }

  lemma {:induction false} SameTail(x: Pins, y: Pins)
    requires Checked(x) && Checked(y) && Countable(x) && Countable(y)
    ensures Tail(x) == Tail(y) <==> x.chunks == y.chunks && x.completing == y.completing
  {
    SplitSame(LeBytes(|x.chunks|, U32), Chunks(x.chunks) + CompletingBytes(x.completing),
              LeBytes(|y.chunks|, U32), Chunks(y.chunks) + CompletingBytes(y.completing));
    if LeBytes(|x.chunks|, U32) == LeBytes(|y.chunks|, U32) {
      SameCount(|x.chunks|, |y.chunks|);
      SameChunks(x.chunks, y.chunks);
      SplitSame(Chunks(x.chunks), CompletingBytes(x.completing), Chunks(y.chunks), CompletingBytes(y.completing));
      SameCompleting(x.completing, y.completing);
    }
  }

  /** With session id and challenges of their 32 bytes, equal messages mean equal pins, and only those. */
  lemma {:induction false} MessageIdentifies(x: Pins, y: Pins)
    requires Checked(x) && Checked(y) && Countable(x) && Countable(y) && WellFormed(x) && WellFormed(y)
    ensures Message(x) == Message(y) <==> Same(x, y)
  {
    SameHead(x, y);
    SplitSame(Head(x), Positions(x.positions) + Tail(x), Head(y), Positions(y.positions) + Tail(y));
    if |x.positions| == |y.positions| {
      SamePositions(x.positions, y.positions);
      SplitSame(Positions(x.positions), Tail(x), Positions(y.positions), Tail(y));
      SameTail(x, y);
    }
  }

  /** Nothing checks the challenges: with other lengths two lists of positions share one message. */
  lemma {:induction false} ChallengeLengthsMatter(x: Pins, b: byte)
    ensures var p, q := Position([b], b), Position([], b);
            Message(x.(positions := [p, q])) == Message(x.(positions := [q, p]))
  {
    var p, q := Position([b], b), Position([], b);
    TwoPositions(p, q);
    TwoPositions(q, p);
    assert LeBytes(b, 1) == [b % 256] + LeBytes(b / 256, 0) == [b];
    assert PositionBytes(p) + PositionBytes(q) == [b, b, b] == PositionBytes(q) + PositionBytes(p);
  }

  lemma {:induction false} TwoPositions(p: Position, q: Position)
    ensures Positions([p, q]) == PositionBytes(p) + PositionBytes(q)
  {
    assert [p, q][..1] == [p] && [p][..0] == [];
    assert Positions([p]) == Positions([p][..0]) + PositionBytes(p) == PositionBytes(p);
  }
}
