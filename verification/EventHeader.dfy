/**
  The encrypted event header. Its encoder checks less than its decoder reads: ids and
  hashes that may be absent or repeated are written at whatever length they have.
 */
module EventHeader {
  import opened Options
  import opened Bytes
  import opened Records
  import opened Contracts

  datatype Header = Header(schemaVersion: nat, eventId: seq<byte>, eventType: seq<byte>, orgClientId: seq<byte>,
                           walletClientId: Option<seq<byte>>, subjectId: Option<seq<byte>>, actorUserId: seq<byte>,
                           clientTimestampMs: nat, parentEventHashes: seq<seq<byte>>,
                           semanticCommitment: Option<seq<byte>>, actorSignature: seq<byte>)

  const PREAMBLE: seq<byte> := [0x05, 1]
  const ID_LENGTH: nat := 16
  const HASH_LENGTH: nat := 32
  const ID: Shape := Block(ID_LENGTH)
  const HASH: Shape := Block(HASH_LENGTH)
  const LAYOUT: seq<Shape> :=
    [U8, ID, DELIMITED, ID, Optional([ID]), Optional([ID]), ID, LONG, Many(U16, [HASH]), Optional([HASH]), DELIMITED]

  // ----- the encoder, as it is

  /** A present id or hash behind its flag, at whatever length. */
  function Raw(b: Option<seq<byte>>): Written {
    if b.None? then Wrote([0]) else Wrote([1] + b.value)
  }

  /** The fields in writing order. */
  function Parts(h: Header): seq<Written> {
    [Be(h.schemaVersion, 1), Wrote(h.eventId), Delimited(h.eventType), Wrote(h.orgClientId), Raw(h.walletClientId),
     Raw(h.subjectId), Wrote(h.actorUserId), Be(h.clientTimestampMs, U64),
     Cat(Be(|h.parentEventHashes|, U16), Wrote(Joined(h.parentEventHashes))), Raw(h.semanticCommitment),
     Delimited(h.actorSignature)]
  }

  function CatAll(parts: seq<Written>): Written {
    if parts == [] then Wrote([]) else Cat(parts[0], CatAll(parts[1..]))
  }

  predicate Checked(h: Header) {
    |h.eventId| == ID_LENGTH && |h.orgClientId| == ID_LENGTH && |h.actorUserId| == ID_LENGTH && h.eventType != []
  }

  /** `encodeEncryptedEventHeaderV1` */
  function EncodeV1(h: Header): Written {
    if Checked(h) then Cat(Wrote(PREAMBLE), CatAll(Parts(h))) else OutOfRange
  }

  // ----- the decoder

  function Present(b: Option<seq<byte>>): Value {
    Maybe(if b.None? then None else Some([Octets(b.value)]))
  }

  function ValuesOf(h: Header): seq<Value> {
    [Count(h.schemaVersion), Octets(h.eventId), Octets(h.eventType), Octets(h.orgClientId), Present(h.walletClientId),
     Present(h.subjectId), Octets(h.actorUserId), Count(h.clientTimestampMs), Items(TextItems(h.parentEventHashes)),
     Present(h.semanticCommitment), Octets(h.actorSignature)]
  }

  /** A value read as an optional block. */
  ghost predicate OptionalBlock(v: Value, size: nat) {
    v.Maybe? && (v.parts.Some? ==> |v.parts.value| == 1 && v.parts.value[0].Octets? && |v.parts.value[0].bytes| == size)
  }

  function BlockOf(v: Value, ghost size: nat): Option<seq<byte>>
    requires OptionalBlock(v, size)
  {
    if v.parts.None? then None else Some(v.parts.value[0].bytes)
  }

  lemma {:induction false} OptionalKind(v: Value, size: nat)
    requires Typed(Optional([Block(size)]), v)
    ensures OptionalBlock(v, size)
  {
    if v.parts.Some? {
      assert Typed([Block(size)][0], v.parts.value[0]);
    }
  }

  lemma {:induction false} HashItems(xs: seq<seq<Value>>)
    requires ItemsTyped([HASH], xs)
    ensures AreTexts(xs) && forall i :: 0 <= i < |xs| ==> |xs[i][0].bytes| == HASH_LENGTH
  {
    forall i | 0 <= i < |xs| ensures |xs[i]| == 1 && xs[i][0].Octets? && |xs[i][0].bytes| == HASH_LENGTH {
      assert Typed([HASH][0], xs[i][0]);
    }
  }

  ghost predicate Kinds(vs: seq<Value>) {
    && |vs| == 11 && vs[0].Count? && vs[1].Octets? && vs[2].Octets? && vs[3].Octets?
    && OptionalBlock(vs[4], ID_LENGTH) && OptionalBlock(vs[5], ID_LENGTH) && vs[6].Octets? && vs[7].Count?
    && vs[8].Items? && AreTexts(vs[8].items) && (forall i :: 0 <= i < |vs[8].items| ==> |vs[8].items[i][0].bytes| == HASH_LENGTH)
    && OptionalBlock(vs[9], HASH_LENGTH) && vs[10].Octets?
  }

  lemma {:induction false} RecordKinds(vs: seq<Value>)
    requires AllTyped(LAYOUT, vs)
    ensures Kinds(vs)
  {
    assert Typed(LAYOUT[0], vs[0]) && Typed(LAYOUT[1], vs[1]) && Typed(LAYOUT[2], vs[2]) && Typed(LAYOUT[3], vs[3]);
    assert Typed(LAYOUT[4], vs[4]) && Typed(LAYOUT[5], vs[5]) && Typed(LAYOUT[6], vs[6]) && Typed(LAYOUT[7], vs[7]);
    assert Typed(LAYOUT[8], vs[8]) && Typed(LAYOUT[9], vs[9]) && Typed(LAYOUT[10], vs[10]);
    OptionalKind(vs[4], ID_LENGTH);
    OptionalKind(vs[5], ID_LENGTH);
    OptionalKind(vs[9], HASH_LENGTH);
    HashItems(vs[8].items);
  }

  function HeaderOf(vs: seq<Value>): Header
    requires Kinds(vs)
  {
    Header(vs[0].n, vs[1].bytes, vs[2].bytes, vs[3].bytes, BlockOf(vs[4], ID_LENGTH), BlockOf(vs[5], ID_LENGTH), vs[6].bytes,
           vs[7].n, TextsOf(vs[8].items), BlockOf(vs[9], HASH_LENGTH), vs[10].bytes)
  }

  /** `decodeEncryptedEventHeaderV1` */
  function DecodeV1(data: seq<byte>): Parsed<Header> {
    var r := ReadRecord(PREAMBLE, LAYOUT, data);
    if r.Bad? then Bad(r.error)
    else
      RecordKinds(r.value);
      Got(HeaderOf(r.value), r.next)
  }

  method DecodeEncryptedEventHeaderV1(bytes: seq<byte>) returns (r: Parsed<Header>)
    ensures r == DecodeV1(bytes)
  {
    var vs :- TakeRecord(PREAMBLE, LAYOUT, bytes);
    RecordKinds(vs);
    r := Got(HeaderOf(vs), |bytes|);
  }

  // ----- when they agree

  predicate Length(b: Option<seq<byte>>, size: nat) {
    b.Some? ==> |b.value| == size
  }

  /** Every optional id is 16 bytes, every hash 32. */
  predicate WellFormed(h: Header) {
    && Length(h.walletClientId, ID_LENGTH) && Length(h.subjectId, ID_LENGTH) && Length(h.semanticCommitment, HASH_LENGTH)
    && forall i :: 0 <= i < |h.parentEventHashes| ==> |h.parentEventHashes[i]| == HASH_LENGTH
  }

  lemma {:induction false} RawIs(b: Option<seq<byte>>, size: nat)
    requires Length(b, size)
    ensures WriteOne(Optional([Block(size)]), Present(b)) == Raw(b)
  {
    if b.Some? {
      var v := Octets(b.value);
      assert [Block(size)][1..] == [] && [v][1..] == [];
      assert WriteAll([Block(size)], [v]) == Cat(Wrote(b.value), Wrote([]));
      assert [1] + (b.value + []) == [1] + b.value;
    } else {
      assert [0] + [] == [0 as byte];
    }
  }

  lemma {:induction false} JoinedIs(bs: seq<seq<byte>>)
    requires forall i :: 0 <= i < |bs| ==> |bs[i]| == HASH_LENGTH
    ensures WriteItems([HASH], TextItems(bs)) == Wrote(Joined(bs))
    decreases |bs|
  {
    if bs != [] {
      JoinedIs(bs[1..]);
      var v := Octets(bs[0]);
      assert [HASH][1..] == [] && [v][1..] == [];
      assert WriteAll([HASH], [v]) == Cat(Wrote(bs[0]), Wrote([]));
      assert bs[0] + [] == bs[0];
      assert TextItems(bs)[1..] == TextItems(bs[1..]);
    }
  }

  lemma {:induction false} CatAllIs(parts: seq<Written>, shapes: seq<Shape>, vs: seq<Value>)
    requires |parts| == |shapes| == |vs|
    requires forall i :: 0 <= i < |parts| ==> parts[i] == WriteOne(shapes[i], vs[i])
    ensures CatAll(parts) == WriteAll(shapes, vs)
    decreases |parts|
  {
    if parts != [] {
      forall i | 0 < i < |parts| ensures parts[i] == parts[1..][i - 1] && shapes[i] == shapes[1..][i - 1] && vs[i] == vs[1..][i - 1] {
      }
      CatAllIs(parts[1..], shapes[1..], vs[1..]);
    }
  }

  /** The ids that must be there are 16 bytes. */
  predicate IdsFull(h: Header) {
    |h.eventId| == ID_LENGTH && |h.orgClientId| == ID_LENGTH && |h.actorUserId| == ID_LENGTH
  }

  lemma {:induction false} PartsAreLayout(h: Header)
    requires IdsFull(h) && WellFormed(h)
    ensures CatAll(Parts(h)) == WriteAll(LAYOUT, ValuesOf(h))
  {
    var parts, vs := Parts(h), ValuesOf(h);
    RawIs(h.walletClientId, ID_LENGTH);
    RawIs(h.subjectId, ID_LENGTH);
    RawIs(h.semanticCommitment, HASH_LENGTH);
    JoinedIs(h.parentEventHashes);
    FixedParts(h);
    CatAllIs(parts, LAYOUT, vs);
  }

  /** On well-formed headers the raw encoder writes the layout. */
  lemma {:induction false} EncodesLayout(h: Header)
    requires Checked(h) && WellFormed(h)
    ensures EncodeV1(h) == WriteDocument(PREAMBLE, LAYOUT, ValuesOf(h))
  {
    PartsAreLayout(h);
  }

  lemma {:induction false} FixedParts(h: Header)
    requires IdsFull(h)
    ensures forall i :: 0 <= i < 11 && i !in {4, 5, 8, 9} ==> Parts(h)[i] == WriteOne(LAYOUT[i], ValuesOf(h)[i])
  {
  }

  lemma {:induction false} HeaderForth(h: Header)
    requires WellFormed(h)
    ensures Kinds(ValuesOf(h)) && HeaderOf(ValuesOf(h)) == h
  {
    TextItemsInverse(h.parentEventHashes);
    var items := TextItems(h.parentEventHashes);
    assert forall i :: 0 <= i < |items| ==> items[i] == [Octets(h.parentEventHashes[i])];
  }

  lemma {:induction false} HeaderBack(vs: seq<Value>)
    requires AllTyped(LAYOUT, vs) && Kinds(vs)
    ensures ValuesOf(HeaderOf(vs)) == vs && IdsFull(HeaderOf(vs))
  {
    assert Typed(LAYOUT[1], vs[1]) && Typed(LAYOUT[3], vs[3]) && Typed(LAYOUT[6], vs[6]);
    TextsOfInverse(vs[8].items);
    BlockBack(vs[4], ID_LENGTH);
    BlockBack(vs[5], ID_LENGTH);
    BlockBack(vs[9], HASH_LENGTH);
  }

  lemma {:induction false} BlockBack(v: Value, size: nat)
    requires OptionalBlock(v, size)
    ensures Present(BlockOf(v, size)) == v
  {
    if v.parts.Some? {
      assert v.parts.value == [v.parts.value[0]];
    }
  }

  lemma {:induction false} HeaderIsWellFormed(vs: seq<Value>)
    requires Kinds(vs)
    ensures WellFormed(HeaderOf(vs))
  {
  }

  /** Decoding gives back an encoded header exactly when its lengths are right. */
  lemma {:induction false} RoundTripIff(h: Header)
    requires EncodeV1(h).Wrote?
    ensures DecodeV1(EncodeV1(h).bytes) == Got(h, |EncodeV1(h).bytes|) <==> WellFormed(h)
  {
    var data := EncodeV1(h).bytes;
    if WellFormed(h) {
      EncodesLayout(h);
      DocumentExact(PREAMBLE, LAYOUT, ValuesOf(h), data);
      HeaderForth(h);
    }
    if DecodeV1(data) == Got(h, |data|) {
      var r := ReadRecord(PREAMBLE, LAYOUT, data);
      RecordKinds(r.value);
      HeaderIsWellFormed(r.value);
    }
  }

  /** A header is decoded from the bytes of its layout and from no others. */
  lemma {:induction false} DecodesExactly(data: seq<byte>, h: Header)
    ensures DecodeV1(data) == Got(h, |data|) <==>
            IdsFull(h) && WellFormed(h) && Cat(Wrote(PREAMBLE), CatAll(Parts(h))) == Wrote(data)
  {
    DocumentExact(PREAMBLE, LAYOUT, ValuesOf(h), data);
    var r := ReadRecord(PREAMBLE, LAYOUT, data);
    if IdsFull(h) && WellFormed(h) {
      PartsAreLayout(h);
      HeaderForth(h);
    }
    if DecodeV1(data) == Got(h, |data|) {
      RecordKinds(r.value);
      HeaderIsWellFormed(r.value);
      HeaderBack(r.value);
    }
  }

  /** Well-formed headers are told apart by their bytes. */
  lemma {:induction false} PreimageIdentifies(g: Header, h: Header)
    requires EncodeV1(g).Wrote? && EncodeV1(g) == EncodeV1(h) && WellFormed(g) && WellFormed(h)
    ensures g == h
  {
    RoundTripIff(g);
    RoundTripIff(h);
  }

  /** Without the right lengths they are not: only the joined hashes are written. */
  lemma {:induction false} LengthsMatter(h: Header, hash: seq<byte>)
    ensures EncodeV1(h.(parentEventHashes := [hash, []])) == EncodeV1(h.(parentEventHashes := [[], hash]))
  {
    var none: seq<byte> := [];
    JoinedTwo(hash, none);
    JoinedTwo(none, hash);
    assert hash + none == none + hash;
  }

  lemma {:induction false} JoinedTwo(a: seq<byte>, b: seq<byte>)
    ensures Joined([a, b]) == a + b
  {
    assert [a, b][1..] == [b] && [b][1..] == [];
    assert Joined([b]) == b + Joined([b][1..]) == b;
  }
}
