/**
  The canonical byte form of an authorization artifact: its decoder, the comparison after
  re-encoding, and the walk to the issuer key id. Texts are their UTF-8 bytes.
 */
module Artifact {
  import opened Bytes
  import opened Records

  const TEXT := Text(U16, true)
  const COUNTER := Number(U64, true)

  /** Reading a longer list is reading its front, then its back. */
  lemma {:induction false} ReadAllSplit(front: seq<Shape>, back: seq<Shape>, data: seq<byte>, offset: nat)
    ensures ReadAll(front + back, data, offset) ==
            var a := ReadAll(front, data, offset);
            if a.Bad? then a else Prepend(a.value, ReadAll(back, data, a.next))
    decreases |front|
  {
    if front == [] {
      assert front + back == back;
      PrependNone(ReadAll(back, data, offset));
    } else {
      assert (front + back)[0] == front[0] && (front + back)[1..] == front[1..] + back;
      var v := ReadOne(front[0], data, offset);
      if v.Got? {
        ReadAllSplit(front[1..], back, data, v.next);
        var a := ReadAll(front[1..], data, v.next);
        if a.Got? {
          PrependTwice([v.value], a.value, ReadAll(back, data, a.next));
        }
      }
    }
  }

  lemma {:induction false} PrependTwice<T>(xs: seq<T>, ys: seq<T>, r: Parsed<seq<T>>)
    ensures Prepend(xs, Prepend(ys, r)) == Prepend(xs + ys, r)
  {
    assert r.Got? ==> xs + (ys + r.value) == (xs + ys) + r.value;
  }

  // ----- the artifact

  datatype Artifact = Artifact(subjectKind: seq<byte>, protocol: seq<byte>, network: seq<byte>,
                               subjectCommitment: seq<byte>, policyRoot: seq<byte>, scope: seq<byte>,
                               maxUses: nat, issuedAt: nat, expiresAt: nat, artifactNonce: seq<byte>,
                               issuerKid: seq<byte>, strength: seq<byte>, burnSetAggregate: seq<byte>)

  /** "SIGBASH.AUTHZ.ARTIFACT.V1" */
  const PREFIX: seq<byte> :=
    [0x53, 0x49, 0x47, 0x42, 0x41, 0x53, 0x48, 0x2e, 0x41, 0x55, 0x54, 0x48, 0x5a,
     0x2e, 0x41, 0x52, 0x54, 0x49, 0x46, 0x41, 0x43, 0x54, 0x2e, 0x56, 0x31]
  const VERSION: nat := 1
  const HASH: nat := 32

  const NAMES: seq<Shape> := [TEXT, TEXT, TEXT]
  const BODY: seq<Shape> := [Block(HASH), Block(HASH), Block(HASH), COUNTER, COUNTER, COUNTER, Block(HASH)]
  const TAIL: seq<Shape> := [TEXT, TEXT, Block(HASH)]

  function NamesOf(a: Artifact): seq<Value> {
    [Octets(a.subjectKind), Octets(a.protocol), Octets(a.network)]
  }

  function BodyOf(a: Artifact): seq<Value> {
    [Octets(a.subjectCommitment), Octets(a.policyRoot), Octets(a.scope),
     Count(a.maxUses), Count(a.issuedAt), Count(a.expiresAt), Octets(a.artifactNonce)]
  }

  function TailOf(a: Artifact): seq<Value> {
    [Octets(a.issuerKid), Octets(a.strength), Octets(a.burnSetAggregate)]
  }

  function FieldsOf(a: Artifact): seq<Value> {
    NamesOf(a) + BodyOf(a) + TailOf(a)
  }

  function Shapes(): seq<Shape> {
    NAMES + BODY + TAIL
  }

  /** `encodeAuthorizationArtifactV1` */
  function EncodeV1(a: Artifact): Written {
    Cat(Wrote(PREFIX), Cat(Le(VERSION, U16), WriteAll(Shapes(), FieldsOf(a))))
  }

  predicate Shaped(vs: seq<Value>) {
    && |vs| == |NAMES| + |BODY| + |TAIL|
    && (forall i :: 0 <= i < |vs| ==> Kind(Shapes()[i], vs[i]))
  }

  function ArtifactOf(vs: seq<Value>): Artifact
    requires Shaped(vs)
  {
    Artifact(vs[0].bytes, vs[1].bytes, vs[2].bytes, vs[3].bytes, vs[4].bytes, vs[5].bytes,
             vs[6].n, vs[7].n, vs[8].n, vs[9].bytes, vs[10].bytes, vs[11].bytes, vs[12].bytes)
  }

  lemma {:induction false} FieldsShaped(a: Artifact)
    ensures Shaped(FieldsOf(a)) && ArtifactOf(FieldsOf(a)) == a
  {
  }

  lemma {:induction false} ArtifactFields(vs: seq<Value>)
    requires Shaped(vs)
    ensures FieldsOf(ArtifactOf(vs)) == vs
  {
  }

  /** The field walk of the decoder: everything but the final comparison. */
  function WalkAt(data: seq<byte>): (r: Parsed<Artifact>)
    ensures r.Got? ==> r.next == |data|
  {
    var p := TakeAt(data, 0, |PREFIX|);
    if p.Bad? then Bad(p.error)
    else if p.value != PREFIX then Bad(Malformed)
    else
      var v := LeAt(data, p.next, U16);
      if v.Bad? then Bad(v.error)
      else if v.value != VERSION then Bad(UnsupportedVersion)
      else
        var fields := ReadAll(Shapes(), data, v.next);
        if fields.Bad? then Bad(fields.error)
        else if fields.next != |data| then Bad(Malformed)
        else Got(ArtifactOf(fields.value), fields.next)
  }

  /** `decodeAuthorizationArtifactV1`: the walk, then re-encoding and comparing. */
  function DecodeV1(data: seq<byte>): Parsed<Artifact> {
    var a := WalkAt(data);
    if a.Bad? then a
    else if EncodeV1(a.value) != Wrote(data) then Bad(Malformed)
    else a
  }

  /** Where the three parts of an encoding stand. */
  lemma {:induction false} EncodedParts(a: Artifact, data: seq<byte>)
    ensures var fields := WriteAll(Shapes(), FieldsOf(a));
            EncodeV1(a) == Wrote(data) <==>
            (&& At(data, 0, PREFIX) && At(data, |PREFIX|, LeBytes(VERSION, U16))
             && fields.Wrote? && At(data, |PREFIX| + U16, fields.bytes)
             && |PREFIX| + U16 + |fields.bytes| == |data|)
  {
    var version, fields := Le(VERSION, U16), WriteAll(Shapes(), FieldsOf(a));
    Pow256Values();
    if fields.Wrote? {
      AtConcat(data, 0, PREFIX, version.bytes + fields.bytes);
      AtConcat(data, |PREFIX|, version.bytes, fields.bytes);
      var whole := PREFIX + (version.bytes + fields.bytes);
      AtAll(data, whole);
    }
  }

  lemma {:induction false} AtAll(data: seq<byte>, bytes: seq<byte>)
    ensures At(data, 0, bytes) && |bytes| == |data| <==> bytes == data
  {
  }

  /** The walk accepts exactly the encodings, and returns what was encoded. */
  lemma {:induction false} WalkIsInverse(data: seq<byte>, a: Artifact)
    ensures WalkAt(data) == Got(a, |data|) <==> EncodeV1(a) == Wrote(data)
  {
    EncodedParts(a, data);
    Pow256Values();
    if EncodeV1(a) == Wrote(data) {
      TakeReads(data, 0, PREFIX);
      LeReads(data, |PREFIX|, VERSION, U16);
      AllWrittenRead(Shapes(), FieldsOf(a), data, |PREFIX| + U16);
      FieldsShaped(a);
    }
    if WalkAt(data) == Got(a, |data|) {
      var at := |PREFIX| + U16;
      TakenStands(data, 0, |PREFIX|);
      LeAtWritten(data, |PREFIX|, U16);
      AllReadWrite(Shapes(), data, at);
      ArtifactFields(ReadAll(Shapes(), data, at).value);
    }
  }

  /** The comparison after re-encoding never rejects what the walk accepted. */
  lemma {:induction false} ReencodeNeverRejects(data: seq<byte>)
    ensures DecodeV1(data) == WalkAt(data)
  {
    if WalkAt(data).Got? {
      WalkIsInverse(data, WalkAt(data).value);
    }
  }

  /** The decoder accepts exactly the encoder's image. */
  lemma {:induction false} DecodesExactlyEncodings(data: seq<byte>, a: Artifact)
    ensures DecodeV1(data) == Got(a, |data|) <==> EncodeV1(a) == Wrote(data)
  {
    ReencodeNeverRejects(data);
    WalkIsInverse(data, a);
  }

  /** What `encodeAuthorizationArtifactV1` demands of a record. */
  predicate Encodable(a: Artifact) {
    && |a.subjectCommitment| == HASH && |a.policyRoot| == HASH && |a.scope| == HASH
    && |a.artifactNonce| == HASH && |a.burnSetAggregate| == HASH
    && a.maxUses < Pow256(U64) && a.issuedAt < Pow256(U64) && a.expiresAt < Pow256(U64)
    && |a.subjectKind| < Pow256(U16) && |a.protocol| < Pow256(U16) && |a.network| < Pow256(U16)
    && |a.issuerKid| < Pow256(U16) && |a.strength| < Pow256(U16)
  }

  lemma {:induction false} LayoutOf(a: Artifact)
    ensures Shapes() == [TEXT, TEXT, TEXT, Block(HASH), Block(HASH), Block(HASH), COUNTER, COUNTER, COUNTER,
                         Block(HASH), TEXT, TEXT, Block(HASH)]
    ensures FieldsOf(a) == [Octets(a.subjectKind), Octets(a.protocol), Octets(a.network),
                            Octets(a.subjectCommitment), Octets(a.policyRoot), Octets(a.scope),
                            Count(a.maxUses), Count(a.issuedAt), Count(a.expiresAt), Octets(a.artifactNonce),
                            Octets(a.issuerKid), Octets(a.strength), Octets(a.burnSetAggregate)]
  {
  }

  lemma {:induction false} WritableFields(a: Artifact)
    requires forall i :: 0 <= i < |FieldsOf(a)| ==> WriteOne(Shapes()[i], FieldsOf(a)[i]).Wrote?
    ensures Encodable(a)
  {
    LayoutOf(a);
    var shapes, vs := Shapes(), FieldsOf(a);
    assert WriteOne(shapes[0], vs[0]).Wrote? && WriteOne(shapes[1], vs[1]).Wrote? && WriteOne(shapes[2], vs[2]).Wrote?;
    assert WriteOne(shapes[3], vs[3]).Wrote? && WriteOne(shapes[4], vs[4]).Wrote? && WriteOne(shapes[5], vs[5]).Wrote?;
    assert WriteOne(shapes[6], vs[6]).Wrote? && WriteOne(shapes[7], vs[7]).Wrote? && WriteOne(shapes[8], vs[8]).Wrote?;
    assert WriteOne(shapes[9], vs[9]).Wrote? && WriteOne(shapes[10], vs[10]).Wrote?;
    assert WriteOne(shapes[11], vs[11]).Wrote? && WriteOne(shapes[12], vs[12]).Wrote?;
  }

  lemma {:induction false} EncodableFields(a: Artifact)
    requires Encodable(a)
    ensures forall i :: 0 <= i < |FieldsOf(a)| ==> WriteOne(Shapes()[i], FieldsOf(a)[i]).Wrote?
  {
    LayoutOf(a);
  }

  /** The encoder throws on every other record. */
  lemma {:induction false} EncodesIffEncodable(a: Artifact)
    ensures EncodeV1(a).Wrote? <==> Encodable(a)
  {
    assert Le(VERSION, U16).Wrote? by { Pow256Values(); }
    AllWritable(Shapes(), FieldsOf(a));
    if EncodeV1(a).Wrote? {
      WritableFields(a);
    }
    if Encodable(a) {
      EncodableFields(a);
    }
  }

  // ----- decoding as the source runs it

  method DecodeAuthorizationArtifactV1(input: seq<byte>) returns (r: Parsed<Artifact>)
    ensures r == DecodeV1(input)
  {
    var d := new Decoder(input);
    var prefix :- d.ReadBytes(|PREFIX|);
    if prefix != PREFIX {
      return Bad(Malformed);
    }
    var version :- d.ReadLe(U16);
    if version != VERSION {
      return Bad(UnsupportedVersion);
    }
    var vs :- TakeAll(d, Shapes());
    if d.offset != |input| {
      return Bad(Malformed);
    }
    var fields := ArtifactOf(vs);
    if EncodeV1(fields) != Wrote(input) {
      return Bad(Malformed);
    }
    r := Got(fields, d.offset);
  }

  // ----- the issuer key id, by a walk from the front

  /** One length-prefixed text of the front walk. */
  method FrontText(input: seq<byte>, cursor: nat) returns (r: Parsed<seq<byte>>)
    ensures r == TextAt(input, cursor, U16, true)
  {
    if cursor + 2 > |input| {
      return Bad(Truncated);
    }
    TwoBytes(input[cursor..cursor + 2]);
    var n: nat := input[cursor] as int + input[cursor + 1] as int * 0x100;
    if cursor + 2 + n > |input| {
      return Bad(Truncated);
    }
    r := Got(input[cursor + 2..cursor + 2 + n], cursor + 2 + n);
  }

  lemma {:induction false} TwoBytes(s: seq<byte>)
    requires |s| == 2
    ensures LeNat(s) == s[0] as int + s[1] as int * 0x100
  {
    assert s[1..][1..] == [];
    assert LeNat(s[1..]) == s[1] as int + 256 * LeNat(s[1..][1..]);
  }

  /** Bytes between the network and the issuer key id. */
  const FIXED: nat := (32 + 32 + 32) + (8 + 8 + 8) + 32

  /** The text behind three texts and the fixed fields from `start` on. */
  function KidFrom(input: seq<byte>, start: nat): seq<byte> {
    var names := ReadAll(NAMES, input, start);
    if names.Bad? then []
    else
      var kid := TextAt(input, names.next + FIXED, U16, true);
      if kid.Bad? then [] else kid.value
  }

  const START: nat := |PREFIX| + U16

  /** `issuerKidFromEncoding` */
  method IssuerKidFromEncoding(input: seq<byte>) returns (kid: seq<byte>)
    ensures kid == KidFrom(input, START)
  {
    var start: nat := |PREFIX| + 2;
    ReadNone(NAMES, input, start);
    ReadFrom(NAMES, 0, input, start);
    var subjectKind := FrontText(input, start);
    if subjectKind.Bad? {
      return [];
    }
    ReadFrom(NAMES, 1, input, subjectKind.next);
    var protocol := FrontText(input, subjectKind.next);
    if protocol.Bad? {
      return [];
    }
    ReadFrom(NAMES, 2, input, protocol.next);
    var network := FrontText(input, protocol.next);
    if network.Bad? {
      return [];
    }
    ReadNone(NAMES, input, network.next);
    var cursor := network.next;
    cursor := cursor + 32 + 32 + 32;
    cursor := cursor + 8 + 8 + 8;
    cursor := cursor + 32;
    var r := FrontText(input, cursor);
    kid := if r.Bad? then [] else r.value;
  }

  /** A block is as long as its shape says. */
  lemma {:induction false} BodyLength(data: seq<byte>, offset: nat)
    requires ReadAll(BODY, data, offset).Got?
    ensures ReadAll(BODY, data, offset).next == offset + FIXED
  {
    ReadNone(BODY, data, offset);
    var at := offset;
    for k := 0 to |BODY|
      invariant ReadAll(BODY[k..], data, at).Got?
      invariant ReadAll(BODY[k..], data, at).next == ReadAll(BODY, data, offset).next
      invariant at == offset + SizeTo(k)
    {
      ReadFrom(BODY, k, data, at);
      at := ReadOne(BODY[k], data, at).next;
    }
    ReadNone(BODY, data, at);
  }

  function SizeTo(k: nat): nat {
    if k <= 3 then 32 * k else if k <= 6 then 96 + 8 * (k - 3) else FIXED
  }

  lemma {:induction false} TailKid(input: seq<byte>, offset: nat)
    requires ReadAll(TAIL, input, offset).Got?
    ensures var kid := TextAt(input, offset, U16, true);
            kid.Got? && ReadAll(TAIL, input, offset).value[0] == Octets(kid.value)
  {
    ReadNone(TAIL, input, offset);
    ReadFrom(TAIL, 0, input, offset);
  }

  /** The walk from the front finds the eleventh field of a record that reads. */
  lemma {:induction false} KidOfFields(input: seq<byte>, start: nat)
    requires ReadAll(Shapes(), input, start).Got?
    ensures ReadAll(Shapes(), input, start).value[10] == Octets(KidFrom(input, start))
  {
    ReadAllSplit(NAMES + BODY, TAIL, input, start);
    ReadAllSplit(NAMES, BODY, input, start);
    var names := ReadAll(NAMES, input, start);
    BodyLength(input, names.next);
    var body := ReadAll(BODY, input, names.next);
    TailKid(input, body.next);
    var tail := ReadAll(TAIL, input, body.next);
    TenthBehind(names.value, body.value, tail.value);
  }

  lemma {:induction false} TenthBehind<T>(names: seq<T>, body: seq<T>, tail: seq<T>)
    requires |names| == 3 && |body| == 7 && tail != []
    ensures (names + body + tail)[10] == tail[0]
  {
  }

  lemma {:induction false} AcceptedFields(input: seq<byte>, a: Artifact)
    requires DecodeV1(input) == Got(a, |input|)
    ensures ReadAll(Shapes(), input, START).Got? && ReadAll(Shapes(), input, START).value[10] == Octets(a.issuerKid)
  {
    ReencodeNeverRejects(input);
  }

  /** The front walk finds the issuer key id of every input the decoder accepts. */
  lemma {:induction false} FrontWalkFindsKid(input: seq<byte>, a: Artifact)
    requires DecodeV1(input) == Got(a, |input|)
    ensures KidFrom(input, START) == a.issuerKid
  {
    AcceptedFields(input, a);
    KidOfFields(input, START);
  }
}
