/**
  The approval commitment: the byte form whose tagged hash identifies a transaction.
 */
module Approval {
  import opened Options
  import opened Bytes
  import opened Records
  import opened Contracts

  datatype ApprovalInput = ApprovalInput(outpointTxid: seq<byte>, outpointVout: nat, sequence: nat, prevoutAmount: nat,
                                         prevoutScriptPubkey: seq<byte>, sighashType: nat)
  datatype ApprovalOutput = ApprovalOutput(amount: nat, scriptPubkey: seq<byte>)
  datatype Approval = Approval(network: Network, walletId: seq<byte>, policyVersionId: seq<byte>,
                               selectedTapleafHash: seq<byte>, signerIds: seq<seq<byte>>, txVersion: nat, txLocktime: nat,
                               inputs: seq<ApprovalInput>, outputs: seq<ApprovalOutput>)

  const HEADER: seq<byte> := [0x03, 1]
  const HASH: Shape := Block(32)
  const ID_LIST: Shape := Many(U16, [DELIMITED])
  const INPUT: seq<Shape> := [HASH, WORD, WORD, LONG, DELIMITED, WORD]
  const OUTPUT: seq<Shape> := [LONG, DELIMITED]
  const LAYOUT: seq<Shape> :=
    [U8, HASH, DELIMITED, HASH, ID_LIST, WORD, WORD, Many(U16, INPUT), Many(U16, OUTPUT)]

  // ----- inputs and outputs as items

  function InputValues(i: ApprovalInput): seq<Value> {
    [Octets(i.outpointTxid), Count(i.outpointVout), Count(i.sequence), Count(i.prevoutAmount),
     Octets(i.prevoutScriptPubkey), Count(i.sighashType)]
  }

  function InputOf(vs: seq<Value>): ApprovalInput
    requires AllTyped(INPUT, vs)
  {
    InputKinds(vs);
    ApprovalInput(vs[0].bytes, vs[1].n, vs[2].n, vs[3].n, vs[4].bytes, vs[5].n)
  }

  lemma {:induction false} InputKinds(vs: seq<Value>)
    requires AllTyped(INPUT, vs)
    ensures |vs| == 6 && vs[0].Octets? && vs[1].Count? && vs[2].Count? && vs[3].Count? && vs[4].Octets? && vs[5].Count?
  {
    assert Typed(INPUT[0], vs[0]) && Typed(INPUT[1], vs[1]) && Typed(INPUT[2], vs[2]);
    assert Typed(INPUT[3], vs[3]) && Typed(INPUT[4], vs[4]) && Typed(INPUT[5], vs[5]);
  }

  function OutputValues(o: ApprovalOutput): seq<Value> {
    [Count(o.amount), Octets(o.scriptPubkey)]
  }

  function OutputOf(vs: seq<Value>): ApprovalOutput
    requires AllTyped(OUTPUT, vs)
  {
    OutputKinds(vs);
    ApprovalOutput(vs[0].n, vs[1].bytes)
  }

  lemma {:induction false} OutputKinds(vs: seq<Value>)
    requires AllTyped(OUTPUT, vs)
    ensures |vs| == 2 && vs[0].Count? && vs[1].Octets?
  {
    assert Typed(OUTPUT[0], vs[0]) && Typed(OUTPUT[1], vs[1]);
  }

  function InputItems(ins: seq<ApprovalInput>): (xs: seq<seq<Value>>)
    ensures |xs| == |ins| && forall k :: 0 <= k < |ins| ==> xs[k] == InputValues(ins[k])
  {
    if ins == [] then [] else [InputValues(ins[0])] + InputItems(ins[1..])
  }

  function InputsOf(xs: seq<seq<Value>>): (ins: seq<ApprovalInput>)
    requires ItemsTyped(INPUT, xs)
    ensures |ins| == |xs| && forall k :: 0 <= k < |xs| ==> AllTyped(INPUT, xs[k]) && ins[k] == InputOf(xs[k])
  {
    if xs == [] then [] else [InputOf(xs[0])] + InputsOf(xs[1..])
  }

  function OutputItems(os: seq<ApprovalOutput>): (xs: seq<seq<Value>>)
    ensures |xs| == |os| && forall k :: 0 <= k < |os| ==> xs[k] == OutputValues(os[k])
  {
    if os == [] then [] else [OutputValues(os[0])] + OutputItems(os[1..])
  }

  function OutputsOf(xs: seq<seq<Value>>): (os: seq<ApprovalOutput>)
    requires ItemsTyped(OUTPUT, xs)
    ensures |os| == |xs| && forall k :: 0 <= k < |xs| ==> AllTyped(OUTPUT, xs[k]) && os[k] == OutputOf(xs[k])
  {
    if xs == [] then [] else [OutputOf(xs[0])] + OutputsOf(xs[1..])
  }

  lemma {:induction false} ItemsBack(xs: seq<seq<Value>>, ys: seq<seq<Value>>)
    requires ItemsTyped(INPUT, xs) && ItemsTyped(OUTPUT, ys)
    ensures InputItems(InputsOf(xs)) == xs && OutputItems(OutputsOf(ys)) == ys
  {
    forall k | 0 <= k < |xs| ensures InputItems(InputsOf(xs))[k] == xs[k] {
      InputKinds(xs[k]);
    }
    forall k | 0 <= k < |ys| ensures OutputItems(OutputsOf(ys))[k] == ys[k] {
      OutputKinds(ys[k]);
    }
  }

  // ----- the record

  function ValuesOf(x: Approval): seq<Value> {
    [Count(NetworkCode(x.network)), Octets(x.walletId), Octets(x.policyVersionId), Octets(x.selectedTapleafHash),
     Items(TextItems(x.signerIds)), Count(x.txVersion), Count(x.txLocktime), Items(InputItems(x.inputs)),
     Items(OutputItems(x.outputs))]
  }

  lemma {:induction false} RecordKinds(vs: seq<Value>)
    requires AllTyped(LAYOUT, vs)
    ensures |vs| == 9 && vs[0].Count? && vs[1].Octets? && vs[2].Octets? && vs[3].Octets? && vs[4].Items?
    ensures vs[5].Count? && vs[6].Count? && vs[7].Items? && vs[8].Items?
    ensures AreTexts(vs[4].items) && ItemsTyped(INPUT, vs[7].items) && ItemsTyped(OUTPUT, vs[8].items)
  {
    assert Typed(LAYOUT[0], vs[0]) && Typed(LAYOUT[1], vs[1]) && Typed(LAYOUT[2], vs[2]) && Typed(LAYOUT[3], vs[3]);
    assert Typed(LAYOUT[4], vs[4]) && Typed(LAYOUT[5], vs[5]) && Typed(LAYOUT[6], vs[6]);
    assert Typed(LAYOUT[7], vs[7]) && Typed(LAYOUT[8], vs[8]);
    TypedTexts(vs[4].items);
  }

  lemma {:induction false} TypedTexts(xs: seq<seq<Value>>)
    requires ItemsTyped([DELIMITED], xs)
    ensures AreTexts(xs)
  {
    forall i | 0 <= i < |xs| ensures |xs[i]| == 1 && xs[i][0].Octets? {
      assert Typed([DELIMITED][0], xs[i][0]);
    }
  }

  function ApprovalOf(vs: seq<Value>, network: Network): Approval
    requires AllTyped(LAYOUT, vs)
  {
    RecordKinds(vs);
    Approval(network, vs[1].bytes, vs[2].bytes, vs[3].bytes, TextsOf(vs[4].items), vs[5].n, vs[6].n,
             InputsOf(vs[7].items), OutputsOf(vs[8].items))
  }

  /** `encodeApprovalCommitmentV1` */
  function EncodeV1(x: Approval): Written {
    if x.policyVersionId == [] || x.signerIds == [] then OutOfRange else WriteDocument(HEADER, LAYOUT, ValuesOf(x))
  }

  /** `decodeApprovalCommitmentV1` */
  function DecodeV1(data: seq<byte>): Parsed<Approval> {
    var r := ReadRecord(HEADER, LAYOUT, data);
    if r.Bad? then Bad(r.error)
    else
      RecordKinds(r.value);
      var network := NetworkOf(r.value[0].n);
      if network.None? then Bad(UnsupportedVersion)
      else if r.value[4].items == [] then Bad(Malformed)
      else Got(ApprovalOf(r.value, network.value), r.next)
  }

  lemma {:induction false} ApprovalBack(vs: seq<Value>, network: Network)
    requires AllTyped(LAYOUT, vs) && vs != [] && vs[0].Count? && NetworkOf(vs[0].n) == Some(network)
    ensures ValuesOf(ApprovalOf(vs, network)) == vs
  {
    RecordKinds(vs);
    TextsOfInverse(vs[4].items);
    ItemsBack(vs[7].items, vs[8].items);
  }

  lemma {:induction false} ApprovalForth(x: Approval)
    requires AllTyped(LAYOUT, ValuesOf(x))
    ensures ApprovalOf(ValuesOf(x), x.network) == x && NetworkOf(NetworkCode(x.network)) == Some(x.network)
  {
    RecordKinds(ValuesOf(x));
    TextItemsInverse(x.signerIds);
    assert InputsOf(InputItems(x.inputs)) == x.inputs;
    assert OutputsOf(OutputItems(x.outputs)) == x.outputs;
  }

  /** A commitment is decoded from the bytes of its layout and from no others. */
  lemma {:induction false} DecodesExactly(data: seq<byte>, x: Approval)
    ensures DecodeV1(data) == Got(x, |data|) <==> x.signerIds != [] && WriteDocument(HEADER, LAYOUT, ValuesOf(x)) == Wrote(data)
  {
    DocumentExact(HEADER, LAYOUT, ValuesOf(x), data);
    var r := ReadRecord(HEADER, LAYOUT, data);
    if x.signerIds != [] && WriteDocument(HEADER, LAYOUT, ValuesOf(x)) == Wrote(data) {
      ApprovalForth(x);
    }
    if DecodeV1(data) == Got(x, |data|) {
      ApprovalBack(r.value, x.network);
    }
  }

  /** Encoding and decoding are inverse; only an empty policy version id is read but not written. */
  lemma {:induction false} ApprovalExact(data: seq<byte>, x: Approval)
    ensures EncodeV1(x) == Wrote(data) <==> DecodeV1(data) == Got(x, |data|) && x.policyVersionId != []
  {
    DecodesExactly(data, x);
  }

  /** Distinct commitments have distinct preimages. */
  lemma {:induction false} PreimageIdentifies(x: Approval, y: Approval)
    requires EncodeV1(x).Wrote? && EncodeV1(x) == EncodeV1(y)
    ensures x == y
  {
    ApprovalExact(EncodeV1(x).bytes, x);
    ApprovalExact(EncodeV1(x).bytes, y);
  }

  method DecodeApprovalCommitmentV1(bytes: seq<byte>) returns (r: Parsed<Approval>)
    ensures r == DecodeV1(bytes)
  {
    var vs :- TakeRecord(HEADER, LAYOUT, bytes);
    RecordKinds(vs);
    var network := NetworkOf(vs[0].n);
    if network.None? {
      return Bad(UnsupportedVersion);
    }
    if vs[4].items == [] {
      return Bad(Malformed);
    }
    r := Got(ApprovalOf(vs, network.value), |bytes|);
  }
}
