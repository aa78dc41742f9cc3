/**
  The wallet descriptor contract. Encoder and decoder check different things; where they
  agree is stated exactly. Texts are their UTF-8 bytes.
 */
module Wallet {
  import opened Options
  import opened Bytes
  import opened Records
  import opened Contracts

  datatype SignerKind = SigbashPolicyKey | ExternalXpub
  datatype Mode = SigbashNative | Mixed
  datatype Signer = Signer(kind: SignerKind, xpub: seq<byte>, policyKeyId: Option<seq<byte>>)
  datatype Recovery = Recovery(key: seq<byte>, decayBlocks: Option<nat>)
  datatype Wallet = Wallet(network: Network, mode: Mode, signers: seq<Signer>, allowedSignerSets: seq<seq<nat>>,
                           receiveDescriptor: seq<byte>, changeDescriptor: seq<byte>, recovery: Option<Recovery>)

  const HEADER: seq<byte> := [0x01, 1]
  const MAX_SIGNERS_PER_LEAF: nat := 3
  const MAX_XPUB_LENGTH: nat := 512
  const MAX_DESCRIPTOR_LENGTH: nat := 4096
  const KEY_LENGTH: nat := 32
  const NO_DECAY: nat := 0xffff

  const SIGNER: seq<Shape> := [U8, DELIMITED, DELIMITED]
  const SET: seq<Shape> := [Many(1, [U8])]
  const RECOVERY: seq<Shape> := [DELIMITED, Number(U16, false)]
  const LAYOUT: seq<Shape> :=
    [U8, U8, Many(U16, SIGNER), Many(U16, SET), DELIMITED, DELIMITED, Optional(RECOVERY)]

  function KindCode(k: SignerKind): nat {
    if k.SigbashPolicyKey? then 0x01 else 0x02
  }

  function KindOf(code: nat): Option<SignerKind> {
    if code == 0x01 then Some(SigbashPolicyKey) else if code == 0x02 then Some(ExternalXpub) else None
  }

  function ModeCode(m: Mode): nat {
    if m.SigbashNative? then 0x01 else 0x02
  }

  function ModeOf(code: nat): Option<Mode> {
    if code == 0x01 then Some(SigbashNative) else if code == 0x02 then Some(Mixed) else None
  }

  // ----- numbers as items

  function NumberItems(ns: seq<nat>): (xs: seq<seq<Value>>)
    ensures |xs| == |ns| && forall i :: 0 <= i < |ns| ==> xs[i] == [Count(ns[i])]
  {
    if ns == [] then [] else [[Count(ns[0])]] + NumberItems(ns[1..])
  }

  predicate AreNumbers(xs: seq<seq<Value>>) {
    forall i :: 0 <= i < |xs| ==> |xs[i]| == 1 && xs[i][0].Count?
  }

  function NumbersOf(xs: seq<seq<Value>>): (ns: seq<nat>)
    requires AreNumbers(xs)
    ensures |ns| == |xs| && forall i :: 0 <= i < |xs| ==> ns[i] == xs[i][0].n
  {
    if xs == [] then [] else [xs[0][0].n] + NumbersOf(xs[1..])
  }

  // ----- signers

  function SignerValues(s: Signer): seq<Value> {
    [Count(KindCode(s.kind)), Octets(s.xpub), Octets(if s.policyKeyId.None? then [] else s.policyKeyId.value)]
  }

  predicate SignerKinds(vs: seq<Value>) {
    |vs| == 3 && vs[0].Count? && vs[1].Octets? && vs[2].Octets?
  }

  /** What `decodeSigner` accepts. */
  predicate GoodSigner(vs: seq<Value>) {
    && SignerKinds(vs) && KindOf(vs[0].n).Some? && 1 <= |vs[1].bytes| <= MAX_XPUB_LENGTH
    && (vs[0].n == KindCode(SigbashPolicyKey) <==> vs[2].bytes != [])
  }

  function SignerOf(vs: seq<Value>): Signer
    requires GoodSigner(vs)
  {
    Signer(KindOf(vs[0].n).value, vs[1].bytes, if vs[2].bytes == [] then None else Some(vs[2].bytes))
  }

  function SignerItems(ss: seq<Signer>): (xs: seq<seq<Value>>)
    ensures |xs| == |ss| && forall i :: 0 <= i < |ss| ==> xs[i] == SignerValues(ss[i])
  {
    if ss == [] then [] else [SignerValues(ss[0])] + SignerItems(ss[1..])
  }

  function SignersOf(xs: seq<seq<Value>>): (ss: seq<Signer>)
    requires forall i :: 0 <= i < |xs| ==> GoodSigner(xs[i])
    ensures |ss| == |xs| && forall i :: 0 <= i < |xs| ==> ss[i] == SignerOf(xs[i])
  {
    if xs == [] then [] else [SignerOf(xs[0])] + SignersOf(xs[1..])
  }

  /** What `encodeSigner` accepts. */
  predicate WritableSigner(s: Signer) {
    s.kind.SigbashPolicyKey? <==> s.policyKeyId.Some? && s.policyKeyId.value != []
  }

  /** What the decoder asks of a signer beyond that. */
  predicate ReadableSigner(s: Signer) {
    1 <= |s.xpub| <= MAX_XPUB_LENGTH && s.policyKeyId != Some([])
  }

  // ----- allowed subsets

  function SetValues(set_: seq<nat>): seq<Value> {
    [Items(NumberItems(set_))]
  }

  predicate SetKinds(vs: seq<Value>) {
    |vs| == 1 && vs[0].Items? && AreNumbers(vs[0].items)
  }

  /** One to three indexes of signers, strictly ascending. */
  predicate GoodSet(s: seq<nat>, signers: nat) {
    && 1 <= |s| <= MAX_SIGNERS_PER_LEAF
    && (forall i :: 0 <= i < |s| ==> s[i] < signers)
    && forall i :: 0 < i < |s| ==> s[i - 1] < s[i]
  }

  function SetItems(ss: seq<seq<nat>>): (xs: seq<seq<Value>>)
    ensures |xs| == |ss| && forall i :: 0 <= i < |ss| ==> xs[i] == SetValues(ss[i])
  {
    if ss == [] then [] else [SetValues(ss[0])] + SetItems(ss[1..])
  }

  function SetOf(vs: seq<Value>): seq<nat>
    requires SetKinds(vs)
  {
    NumbersOf(vs[0].items)
  }

  function SetsOf(xs: seq<seq<Value>>): (ss: seq<seq<nat>>)
    requires forall i :: 0 <= i < |xs| ==> SetKinds(xs[i])
    ensures |ss| == |xs| && forall i :: 0 <= i < |xs| ==> SetKinds(xs[i]) && ss[i] == SetOf(xs[i])
  {
    if xs == [] then [] else [SetOf(xs[0])] + SetsOf(xs[1..])
  }

  // ----- recovery

  function RecoveryValues(r: Recovery): seq<Value> {
    [Octets(r.key), Count(if r.decayBlocks.None? then NO_DECAY else r.decayBlocks.value)]
  }

  predicate RecoveryPair(vs: seq<Value>) {
    |vs| == 2 && vs[0].Octets? && vs[1].Count? && vs[1].n <= NO_DECAY
  }

  predicate RecoveryKinds(v: Value) {
    v.Maybe? && (v.parts.Some? ==> RecoveryPair(v.parts.value))
  }

  function RecoveryOf(v: Value): Option<Recovery>
    requires RecoveryKinds(v)
  {
    if v.parts.None? then None
    else
      var n := v.parts.value[1].n;
      Some(Recovery(v.parts.value[0].bytes, if n == NO_DECAY then None else Some(n)))
  }

  predicate WritableRecovery(r: Option<Recovery>) {
    r.Some? ==> |r.value.key| == KEY_LENGTH && (r.value.decayBlocks.Some? ==> 1 <= r.value.decayBlocks.value < NO_DECAY)
  }

  // ----- the record

  function ValuesOf(w: Wallet): seq<Value> {
    [Count(NetworkCode(w.network)), Count(ModeCode(w.mode)), Items(SignerItems(w.signers)),
     Items(SetItems(w.allowedSignerSets)), Octets(w.receiveDescriptor), Octets(w.changeDescriptor),
     Maybe(if w.recovery.None? then None else Some(RecoveryValues(w.recovery.value)))]
  }

  predicate Kinds(vs: seq<Value>) {
    && |vs| == 7 && vs[0].Count? && vs[1].Count? && vs[2].Items? && vs[3].Items? && vs[4].Octets? && vs[5].Octets?
    && (forall i :: 0 <= i < |vs[2].items| ==> SignerKinds(vs[2].items[i]))
    && (forall i :: 0 <= i < |vs[3].items| ==> SetKinds(vs[3].items[i]))
    && RecoveryKinds(vs[6])
  }

  lemma {:induction false} SignersTyped(xs: seq<seq<Value>>)
    requires ItemsTyped(SIGNER, xs)
    ensures forall i :: 0 <= i < |xs| ==> SignerKinds(xs[i])
  {
    forall i | 0 <= i < |xs| ensures SignerKinds(xs[i]) {
      assert Typed(SIGNER[0], xs[i][0]) && Typed(SIGNER[1], xs[i][1]) && Typed(SIGNER[2], xs[i][2]);
    }
  }

  lemma {:induction false} SetsTyped(xs: seq<seq<Value>>)
    requires ItemsTyped(SET, xs)
    ensures forall i :: 0 <= i < |xs| ==> SetKinds(xs[i])
  {
    forall i | 0 <= i < |xs| ensures SetKinds(xs[i]) {
      assert Typed(SET[0], xs[i][0]);
      NumbersTyped(xs[i][0].items);
    }
  }

  lemma {:induction false} NumbersTyped(xs: seq<seq<Value>>)
    requires ItemsTyped([U8], xs)
    ensures AreNumbers(xs)
  {
    forall i | 0 <= i < |xs| ensures |xs[i]| == 1 && xs[i][0].Count? {
      assert Typed([U8][0], xs[i][0]);
    }
  }

  lemma {:induction false} RecordKinds(vs: seq<Value>)
    requires AllTyped(LAYOUT, vs)
    ensures Kinds(vs)
  {
    assert Typed(LAYOUT[0], vs[0]) && Typed(LAYOUT[1], vs[1]) && Typed(LAYOUT[2], vs[2]) && Typed(LAYOUT[3], vs[3]);
    assert Typed(LAYOUT[4], vs[4]) && Typed(LAYOUT[5], vs[5]) && Typed(LAYOUT[6], vs[6]);
    SignersTyped(vs[2].items);
    SetsTyped(vs[3].items);
    RecoveryTyped(vs[6]);
  }

  lemma {:induction false} RecoveryTyped(v: Value)
    requires Typed(Optional(RECOVERY), v)
    ensures RecoveryKinds(v)
  {
    Pow256Values();
    if v.parts.Some? {
      assert AllTyped(RECOVERY, v.parts.value);
      assert Typed(RECOVERY[0], v.parts.value[0]) && Typed(RECOVERY[1], v.parts.value[1]);
    }
  }

  /** Everything `decodeWalletDescriptorV1` checks of the fields it read. */
  predicate Acceptable(vs: seq<Value>)
    requires Kinds(vs)
  {
    && NetworkOf(vs[0].n).Some? && ModeOf(vs[1].n).Some? && vs[2].items != []
    && (forall i :: 0 <= i < |vs[2].items| ==> GoodSigner(vs[2].items[i]))
    && (forall i :: 0 <= i < |vs[3].items| ==> GoodSet(SetOf(vs[3].items[i]), |vs[2].items|))
    && vs[4].bytes != [] && vs[5].bytes != []
    && (vs[6].parts.Some? ==> |vs[6].parts.value[0].bytes| == KEY_LENGTH)
  }

  function WalletOf(vs: seq<Value>): Wallet
    requires Kinds(vs) && Acceptable(vs)
  {
    Wallet(NetworkOf(vs[0].n).value, ModeOf(vs[1].n).value, SignersOf(vs[2].items), SetsOf(vs[3].items), vs[4].bytes,
           vs[5].bytes, RecoveryOf(vs[6]))
  }

  /** `decodeWalletDescriptorV1` */
  function DecodeV1(data: seq<byte>): Parsed<Wallet> {
    var r := ReadRecord(HEADER, LAYOUT, data);
    if r.Bad? then Bad(r.error)
    else
      RecordKinds(r.value);
      if Acceptable(r.value) then Got(WalletOf(r.value), r.next) else Bad(Malformed)
  }

  /** What `encodeWalletDescriptorV1` checks; the widths of the fields are the writer's. */
  predicate Storable(w: Wallet) {
    && w.signers != [] && (forall i :: 0 <= i < |w.signers| ==> WritableSigner(w.signers[i]))
    && (forall i :: 0 <= i < |w.allowedSignerSets| ==> GoodSet(w.allowedSignerSets[i], |w.signers|))
    && |w.receiveDescriptor| <= MAX_DESCRIPTOR_LENGTH && |w.changeDescriptor| <= MAX_DESCRIPTOR_LENGTH
    && WritableRecovery(w.recovery)
  }

  /** `encodeWalletDescriptorV1` */
  function EncodeV1(w: Wallet): Written {
    if Storable(w) then WriteDocument(HEADER, LAYOUT, ValuesOf(w)) else OutOfRange
  }

  // ----- where they agree

  /** What the decoder checks and the encoder does not. */
  predicate Readable(w: Wallet) {
    && (forall i :: 0 <= i < |w.signers| ==> ReadableSigner(w.signers[i]))
    && w.receiveDescriptor != [] && w.changeDescriptor != []
  }

  /** What the encoder checks and the decoder does not. */
  predicate Restorable(w: Wallet) {
    && |w.receiveDescriptor| <= MAX_DESCRIPTOR_LENGTH && |w.changeDescriptor| <= MAX_DESCRIPTOR_LENGTH
    && (w.recovery.Some? ==> w.recovery.value.decayBlocks != Some(0))
  }

  lemma {:induction false} SignerForth(s: Signer)
    requires WritableSigner(s) && ReadableSigner(s)
    ensures GoodSigner(SignerValues(s)) && SignerOf(SignerValues(s)) == s
  {
  }

  lemma {:induction false} SignerBack(vs: seq<Value>)
    requires GoodSigner(vs)
    ensures WritableSigner(SignerOf(vs)) && ReadableSigner(SignerOf(vs)) && SignerValues(SignerOf(vs)) == vs
  {
  }

  lemma {:induction false} SignersForth(ss: seq<Signer>)
    requires forall i :: 0 <= i < |ss| ==> WritableSigner(ss[i]) && ReadableSigner(ss[i])
    ensures var xs := SignerItems(ss);
            && (forall i :: 0 <= i < |xs| ==> SignerKinds(xs[i]) && GoodSigner(xs[i]))
            && SignersOf(xs) == ss
  {
    var xs := SignerItems(ss);
    forall i | 0 <= i < |ss| ensures GoodSigner(xs[i]) && SignerOf(xs[i]) == ss[i] {
      SignerForth(ss[i]);
    }
  }

  lemma {:induction false} SetsForth(ss: seq<seq<nat>>)
    ensures var xs := SetItems(ss);
            (forall i :: 0 <= i < |xs| ==> SetKinds(xs[i]) && SetOf(xs[i]) == ss[i]) && SetsOf(xs) == ss
  {
    var xs := SetItems(ss);
    forall i | 0 <= i < |ss| ensures SetKinds(xs[i]) && SetOf(xs[i]) == ss[i] {
      assert xs[i] == SetValues(ss[i]);
    }
  }

  lemma {:induction false} RecoveryForth(r: Option<Recovery>)
    requires r.Some? && r.value.decayBlocks.Some? ==> r.value.decayBlocks.value < NO_DECAY
    ensures var v := Maybe(if r.None? then None else Some(RecoveryValues(r.value)));
            RecoveryKinds(v) && RecoveryOf(v) == r
  {
  }

  lemma {:induction false} RecoveryBack(v: Value)
    requires RecoveryKinds(v)
    ensures var r := RecoveryOf(v); Maybe(if r.None? then None else Some(RecoveryValues(r.value))) == v
  {
    if v.parts.Some? {
      assert RecoveryValues(RecoveryOf(v).value) == v.parts.value;
    }
  }

  /** What the decoder asks of a wallet. */
  predicate Decodable(w: Wallet) {
    && w.signers != [] && (forall i :: 0 <= i < |w.signers| ==> WritableSigner(w.signers[i]))
    && (forall i :: 0 <= i < |w.allowedSignerSets| ==> GoodSet(w.allowedSignerSets[i], |w.signers|))
    && Readable(w) && (w.recovery.Some? ==> DecodableRecovery(w.recovery.value))
  }

  predicate DecodableRecovery(r: Recovery) {
    |r.key| == KEY_LENGTH && (r.decayBlocks.Some? ==> r.decayBlocks.value < NO_DECAY)
  }

  /** The fields of such a wallet pass the decoder's checks and give it back. */
  lemma {:induction false} WalletForth(w: Wallet)
    requires Decodable(w)
    ensures Kinds(ValuesOf(w)) && Acceptable(ValuesOf(w)) && WalletOf(ValuesOf(w)) == w
  {
    SignersForth(w.signers);
    SetsForth(w.allowedSignerSets);
    RecoveryForth(w.recovery);
  }

  lemma {:induction false} SignersBack(xs: seq<seq<Value>>)
    requires forall i :: 0 <= i < |xs| ==> GoodSigner(xs[i])
    ensures var ss := SignersOf(xs);
            SignerItems(ss) == xs && forall i :: 0 <= i < |ss| ==> ReadableSigner(ss[i]) && WritableSigner(ss[i])
  {
    forall i | 0 <= i < |xs|
      ensures SignerValues(SignerOf(xs[i])) == xs[i] && ReadableSigner(SignerOf(xs[i])) && WritableSigner(SignerOf(xs[i]))
    {
      SignerBack(xs[i]);
    }
  }

  lemma {:induction false} SetsBack(xs: seq<seq<Value>>)
    requires forall i :: 0 <= i < |xs| ==> SetKinds(xs[i])
    ensures SetItems(SetsOf(xs)) == xs
  {
    forall i | 0 <= i < |xs| ensures SetValues(SetOf(xs[i])) == xs[i] {
      NumbersBack(xs[i][0].items);
    }
  }

  lemma {:induction false} WalletBack(vs: seq<Value>)
    requires Kinds(vs) && Acceptable(vs)
    ensures ValuesOf(WalletOf(vs)) == vs && Decodable(WalletOf(vs))
  {
    SignersBack(vs[2].items);
    SetsBack(vs[3].items);
    RecoveryBack(vs[6]);
  }

  lemma {:induction false} NumbersBack(xs: seq<seq<Value>>)
    requires AreNumbers(xs)
    ensures NumberItems(NumbersOf(xs)) == xs
  {
    forall i | 0 <= i < |xs| ensures xs[i] == [Count(xs[i][0].n)] {
    }
  }

  /** A wallet is decoded from the bytes of its layout and from no others. */
  lemma {:induction false} DecodesExactly(data: seq<byte>, w: Wallet)
    ensures DecodeV1(data) == Got(w, |data|) <==> Decodable(w) && WriteDocument(HEADER, LAYOUT, ValuesOf(w)) == Wrote(data)
  {
    DocumentExact(HEADER, LAYOUT, ValuesOf(w), data);
    var r := ReadRecord(HEADER, LAYOUT, data);
    if Decodable(w) {
      WalletForth(w);
    }
    if DecodeV1(data) == Got(w, |data|) {
      RecordKinds(r.value);
      WalletBack(r.value);
    }
  }

  /** Bytes and wallet belong together for the encoder exactly when they do for the decoder, each side's own checks apart. */
  lemma {:induction false} WalletExact(data: seq<byte>, w: Wallet)
    ensures EncodeV1(w) == Wrote(data) && Readable(w) <==> DecodeV1(data) == Got(w, |data|) && Restorable(w)
  {
    DecodesExactly(data, w);
  }

  /** Decoding gives back an encoded wallet exactly when it is readable. */
  lemma {:induction false} RoundTripIff(w: Wallet)
    requires EncodeV1(w).Wrote?
    ensures DecodeV1(EncodeV1(w).bytes) == Got(w, |EncodeV1(w).bytes|) <==> Readable(w)
  {
    WalletExact(EncodeV1(w).bytes, w);
  }

  /** Readable wallets are told apart by their bytes. */
  lemma {:induction false} PreimageIdentifies(v: Wallet, w: Wallet)
    requires EncodeV1(v).Wrote? && EncodeV1(v) == EncodeV1(w) && Readable(v) && Readable(w)
    ensures v == w
  {
    RoundTripIff(v);
    RoundTripIff(w);
  }

  /** The encoder takes a wallet with empty texts; the decoder refuses its bytes. */
  lemma {:induction false} EmptyTextsDoNotReturn()
    ensures var w := Wallet(Signet, Mixed, [Signer(ExternalXpub, [], None)], [], [], [], None);
            EncodeV1(w).Wrote? && DecodeV1(EncodeV1(w).bytes) != Got(w, |EncodeV1(w).bytes|)
  {
    var s := Signer(ExternalXpub, [], None);
    var w := Wallet(Signet, Mixed, [s], [], [], [], None);
    Pow256Values();
    assert Pow256(1) == 256 * Pow256(0) == 256;
    OneSignerWrites(s);
    EmptyListWrites();
    AllWritable(LAYOUT, ValuesOf(w));
    RoundTripIff(w);
  }

  lemma {:induction false} OneSignerWrites(s: Signer)
    requires s == Signer(ExternalXpub, [], None)
    ensures WriteOne(Many(U16, SIGNER), Items(SignerItems([s]))).Wrote?
  {
    Pow256Values();
    assert Pow256(1) == 256 * Pow256(0) == 256;
    AllWritable(SIGNER, SignerValues(s));
    var xs := SignerItems([s]);
    assert xs == [SignerValues(s)] && xs[1..] == [];
    assert WriteItems(SIGNER, xs) == Cat(WriteAll(SIGNER, xs[0]), WriteItems(SIGNER, xs[1..]));
  }

  lemma {:induction false} EmptyListWrites()
    ensures WriteOne(Many(U16, SET), Items(SetItems([]))).Wrote?
  {
    Pow256Values();
  }

  method DecodeWalletDescriptorV1(bytes: seq<byte>) returns (r: Parsed<Wallet>)
    ensures r == DecodeV1(bytes)
  {
    var vs :- TakeRecord(HEADER, LAYOUT, bytes);
    RecordKinds(vs);
    if !Acceptable(vs) {
      return Bad(Malformed);
    }
    r := Got(WalletOf(vs), |bytes|);
  }
}
