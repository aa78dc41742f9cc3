/**
  The byte layouts of the signed records, written out field by field, and exactly which
  records their encoders write.
 */
module RecordLayouts {
  import opened Options
  import opened Bytes
  import opened Layout
  import opened Records
  import opened Contracts
  import Approval
  import EventHeader
  import Wallet
  import Artifact
  import PinAggregate

  // ----- any layout

  predicate AllTrue(oks: seq<bool>) {
    forall i :: 0 <= i < |oks| ==> oks[i]
  }

  lemma {:induction false} AllTrueFirst(oks: seq<bool>)
    requires oks != []
    ensures AllTrue(oks) <==> oks[0] && AllTrue(oks[1..])
  {
    if AllTrue(oks[1..]) {
      forall i | 1 <= i < |oks| ensures oks[i] == oks[1..][i - 1] {
      }
    }
  }

  /** The field is written as `part` when `ok`, and refused otherwise. */
  ghost predicate FieldIs(shape: Shape, v: Value, ok: bool, part: seq<byte>) {
    WriteOne(shape, v) == Writes(ok, part)
  }

  /** A record is written when all its fields are, one behind the other. */
  lemma {:induction false} RecordIs(shapes: seq<Shape>, vs: seq<Value>, oks: seq<bool>, parts: seq<seq<byte>>)
    requires |shapes| == |vs| == |oks| == |parts|
    requires forall i :: 0 <= i < |vs| ==> FieldIs(shapes[i], vs[i], oks[i], parts[i])
    ensures WriteAll(shapes, vs) == Writes(AllTrue(oks), Joined(parts))
    decreases |vs|
  {
    if vs != [] {
      var s, v, o, p := shapes[1..], vs[1..], oks[1..], parts[1..];
      forall i | 0 <= i < |v| ensures FieldIs(s[i], v[i], o[i], p[i]) {
        assert FieldIs(shapes[i + 1], vs[i + 1], oks[i + 1], parts[i + 1]);
      }
      assert FieldIs(shapes[0], vs[0], oks[0], parts[0]);
      RecordIs(s, v, o, p);
      AllTrueFirst(oks);
    }
  }

  /** So is a list of items. */
  lemma {:induction false} ListIs(item: seq<Shape>, xs: seq<seq<Value>>, oks: seq<bool>, parts: seq<seq<byte>>)
    requires |xs| == |oks| == |parts|
    requires forall i :: 0 <= i < |xs| ==> WriteAll(item, xs[i]) == Writes(oks[i], parts[i])
    ensures WriteItems(item, xs) == Writes(AllTrue(oks), Joined(parts))
    decreases |xs|
  {
    if xs != [] {
      var x, o, p := xs[1..], oks[1..], parts[1..];
      forall i | 0 <= i < |x| ensures WriteAll(item, x[i]) == Writes(o[i], p[i]) {
        assert WriteAll(item, xs[i + 1]) == Writes(oks[i + 1], parts[i + 1]);
      }
      ListIs(item, x, o, p);
      AllTrueFirst(oks);
    }
  }

  lemma {:induction false} ManyIs(item: seq<Shape>, xs: seq<seq<Value>>, ok: bool, parts: seq<byte>)
    requires WriteItems(item, xs) == Writes(ok, parts)
    ensures WriteOne(Shape.Many(U16, item), Items(xs)) == Writes(|xs| < 0x1_0000 && ok, Short(|xs|) + parts)
  {
    WritersAre(|xs|, []);
  }

  lemma {:induction false} OneField(shape: Shape, v: Value)
    ensures WriteAll([shape], [v]) == WriteOne(shape, v)
  {
    assert [shape][1..] == [] && [v][1..] == [];
    var w := WriteOne(shape, v);
    assert w.Wrote? ==> w.bytes + [] == w.bytes;
  }

  predicate Fits(bytes: seq<byte>) {
    |bytes| < 0x1_0000_0000
  }

  predicate IsWord(n: nat) {
    n < 0x1_0000_0000
  }

  predicate IsLong(n: nat) {
    n < 0x1_0000_0000_0000_0000
  }

  lemma {:induction false} ByteIs(n: byte)
    ensures FieldIs(U8, Count(n), true, [n])
  {
    OneByte(n, 1);
  }

  lemma {:induction false} OneByte(n: byte, width: nat)
    requires width == 1
    ensures Num(n, width, false) == Writes(true, [n])
  {
    WritersAre(n, []);
    assert [n % 256] == [n];
  }

  lemma {:induction false} NumberIs(n: nat)
    ensures FieldIs(U8, Count(n), n < 256, [n % 256])
    ensures FieldIs(WORD, Count(n), IsWord(n), Word(n))
    ensures FieldIs(LONG, Count(n), IsLong(n), Long(n))
  {
    WritersAre(n, []);
  }

  lemma {:induction false} TextIs(b: seq<byte>)
    ensures FieldIs(DELIMITED, Octets(b), Fits(b), Prefixed(b))
  {
    WritersAre(0, b);
  }

  lemma {:induction false} BlockIs(b: seq<byte>, size: nat)
    ensures FieldIs(Block(size), Octets(b), |b| == size, b)
  {
  }

  // ----- the approval commitment

  function NetworkByte(n: Network): byte {
    match n case Signet => 1 case Mainnet => 2
  }

  predicate InputFits(i: Approval.ApprovalInput) {
    |i.outpointTxid| == 32 && IsWord(i.outpointVout) && IsWord(i.sequence) && IsLong(i.prevoutAmount) &&
    Fits(i.prevoutScriptPubkey) && IsWord(i.sighashType)
  }

  function InputBytes(i: Approval.ApprovalInput): seq<byte> {
    Joined([i.outpointTxid, Word(i.outpointVout), Word(i.sequence), Long(i.prevoutAmount), Prefixed(i.prevoutScriptPubkey),
            Word(i.sighashType)])
  }

  predicate OutputFits(o: Approval.ApprovalOutput) {
    IsLong(o.amount) && Fits(o.scriptPubkey)
  }

  function OutputBytes(o: Approval.ApprovalOutput): seq<byte> {
    Joined([Long(o.amount), Prefixed(o.scriptPubkey)])
  }

  predicate IdsFit(ids: seq<seq<byte>>) {
    |ids| < 0x1_0000 && forall i :: 0 <= i < |ids| ==> Fits(ids[i])
  }

  predicate InputsFit(ins: seq<Approval.ApprovalInput>) {
    |ins| < 0x1_0000 && forall i :: 0 <= i < |ins| ==> InputFits(ins[i])
  }

  predicate OutputsFit(os: seq<Approval.ApprovalOutput>) {
    |os| < 0x1_0000 && forall i :: 0 <= i < |os| ==> OutputFits(os[i])
  }

  function IdsBytes(ids: seq<seq<byte>>): seq<byte> {
    Short(|ids|) + Joined(seq(|ids|, i requires 0 <= i < |ids| => Prefixed(ids[i])))
  }

  function InputsBytes(ins: seq<Approval.ApprovalInput>): seq<byte> {
    Short(|ins|) + Joined(seq(|ins|, i requires 0 <= i < |ins| => InputBytes(ins[i])))
  }

  function OutputsBytes(os: seq<Approval.ApprovalOutput>): seq<byte> {
    Short(|os|) + Joined(seq(|os|, i requires 0 <= i < |os| => OutputBytes(os[i])))
  }

  /** What decodes; the policy version id may be empty. */
  predicate ApprovalReads(x: Approval.Approval) {
    && |x.walletId| == 32 && Fits(x.policyVersionId) && |x.selectedTapleafHash| == 32
    && 0 < |x.signerIds| && IdsFit(x.signerIds) && IsWord(x.txVersion) && IsWord(x.txLocktime)
    && InputsFit(x.inputs) && OutputsFit(x.outputs)
  }

  /** What encodes. */
  predicate ApprovalFits(x: Approval.Approval) {
    ApprovalReads(x) && 0 < |x.policyVersionId|
  }

  /** The fields of an approval commitment in writing order. */
  function ApprovalParts(x: Approval.Approval): seq<seq<byte>> {
    [[NetworkByte(x.network)], x.walletId, Prefixed(x.policyVersionId), x.selectedTapleafHash,
     IdsBytes(x.signerIds), Word(x.txVersion), Word(x.txLocktime), InputsBytes(x.inputs), OutputsBytes(x.outputs)]
  }

  lemma {:induction false} InputIs(i: Approval.ApprovalInput)
    ensures WriteAll(Approval.INPUT, Approval.InputValues(i)) == Writes(InputFits(i), InputBytes(i))
  {
    var shapes, vs := Approval.INPUT, Approval.InputValues(i);
    var oks := [|i.outpointTxid| == 32, IsWord(i.outpointVout), IsWord(i.sequence), IsLong(i.prevoutAmount),
                Fits(i.prevoutScriptPubkey), IsWord(i.sighashType)];
    var parts := [i.outpointTxid, Word(i.outpointVout), Word(i.sequence), Long(i.prevoutAmount),
                  Prefixed(i.prevoutScriptPubkey), Word(i.sighashType)];
    forall k | 0 <= k < 6 ensures FieldIs(shapes[k], vs[k], oks[k], parts[k]) {
      if k == 0 { BlockIs(i.outpointTxid, 32); }
      else if k == 1 { NumberIs(i.outpointVout); }
      else if k == 2 { NumberIs(i.sequence); }
      else if k == 3 { NumberIs(i.prevoutAmount); }
      else if k == 4 { TextIs(i.prevoutScriptPubkey); }
      else { NumberIs(i.sighashType); }
    }
    RecordIs(shapes, vs, oks, parts);
    assert AllTrue(oks) <==> oks[0] && oks[1] && oks[2] && oks[3] && oks[4] && oks[5];
  }

  lemma {:induction false} OutputIs(o: Approval.ApprovalOutput)
    ensures WriteAll(Approval.OUTPUT, Approval.OutputValues(o)) == Writes(OutputFits(o), OutputBytes(o))
  {
    var oks := [IsLong(o.amount), Fits(o.scriptPubkey)];
    NumberIs(o.amount);
    TextIs(o.scriptPubkey);
    RecordIs(Approval.OUTPUT, Approval.OutputValues(o), oks, [Long(o.amount), Prefixed(o.scriptPubkey)]);
    assert AllTrue(oks) <==> oks[0] && oks[1];
  }

  lemma {:induction false} IdsAre(ids: seq<seq<byte>>)
    ensures FieldIs(Approval.ID_LIST, Items(TextItems(ids)), IdsFit(ids), IdsBytes(ids))
  {
    var oks := seq(|ids|, i requires 0 <= i < |ids| => Fits(ids[i]));
    var parts := seq(|ids|, i requires 0 <= i < |ids| => Prefixed(ids[i]));
    var xs := TextItems(ids);
    forall i | 0 <= i < |ids| ensures WriteAll([DELIMITED], xs[i]) == Writes(oks[i], parts[i]) {
      OneField(DELIMITED, Octets(ids[i]));
      TextIs(ids[i]);
    }
    ListIs([DELIMITED], xs, oks, parts);
    assert AllTrue(oks) <==> forall i :: 0 <= i < |ids| ==> Fits(ids[i]);
    ManyIs([DELIMITED], xs, AllTrue(oks), Joined(parts));
  }

  lemma {:induction false} InputsAre(ins: seq<Approval.ApprovalInput>)
    ensures FieldIs(Shape.Many(U16, Approval.INPUT), Items(Approval.InputItems(ins)), InputsFit(ins), InputsBytes(ins))
  {
    var oks := seq(|ins|, i requires 0 <= i < |ins| => InputFits(ins[i]));
    var parts := seq(|ins|, i requires 0 <= i < |ins| => InputBytes(ins[i]));
    var xs := Approval.InputItems(ins);
    forall i | 0 <= i < |ins| ensures WriteAll(Approval.INPUT, xs[i]) == Writes(oks[i], parts[i]) {
      InputIs(ins[i]);
    }
    ListIs(Approval.INPUT, xs, oks, parts);
    assert AllTrue(oks) <==> forall i :: 0 <= i < |ins| ==> InputFits(ins[i]);
    ManyIs(Approval.INPUT, xs, AllTrue(oks), Joined(parts));
  }

  lemma {:induction false} OutputsAre(os: seq<Approval.ApprovalOutput>)
    ensures FieldIs(Shape.Many(U16, Approval.OUTPUT), Items(Approval.OutputItems(os)), OutputsFit(os), OutputsBytes(os))
  {
    var oks := seq(|os|, i requires 0 <= i < |os| => OutputFits(os[i]));
    var parts := seq(|os|, i requires 0 <= i < |os| => OutputBytes(os[i]));
    var xs := Approval.OutputItems(os);
    forall i | 0 <= i < |os| ensures WriteAll(Approval.OUTPUT, xs[i]) == Writes(oks[i], parts[i]) {
      OutputIs(os[i]);
    }
    ListIs(Approval.OUTPUT, xs, oks, parts);
    assert AllTrue(oks) <==> forall i :: 0 <= i < |os| ==> OutputFits(os[i]);
    ManyIs(Approval.OUTPUT, xs, AllTrue(oks), Joined(parts));
  }

  function ApprovalChecks(x: Approval.Approval): seq<bool> {
    [true, |x.walletId| == 32, Fits(x.policyVersionId), |x.selectedTapleafHash| == 32, IdsFit(x.signerIds),
     IsWord(x.txVersion), IsWord(x.txLocktime), InputsFit(x.inputs), OutputsFit(x.outputs)]
  }

  lemma {:induction false} NetworkIs(n: Network)
    ensures FieldIs(U8, Count(NetworkCode(n)), true, [NetworkByte(n)])
  {
    ByteIs(NetworkByte(n));
    assert NetworkCode(n) == NetworkByte(n);
  }

  lemma {:induction false} ApprovalFront(x: Approval.Approval, k: nat)
    requires k < 4
    ensures FieldIs(Approval.LAYOUT[k], Approval.ValuesOf(x)[k], ApprovalChecks(x)[k], ApprovalParts(x)[k])
  {
    if k == 0 {
      NetworkIs(x.network);
    } else if k == 1 {
      BlockIs(x.walletId, 32);
    } else if k == 2 {
      TextIs(x.policyVersionId);
    } else {
      BlockIs(x.selectedTapleafHash, 32);
    }
  }

  lemma {:induction false} ApprovalBack(x: Approval.Approval, k: nat)
    requires 4 <= k < 9
    ensures FieldIs(Approval.LAYOUT[k], Approval.ValuesOf(x)[k], ApprovalChecks(x)[k], ApprovalParts(x)[k])
  {
    if k == 4 {
      IdsAre(x.signerIds);
    } else if k == 5 {
      NumberIs(x.txVersion);
    } else if k == 6 {
      NumberIs(x.txLocktime);
    } else if k == 7 {
      InputsAre(x.inputs);
    } else {
      OutputsAre(x.outputs);
    }
  }

  lemma {:induction false} ApprovalChecked(x: Approval.Approval, oks: seq<bool>)
    requires oks == ApprovalChecks(x)
    ensures ApprovalReads(x) <==> AllTrue(oks) && x.signerIds != []
  {
    assert AllTrue(oks) <==> oks[0] && oks[1] && oks[2] && oks[3] && oks[4] && oks[5] && oks[6] && oks[7] && oks[8];
  }

  lemma {:induction false} ApprovalWritten(x: Approval.Approval)
    ensures WriteDocument(Approval.HEADER, Approval.LAYOUT, Approval.ValuesOf(x)) ==
            Writes(AllTrue(ApprovalChecks(x)), [0x03, 0x01] + Joined(ApprovalParts(x)))
  {
    var shapes, vs, oks, parts := Approval.LAYOUT, Approval.ValuesOf(x), ApprovalChecks(x), ApprovalParts(x);
    forall k | 0 <= k < 9 ensures FieldIs(shapes[k], vs[k], oks[k], parts[k]) {
      if k < 4 {
        ApprovalFront(x, k);
      } else {
        ApprovalBack(x, k);
      }
    }
    RecordIs(shapes, vs, oks, parts);
  }

  /** The approval commitment is written exactly when every field fits, in this order. */
  lemma {:induction false} ApprovalIs(x: Approval.Approval)
    ensures Approval.EncodeV1(x) == Writes(ApprovalFits(x), [0x03, 0x01] + Joined(ApprovalParts(x)))
  {
    ApprovalWritten(x);
    ApprovalChecked(x, ApprovalChecks(x));
  }

  /** The approval commitment is decoded from exactly these bytes. */
  lemma {:induction false} ApprovalDecodes(data: seq<byte>, x: Approval.Approval)
    ensures Approval.DecodeV1(data) == Got(x, |data|) <==> ApprovalReads(x) && data == [0x03, 0x01] + Joined(ApprovalParts(x))
  {
    Approval.DecodesExactly(data, x);
    ApprovalWritten(x);
    ApprovalChecked(x, ApprovalChecks(x));
  }

  // ----- the encrypted event header

  /** A present id or hash behind its flag. */
  function OptionalBytes(b: Option<seq<byte>>): seq<byte> {
    match b case None => [0] case Some(bytes) => [1] + bytes
  }

  predicate HeaderFits(h: EventHeader.Header) {
    && h.schemaVersion < 0x100 && |h.eventId| == 16 && 0 < |h.eventType| && Fits(h.eventType) && |h.orgClientId| == 16
    && |h.actorUserId| == 16 && IsLong(h.clientTimestampMs) && |h.parentEventHashes| < 0x1_0000 && Fits(h.actorSignature)
  }

  function HeaderParts(h: EventHeader.Header): seq<seq<byte>> {
    [[h.schemaVersion % 256], h.eventId, Prefixed(h.eventType), h.orgClientId, OptionalBytes(h.walletClientId),
     OptionalBytes(h.subjectId), h.actorUserId, Long(h.clientTimestampMs),
     Short(|h.parentEventHashes|) + Joined(h.parentEventHashes), OptionalBytes(h.semanticCommitment), Prefixed(h.actorSignature)]
  }

  lemma {:induction false} PartsJoin(ws: seq<Written>, oks: seq<bool>, parts: seq<seq<byte>>)
    requires |ws| == |oks| == |parts|
    requires forall i :: 0 <= i < |ws| ==> ws[i] == Writes(oks[i], parts[i])
    ensures EventHeader.CatAll(ws) == Writes(AllTrue(oks), Joined(parts))
    decreases |ws|
  {
    if ws != [] {
      var w, o, p := ws[1..], oks[1..], parts[1..];
      forall i | 0 <= i < |w| ensures w[i] == Writes(o[i], p[i]) {
        assert ws[i + 1] == Writes(oks[i + 1], parts[i + 1]);
      }
      PartsJoin(w, o, p);
      AllTrueFirst(oks);
    }
  }

  function HeaderChecks(h: EventHeader.Header): seq<bool> {
    [h.schemaVersion < 0x100, true, Fits(h.eventType), true, true, true, true, IsLong(h.clientTimestampMs),
     |h.parentEventHashes| < 0x1_0000, true, Fits(h.actorSignature)]
  }

  lemma {:induction false} HeaderFields(h: EventHeader.Header, k: nat)
    requires k < 11
    ensures EventHeader.Parts(h)[k] == Writes(HeaderChecks(h)[k], HeaderParts(h)[k])
  {
    if k == 0 {
      WritersAre(h.schemaVersion, []);
    } else if k == 2 {
      WritersAre(0, h.eventType);
    } else if k == 7 {
      WritersAre(h.clientTimestampMs, []);
    } else if k == 8 {
      WritersAre(|h.parentEventHashes|, []);
    } else if k == 10 {
      WritersAre(0, h.actorSignature);
    }
  }

  lemma {:induction false} HeaderChecked(h: EventHeader.Header, oks: seq<bool>)
    requires oks == HeaderChecks(h)
    ensures HeaderFits(h) <==> AllTrue(oks) && |h.eventId| == 16 && |h.orgClientId| == 16 && |h.actorUserId| == 16 && h.eventType != []
  {
    assert AllTrue(oks) <==> oks[0] && oks[2] && oks[7] && oks[8] && oks[10];
  }

  /** The event header is written exactly when every checked field fits, in this order. */
  lemma {:induction false} HeaderIs(h: EventHeader.Header)
    ensures EventHeader.EncodeV1(h) == Writes(HeaderFits(h), [0x05, 0x01] + Joined(HeaderParts(h)))
  {
    HeaderWritten(h);
    HeaderChecked(h, HeaderChecks(h));
  }

  /** What decodes: the fixed ids and hashes at their lengths; the event type may be empty. */
  predicate HeaderReads(h: EventHeader.Header) {
    && h.schemaVersion < 0x100 && |h.eventId| == 16 && Fits(h.eventType) && |h.orgClientId| == 16 && |h.actorUserId| == 16
    && IsLong(h.clientTimestampMs) && |h.parentEventHashes| < 0x1_0000 && Fits(h.actorSignature)
    && (h.walletClientId.Some? ==> |h.walletClientId.value| == 16) && (h.subjectId.Some? ==> |h.subjectId.value| == 16)
    && (h.semanticCommitment.Some? ==> |h.semanticCommitment.value| == 32)
    && forall i :: 0 <= i < |h.parentEventHashes| ==> |h.parentEventHashes[i]| == 32
  }

  lemma {:induction false} HeaderWritten(h: EventHeader.Header)
    ensures EventHeader.CatAll(EventHeader.Parts(h)) == Writes(AllTrue(HeaderChecks(h)), Joined(HeaderParts(h)))
  {
    var ws, oks, parts := EventHeader.Parts(h), HeaderChecks(h), HeaderParts(h);
    forall k | 0 <= k < 11 ensures ws[k] == Writes(oks[k], parts[k]) {
      HeaderFields(h, k);
    }
    PartsJoin(ws, oks, parts);
  }

  lemma {:induction false} HeaderReadable(h: EventHeader.Header, oks: seq<bool>)
    requires oks == HeaderChecks(h)
    ensures HeaderReads(h) <==> AllTrue(oks) && EventHeader.IdsFull(h) && EventHeader.WellFormed(h)
  {
    assert AllTrue(oks) <==> oks[0] && oks[2] && oks[7] && oks[8] && oks[10];
  }

  /** The event header is decoded from exactly these bytes. */
  lemma {:induction false} HeaderDecodes(data: seq<byte>, h: EventHeader.Header)
    ensures EventHeader.DecodeV1(data) == Got(h, |data|) <==> HeaderReads(h) && data == [0x05, 0x01] + Joined(HeaderParts(h))
  {
    EventHeader.DecodesExactly(data, h);
    HeaderWritten(h);
    HeaderReadable(h, HeaderChecks(h));
  }

  // ----- the wallet descriptor

  function KindByte(k: Wallet.SignerKind): byte {
    match k case SigbashPolicyKey => 1 case ExternalXpub => 2
  }

  function ModeByte(m: Wallet.Mode): byte {
    match m case SigbashNative => 1 case Mixed => 2
  }

  /** The policy key id, empty when there is none. */
  function KeyIdOf(s: Wallet.Signer): seq<byte> {
    match s.policyKeyId case None => [] case Some(id) => id
  }

  function SignerBytes(s: Wallet.Signer): seq<byte> {
    Joined([[KindByte(s.kind)], Prefixed(s.xpub), Prefixed(KeyIdOf(s))])
  }

  function SignersBytes(ss: seq<Wallet.Signer>): seq<byte> {
    Short(|ss|) + Joined(seq(|ss|, i requires 0 <= i < |ss| => SignerBytes(ss[i])))
  }

  function SetBytes(s: seq<nat>): seq<byte> {
    [|s| % 256] + Joined(seq(|s|, i requires 0 <= i < |s| => [s[i] % 256]))
  }

  function SetsBytes(ss: seq<seq<nat>>): seq<byte> {
    Short(|ss|) + Joined(seq(|ss|, i requires 0 <= i < |ss| => SetBytes(ss[i])))
  }

  /** No recovery, or its key and the decay in blocks, 0xffff for none. */
  function RecoveryBytes(r: Option<Wallet.Recovery>): seq<byte> {
    match r
    case None => [0]
    case Some(v) => [1] + (Prefixed(v.key) + Short(if v.decayBlocks.None? then 0xffff else v.decayBlocks.value))
  }

  function WalletParts(w: Wallet.Wallet): seq<seq<byte>> {
    [[NetworkByte(w.network)], [ModeByte(w.mode)], SignersBytes(w.signers), SetsBytes(w.allowedSignerSets),
     Prefixed(w.receiveDescriptor), Prefixed(w.changeDescriptor), RecoveryBytes(w.recovery)]
  }

  predicate SignerFits(s: Wallet.Signer) {
    Fits(s.xpub) && Fits(KeyIdOf(s))
  }

  predicate SignersFit(ss: seq<Wallet.Signer>) {
    |ss| < 0x1_0000 && forall i :: 0 <= i < |ss| ==> SignerFits(ss[i])
  }

  predicate SetFits(s: seq<nat>) {
    |s| < 0x100 && forall i :: 0 <= i < |s| ==> s[i] < 0x100
  }

  predicate SetsFit(ss: seq<seq<nat>>) {
    |ss| < 0x1_0000 && forall i :: 0 <= i < |ss| ==> SetFits(ss[i])
  }

  predicate RecoveryFits(r: Option<Wallet.Recovery>) {
    r.Some? ==> Fits(r.value.key) && (r.value.decayBlocks.Some? ==> r.value.decayBlocks.value < 0x1_0000)
  }

  lemma {:induction false} SignerIs(s: Wallet.Signer)
    ensures WriteAll(Wallet.SIGNER, Wallet.SignerValues(s)) == Writes(SignerFits(s), SignerBytes(s))
  {
    var shapes, vs := Wallet.SIGNER, Wallet.SignerValues(s);
    var oks, parts := [true, Fits(s.xpub), Fits(KeyIdOf(s))], [[KindByte(s.kind)], Prefixed(s.xpub), Prefixed(KeyIdOf(s))];
    forall k | 0 <= k < 3 ensures FieldIs(shapes[k], vs[k], oks[k], parts[k]) {
      if k == 0 {
        ByteIs(KindByte(s.kind));
        assert Wallet.KindCode(s.kind) == KindByte(s.kind);
      } else if k == 1 {
        TextIs(s.xpub);
      } else {
        TextIs(KeyIdOf(s));
      }
    }
    RecordIs(shapes, vs, oks, parts);
    assert AllTrue(oks) <==> oks[0] && oks[1] && oks[2];
  }

  lemma {:induction false} SignersAre(ss: seq<Wallet.Signer>)
    ensures FieldIs(Shape.Many(U16, Wallet.SIGNER), Items(Wallet.SignerItems(ss)), SignersFit(ss), SignersBytes(ss))
  {
    var oks := seq(|ss|, i requires 0 <= i < |ss| => SignerFits(ss[i]));
    var parts := seq(|ss|, i requires 0 <= i < |ss| => SignerBytes(ss[i]));
    var xs := Wallet.SignerItems(ss);
    forall i | 0 <= i < |ss| ensures WriteAll(Wallet.SIGNER, xs[i]) == Writes(oks[i], parts[i]) {
      SignerIs(ss[i]);
    }
    ListIs(Wallet.SIGNER, xs, oks, parts);
    assert AllTrue(oks) <==> forall i :: 0 <= i < |ss| ==> SignerFits(ss[i]);
    ManyIs(Wallet.SIGNER, xs, AllTrue(oks), Joined(parts));
  }

  lemma {:induction false} SetIs(s: seq<nat>)
    ensures WriteAll(Wallet.SET, Wallet.SetValues(s)) == Writes(SetFits(s), SetBytes(s))
  {
    var oks := seq(|s|, i requires 0 <= i < |s| => s[i] < 0x100);
    var parts := seq(|s|, i requires 0 <= i < |s| => [s[i] % 256]);
    var xs := Wallet.NumberItems(s);
    forall i | 0 <= i < |s| ensures WriteAll([U8], xs[i]) == Writes(oks[i], parts[i]) {
      OneField(U8, Count(s[i]));
      NumberIs(s[i]);
    }
    ListIs([U8], xs, oks, parts);
    assert AllTrue(oks) <==> forall i :: 0 <= i < |s| ==> s[i] < 0x100;
    WritersAre(|s|, []);
    OneField(Shape.Many(1, [U8]), Items(xs));
  }

  lemma {:induction false} SetsAre(ss: seq<seq<nat>>)
    ensures FieldIs(Shape.Many(U16, Wallet.SET), Items(Wallet.SetItems(ss)), SetsFit(ss), SetsBytes(ss))
  {
    var oks := seq(|ss|, i requires 0 <= i < |ss| => SetFits(ss[i]));
    var parts := seq(|ss|, i requires 0 <= i < |ss| => SetBytes(ss[i]));
    var xs := Wallet.SetItems(ss);
    forall i | 0 <= i < |ss| ensures WriteAll(Wallet.SET, xs[i]) == Writes(oks[i], parts[i]) {
      SetIs(ss[i]);
    }
    ListIs(Wallet.SET, xs, oks, parts);
    assert AllTrue(oks) <==> forall i :: 0 <= i < |ss| ==> SetFits(ss[i]);
    ManyIs(Wallet.SET, xs, AllTrue(oks), Joined(parts));
  }

  lemma {:induction false} RecoveryIs(r: Option<Wallet.Recovery>)
    ensures FieldIs(Optional(Wallet.RECOVERY), Maybe(if r.None? then None else Some(Wallet.RecoveryValues(r.value))),
                    RecoveryFits(r), RecoveryBytes(r))
  {
    if r.Some? {
      DecayIs(r.value);
    }
  }

  lemma {:induction false} DecayIs(r: Wallet.Recovery)
    ensures var n := if r.decayBlocks.None? then 0xffff else r.decayBlocks.value;
            WriteAll(Wallet.RECOVERY, Wallet.RecoveryValues(r)) == Writes(Fits(r.key) && n < 0x1_0000, Prefixed(r.key) + Short(n))
  {
    var n := if r.decayBlocks.None? then 0xffff else r.decayBlocks.value;
    TwoFields(DELIMITED, Octets(r.key), Shape.Number(U16, false), Count(n));
    WritersAre(n, r.key);
  }

  lemma {:induction false} TwoFields(s: Shape, v: Value, t: Shape, w: Value)
    ensures WriteAll([s, t], [v, w]) == Cat(WriteOne(s, v), WriteOne(t, w))
  {
    assert [s, t][1..] == [t] && [v, w][1..] == [w];
    OneField(t, w);
  }

  function WalletChecks(w: Wallet.Wallet): seq<bool> {
    [true, true, SignersFit(w.signers), SetsFit(w.allowedSignerSets), Fits(w.receiveDescriptor), Fits(w.changeDescriptor),
     RecoveryFits(w.recovery)]
  }

  lemma {:induction false} WalletFields(w: Wallet.Wallet, k: nat)
    requires k < 7
    ensures FieldIs(Wallet.LAYOUT[k], Wallet.ValuesOf(w)[k], WalletChecks(w)[k], WalletParts(w)[k])
  {
    if k == 0 {
      NetworkIs(w.network);
    } else if k == 1 {
      ByteIs(ModeByte(w.mode));
      assert Wallet.ModeCode(w.mode) == ModeByte(w.mode);
    } else if k == 2 {
      SignersAre(w.signers);
    } else if k == 3 {
      SetsAre(w.allowedSignerSets);
    } else if k == 4 {
      TextIs(w.receiveDescriptor);
    } else if k == 5 {
      TextIs(w.changeDescriptor);
    } else {
      RecoveryIs(w.recovery);
    }
  }

  lemma {:induction false} WalletWritten(w: Wallet.Wallet)
    ensures WriteDocument(Wallet.HEADER, Wallet.LAYOUT, Wallet.ValuesOf(w)) ==
            Writes(AllTrue(WalletChecks(w)), [0x01, 0x01] + Joined(WalletParts(w)))
  {
    var shapes, vs, oks, parts := Wallet.LAYOUT, Wallet.ValuesOf(w), WalletChecks(w), WalletParts(w);
    forall k | 0 <= k < 7 ensures FieldIs(shapes[k], vs[k], oks[k], parts[k]) {
      WalletFields(w, k);
    }
    RecordIs(shapes, vs, oks, parts);
  }

  // ----- what a wallet must satisfy

  /** Only a policy key carries a policy key id, and it must. */
  predicate SignerPaired(s: Wallet.Signer) {
    match s.kind
    case SigbashPolicyKey => KeyIdOf(s) != []
    case ExternalXpub => KeyIdOf(s) == []
  }

  /** One to three ascending indexes of signers. */
  predicate SetSelects(s: seq<nat>, signers: nat) {
    && (|s| == 1 || |s| == 2 || |s| == 3) && s[|s| - 1] < signers
    && (|s| > 1 ==> s[0] < s[1]) && (|s| > 2 ==> s[1] < s[2])
  }

  predicate SignersAndSets(w: Wallet.Wallet) {
    && 0 < |w.signers| < 0x1_0000 && (forall i :: 0 <= i < |w.signers| ==> SignerPaired(w.signers[i]) && SignerFits(w.signers[i]))
    && |w.allowedSignerSets| < 0x1_0000
    && forall i :: 0 <= i < |w.allowedSignerSets| ==> SetSelects(w.allowedSignerSets[i], |w.signers|) && SetFits(w.allowedSignerSets[i])
  }

  /** What the encoder takes: descriptors up to 4096 bytes, decays from 1 to 65534 blocks. */
  predicate WalletFits(w: Wallet.Wallet) {
    && SignersAndSets(w) && |w.receiveDescriptor| <= 4096 && |w.changeDescriptor| <= 4096
    && match w.recovery
       case None => true
       case Some(r) => |r.key| == 32 && (r.decayBlocks.Some? ==> 1 <= r.decayBlocks.value <= 65534)
  }

  /** What the decoder takes: extended keys of 1 to 512 bytes, descriptors that are not empty, a decay of 0 as well. */
  predicate WalletReads(w: Wallet.Wallet) {
    && SignersAndSets(w)
    && (forall i :: 0 <= i < |w.signers| ==> 1 <= |w.signers[i].xpub| <= 512 && w.signers[i].policyKeyId != Some([]))
    && 0 < |w.receiveDescriptor| && Fits(w.receiveDescriptor) && 0 < |w.changeDescriptor| && Fits(w.changeDescriptor)
    && match w.recovery
       case None => true
       case Some(r) => |r.key| == 32 && (r.decayBlocks.Some? ==> r.decayBlocks.value <= 65534)
  }

  lemma {:induction false} SetGood(s: seq<nat>, signers: nat)
    ensures Wallet.GoodSet(s, signers) <==> SetSelects(s, signers)
  {
    if Wallet.GoodSet(s, signers) {
      assert |s| > 1 ==> s[1 - 1] < s[1];
      assert |s| > 2 ==> s[2 - 1] < s[2];
    }
  }

  lemma {:induction false} SignersGood(w: Wallet.Wallet)
    requires SignersFit(w.signers) && SetsFit(w.allowedSignerSets)
    ensures SignersAndSets(w) <==>
            && w.signers != [] && (forall i :: 0 <= i < |w.signers| ==> Wallet.WritableSigner(w.signers[i]))
            && forall i :: 0 <= i < |w.allowedSignerSets| ==> Wallet.GoodSet(w.allowedSignerSets[i], |w.signers|)
  {
    forall i | 0 <= i < |w.signers| ensures Wallet.WritableSigner(w.signers[i]) <==> SignerPaired(w.signers[i]) {
    }
    forall i | 0 <= i < |w.allowedSignerSets|
      ensures Wallet.GoodSet(w.allowedSignerSets[i], |w.signers|) <==> SetSelects(w.allowedSignerSets[i], |w.signers|)
    {
      SetGood(w.allowedSignerSets[i], |w.signers|);
    }
  }

  lemma {:induction false} WalletChecked(w: Wallet.Wallet, oks: seq<bool>)
    requires oks == WalletChecks(w)
    ensures WalletFits(w) <==> AllTrue(oks) && Wallet.Storable(w)
    ensures WalletReads(w) <==> AllTrue(oks) && Wallet.Decodable(w)
  {
    assert AllTrue(oks) <==> oks[2] && oks[3] && oks[4] && oks[5] && oks[6];
    if SignersFit(w.signers) && SetsFit(w.allowedSignerSets) {
      SignersGood(w);
    }
  }

  /** The wallet descriptor is written exactly when it passes the encoder's checks, in this order. */
  lemma {:induction false} WalletIs(w: Wallet.Wallet)
    ensures Wallet.EncodeV1(w) == Writes(WalletFits(w), [0x01, 0x01] + Joined(WalletParts(w)))
  {
    WalletWritten(w);
    WalletChecked(w, WalletChecks(w));
  }

  /** The wallet descriptor is decoded from exactly these bytes. */
  lemma {:induction false} WalletDecodes(data: seq<byte>, w: Wallet.Wallet)
    ensures Wallet.DecodeV1(data) == Got(w, |data|) <==> WalletReads(w) && data == [0x01, 0x01] + Joined(WalletParts(w))
  {
    Wallet.DecodesExactly(data, w);
    WalletWritten(w);
    WalletChecked(w, WalletChecks(w));
  }

  // ----- the authorization artifact

  /** The length in two bytes, the least significant first, then the bytes. */
  function ShortText(bytes: seq<byte>): seq<byte> {
    ShortLe(|bytes|) + bytes
  }

  predicate ArtifactFits(a: Artifact.Artifact) {
    && |a.subjectKind| < 0x1_0000 && |a.protocol| < 0x1_0000 && |a.network| < 0x1_0000 && |a.subjectCommitment| == 32
    && |a.policyRoot| == 32 && |a.scope| == 32 && IsLong(a.maxUses) && IsLong(a.issuedAt) && IsLong(a.expiresAt)
    && |a.artifactNonce| == 32 && |a.issuerKid| < 0x1_0000 && |a.strength| < 0x1_0000 && |a.burnSetAggregate| == 32
  }

  function NameParts(a: Artifact.Artifact): seq<seq<byte>> {
    [ShortText(a.subjectKind), ShortText(a.protocol), ShortText(a.network)]
  }

  function BodyParts(a: Artifact.Artifact): seq<seq<byte>> {
    [a.subjectCommitment, a.policyRoot, a.scope, LongLe(a.maxUses), LongLe(a.issuedAt), LongLe(a.expiresAt), a.artifactNonce]
  }

  function TailParts(a: Artifact.Artifact): seq<seq<byte>> {
    [ShortText(a.issuerKid), ShortText(a.strength), a.burnSetAggregate]
  }

  function ArtifactParts(a: Artifact.Artifact): seq<seq<byte>> {
    NameParts(a) + (BodyParts(a) + TailParts(a))
  }

  lemma {:induction false} ShortTextIs(b: seq<byte>)
    ensures FieldIs(Artifact.TEXT, Octets(b), |b| < 0x1_0000, ShortText(b))
  {
    LittleWritersAre(|b|);
  }

  lemma {:induction false} CounterIs(n: nat)
    ensures FieldIs(Artifact.COUNTER, Count(n), IsLong(n), LongLe(n))
  {
    LittleWritersAre(n);
  }

  lemma {:induction false} AppendIs(s: seq<Shape>, v: seq<Value>, t: seq<Shape>, w: seq<Value>)
    requires |s| == |v|
    ensures WriteAll(s + t, v + w) == Cat(WriteAll(s, v), WriteAll(t, w))
    decreases |s|
  {
    if s == [] {
      assert s + t == t && v + w == w;
      var r := WriteAll(t, w);
      assert r.Wrote? ==> [] + r.bytes == r.bytes;
    } else {
      assert (s + t)[1..] == s[1..] + t && (v + w)[1..] == v[1..] + w;
      assert (s + t)[0] == s[0] && (v + w)[0] == v[0];
      AppendIs(s[1..], v[1..], t, w);
      CatAssociates(WriteOne(s[0], v[0]), WriteAll(s[1..], v[1..]), WriteAll(t, w));
    }
  }

  lemma {:induction false} CatAssociates(a: Written, b: Written, c: Written)
    ensures Cat(a, Cat(b, c)) == Cat(Cat(a, b), c)
  {
    assert a.Wrote? && b.Wrote? && c.Wrote? ==> a.bytes + (b.bytes + c.bytes) == (a.bytes + b.bytes) + c.bytes;
  }

  lemma {:induction false} NamesAre(a: Artifact.Artifact)
    ensures WriteAll(Artifact.NAMES, Artifact.NamesOf(a)) ==
            Writes(|a.subjectKind| < 0x1_0000 && |a.protocol| < 0x1_0000 && |a.network| < 0x1_0000, Joined(NameParts(a)))
  {
    var shapes, vs, parts := Artifact.NAMES, Artifact.NamesOf(a), NameParts(a);
    var oks := [|a.subjectKind| < 0x1_0000, |a.protocol| < 0x1_0000, |a.network| < 0x1_0000];
    forall k | 0 <= k < 3 ensures FieldIs(shapes[k], vs[k], oks[k], parts[k]) {
      if k == 0 {
        ShortTextIs(a.subjectKind);
      } else if k == 1 {
        ShortTextIs(a.protocol);
      } else {
        ShortTextIs(a.network);
      }
    }
    RecordIs(shapes, vs, oks, parts);
    assert AllTrue(oks) <==> oks[0] && oks[1] && oks[2];
  }

  function BodyChecks(a: Artifact.Artifact): seq<bool> {
    [|a.subjectCommitment| == 32, |a.policyRoot| == 32, |a.scope| == 32, IsLong(a.maxUses), IsLong(a.issuedAt),
     IsLong(a.expiresAt), |a.artifactNonce| == 32]
  }

  lemma {:induction false} BodyFields(a: Artifact.Artifact, k: nat)
    requires k < 7
    ensures FieldIs(Artifact.BODY[k], Artifact.BodyOf(a)[k], BodyChecks(a)[k], BodyParts(a)[k])
  {
    if k == 0 {
      BlockIs(a.subjectCommitment, 32);
    } else if k == 1 {
      BlockIs(a.policyRoot, 32);
    } else if k == 2 {
      BlockIs(a.scope, 32);
    } else if k == 3 {
      CounterIs(a.maxUses);
    } else if k == 4 {
      CounterIs(a.issuedAt);
    } else if k == 5 {
      CounterIs(a.expiresAt);
    } else {
      BlockIs(a.artifactNonce, 32);
    }
  }

  predicate BodyFits(a: Artifact.Artifact) {
    && |a.subjectCommitment| == 32 && |a.policyRoot| == 32 && |a.scope| == 32 && IsLong(a.maxUses) && IsLong(a.issuedAt)
    && IsLong(a.expiresAt) && |a.artifactNonce| == 32
  }

  lemma {:induction false} BodyIs(a: Artifact.Artifact)
    ensures WriteAll(Artifact.BODY, Artifact.BodyOf(a)) == Writes(BodyFits(a), Joined(BodyParts(a)))
  {
    var shapes, vs, oks, parts := Artifact.BODY, Artifact.BodyOf(a), BodyChecks(a), BodyParts(a);
    forall k | 0 <= k < 7 ensures FieldIs(shapes[k], vs[k], oks[k], parts[k]) {
      BodyFields(a, k);
    }
    RecordIs(shapes, vs, oks, parts);
    assert AllTrue(oks) <==> oks[0] && oks[1] && oks[2] && oks[3] && oks[4] && oks[5] && oks[6];
  }

  lemma {:induction false} TailIs(a: Artifact.Artifact)
    ensures WriteAll(Artifact.TAIL, Artifact.TailOf(a)) ==
            Writes(|a.issuerKid| < 0x1_0000 && |a.strength| < 0x1_0000 && |a.burnSetAggregate| == 32, Joined(TailParts(a)))
  {
    var shapes, vs, parts := Artifact.TAIL, Artifact.TailOf(a), TailParts(a);
    var oks := [|a.issuerKid| < 0x1_0000, |a.strength| < 0x1_0000, |a.burnSetAggregate| == 32];
    forall k | 0 <= k < 3 ensures FieldIs(shapes[k], vs[k], oks[k], parts[k]) {
      if k == 0 {
        ShortTextIs(a.issuerKid);
      } else if k == 1 {
        ShortTextIs(a.strength);
      } else {
        BlockIs(a.burnSetAggregate, 32);
      }
    }
    RecordIs(shapes, vs, oks, parts);
    assert AllTrue(oks) <==> oks[0] && oks[1] && oks[2];
  }

  lemma {:induction false} ArtifactWritten(a: Artifact.Artifact)
    ensures WriteAll(Artifact.Shapes(), Artifact.FieldsOf(a)) == Writes(ArtifactFits(a), Joined(ArtifactParts(a)))
  {
    AppendIs(Artifact.NAMES + Artifact.BODY, Artifact.NamesOf(a) + Artifact.BodyOf(a), Artifact.TAIL, Artifact.TailOf(a));
    AppendIs(Artifact.NAMES, Artifact.NamesOf(a), Artifact.BODY, Artifact.BodyOf(a));
    CatAssociates(WriteAll(Artifact.NAMES, Artifact.NamesOf(a)), WriteAll(Artifact.BODY, Artifact.BodyOf(a)),
                  WriteAll(Artifact.TAIL, Artifact.TailOf(a)));
    NamesAre(a);
    BodyIs(a);
    TailIs(a);
    JoinedAppend(BodyParts(a), TailParts(a));
    JoinedAppend(NameParts(a), BodyParts(a) + TailParts(a));
  }

  function AsciiBytes(text: string): seq<byte> {
    seq(|text|, i requires 0 <= i < |text| => text[i] as int % 256)
  }

  lemma {:induction false} ArtifactPrefix()
    ensures Artifact.PREFIX == AsciiBytes("SIGBASH.AUTHZ.ARTIFACT.V1")
  {
  }

  /** The artifact is written exactly when every field fits, behind its tag and the version 1, in this order. */
  lemma {:induction false} ArtifactIs(a: Artifact.Artifact)
    ensures Artifact.EncodeV1(a) ==
            Writes(ArtifactFits(a), AsciiBytes("SIGBASH.AUTHZ.ARTIFACT.V1") + ([0x01, 0x00] + Joined(ArtifactParts(a))))
  {
    ArtifactPrefix();
    ArtifactWritten(a);
    LittleWritersAre(Artifact.VERSION);
    assert ShortLe(Artifact.VERSION) == [0x01, 0x00];
  }

  // ----- the pin aggregate

  /** What the source refuses otherwise: hashes of 32 bytes, the short pins of 16. */
  predicate PinsFit(x: PinAggregate.Pins) {
    && (forall i :: 0 <= i < |x.chunks| ==> |x.chunks[i].hashOutputs| == 32 && |x.chunks[i].covenantWrite| == 16)
    && |x.completing.hashOutputs| == 32 && |x.completing.hin| == 32 && |x.completing.salt| == 32
    && |x.completing.polyCoeffs| == 32 && |x.completing.inputSetPolyProduct| == 16
  }

  /** Of each position the challenge and the mode in one byte. */
  function PositionsBytes(ps: seq<PinAggregate.Position>): seq<byte> {
    Joined(seq(|ps|, i requires 0 <= i < |ps| => ps[i].eHat + [ps[i].mode % 256]))
  }

  function ChunksBytes(cs: seq<PinAggregate.Chunk>): seq<byte> {
    Joined(seq(|cs|, i requires 0 <= i < |cs| => cs[i].hashOutputs + cs[i].covenantWrite))
  }

  /** The parts of the message in hashing order. */
  function PinParts(x: PinAggregate.Pins): seq<seq<byte>> {
    [AsciiBytes("SIGBASH.AUTHZ.PINAGG.V1"), x.sessionId, WordLe(|x.positions|), WordLe(x.completingPosition),
     PositionsBytes(x.positions), WordLe(|x.chunks|), ChunksBytes(x.chunks),
     x.completing.hashOutputs, x.completing.hin, x.completing.salt, x.completing.polyCoeffs, x.completing.inputSetPolyProduct]
  }

  lemma {:induction false} PositionsAre(ps: seq<PinAggregate.Position>)
    ensures PinAggregate.Positions(ps) == PositionsBytes(ps)
    decreases |ps|
  {
    if ps != [] {
      var n := |ps| - 1;
      var front, p := ps[..n], ps[n];
      PositionsAre(front);
      var parts := seq(|front|, i requires 0 <= i < |front| => front[i].eHat + [front[i].mode % 256]);
      var last := p.eHat + [p.mode % 256];
      LePush(p.mode, 0);
      JoinedSnoc(parts, last);
      assert seq(|ps|, i requires 0 <= i < |ps| => ps[i].eHat + [ps[i].mode % 256]) == parts + [last];
    }
  }

  lemma {:induction false} ChunksAre(cs: seq<PinAggregate.Chunk>)
    ensures PinAggregate.Chunks(cs) == ChunksBytes(cs)
    decreases |cs|
  {
    if cs != [] {
      var n := |cs| - 1;
      var front, last := cs[..n], cs[n].hashOutputs + cs[n].covenantWrite;
      ChunksAre(front);
      var parts := seq(|front|, i requires 0 <= i < |front| => front[i].hashOutputs + front[i].covenantWrite);
      JoinedSnoc(parts, last);
      assert seq(|cs|, i requires 0 <= i < |cs| => cs[i].hashOutputs + cs[i].covenantWrite) == parts + [last];
    }
  }

  lemma {:induction false} JoinedOne(a: seq<byte>)
    ensures Joined([a]) == a
  {
    assert [a][1..] == [];
    assert a + [] == a;
  }

  lemma {:induction false} JoinedMore(a: seq<byte>, parts: seq<seq<byte>>)
    ensures Joined([a] + parts) == a + Joined(parts)
  {
    assert ([a] + parts)[1..] == parts;
  }

  lemma {:induction false} JoinedFive(a: seq<byte>, b: seq<byte>, c: seq<byte>, d: seq<byte>, e: seq<byte>)
    ensures Joined([a, b, c, d, e]) == a + (b + (c + (d + e)))
  {
    JoinedOne(e);
    JoinedMore(d, [e]);
    JoinedMore(c, [d, e]);
    JoinedMore(b, [c, d, e]);
    JoinedMore(a, [b, c, d, e]);
    assert [d] + [e] == [d, e] && [c] + [d, e] == [c, d, e] && [b] + [c, d, e] == [b, c, d, e];
    assert [a] + [b, c, d, e] == [a, b, c, d, e];
  }

  lemma {:induction false} JoinedAppend(xs: seq<seq<byte>>, ys: seq<seq<byte>>)
    ensures Joined(xs + ys) == Joined(xs) + Joined(ys)
    decreases |xs|
  {
    if xs == [] {
      assert xs + ys == ys;
    } else {
      assert (xs + ys)[1..] == xs[1..] + ys;
      JoinedAppend(xs[1..], ys);
    }
  }

  lemma {:induction false} JoinedThree(a: seq<byte>, b: seq<byte>, c: seq<byte>)
    ensures Joined([a, b, c]) == a + (b + c)
  {
    JoinedOne(c);
    JoinedMore(b, [c]);
    JoinedMore(a, [b, c]);
    assert [b] + [c] == [b, c] && [a] + [b, c] == [a, b, c];
  }

  lemma {:induction false} JoinedFour(a: seq<byte>, b: seq<byte>, c: seq<byte>, d: seq<byte>)
    ensures Joined([a, b, c, d]) == a + b + c + d
  {
    JoinedThree(b, c, d);
    JoinedMore(a, [b, c, d]);
    assert [a] + [b, c, d] == [a, b, c, d];
  }

  /** The message is refused exactly when a checked pin has another length, and is made of these parts. */
  lemma {:induction false} PinMessageIs(x: PinAggregate.Pins)
    ensures PinAggregate.Checked(x) <==> PinsFit(x)
    ensures PinAggregate.Message(x) == Joined(PinParts(x))
  {
    var parts, c := PinParts(x), x.completing;
    var head, middle, tail := parts[..4], parts[4..7], parts[7..];
    assert head == [AsciiBytes("SIGBASH.AUTHZ.PINAGG.V1"), x.sessionId, WordLe(|x.positions|), WordLe(x.completingPosition)];
    assert tail == [c.hashOutputs, c.hin, c.salt, c.polyCoeffs, c.inputSetPolyProduct];
    assert parts == head + (middle + tail);
    JoinedAppend(middle, tail);
    JoinedAppend(head, middle + tail);
    PinHead(x, head);
    PinMiddle(x, middle);
    JoinedFive(c.hashOutputs, c.hin, c.salt, c.polyCoeffs, c.inputSetPolyProduct);
    Reassociate(PinAggregate.Head(x), PinAggregate.Positions(x.positions), LeBytes(|x.chunks|, U32), PinAggregate.Chunks(x.chunks),
                PinAggregate.CompletingBytes(c));
  }

  lemma {:induction false} Associates(a: seq<byte>, b: seq<byte>, c: seq<byte>)
    ensures a + (b + c) == (a + b) + c
  {
  }

  lemma {:induction false} Reassociate(a: seq<byte>, b: seq<byte>, c: seq<byte>, d: seq<byte>, e: seq<byte>)
    ensures a + (b + (c + (d + e))) == a + ((b + (c + d)) + e)
  {
    Associates(c, d, e);
    Associates(b, c + d, e);
  }

  lemma {:induction false} PinHead(x: PinAggregate.Pins, head: seq<seq<byte>>)
    requires head == [AsciiBytes("SIGBASH.AUTHZ.PINAGG.V1"), x.sessionId, WordLe(|x.positions|), WordLe(x.completingPosition)]
    ensures Joined(head) == PinAggregate.Head(x)
  {
    var tag := AsciiBytes(PinAggregate.TAG);
    assert PinAggregate.Ascii(PinAggregate.TAG) == tag;
    LeFour(|x.positions|);
    LeFour(x.completingPosition);
    JoinedFour(tag, x.sessionId, WordLe(|x.positions|), WordLe(x.completingPosition));
  }

  lemma {:induction false} PinMiddle(x: PinAggregate.Pins, middle: seq<seq<byte>>)
    requires middle == PinParts(x)[4..7]
    ensures Joined(middle) ==
            PinAggregate.Positions(x.positions) + (LeBytes(|x.chunks|, U32) + PinAggregate.Chunks(x.chunks))
  {
    PositionsAre(x.positions);
    ChunksAre(x.chunks);
    LeFour(|x.chunks|);
    JoinedThree(middle[0], middle[1], middle[2]);
    assert middle == [middle[0], middle[1], middle[2]];
  }
}
