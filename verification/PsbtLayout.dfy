/**
  The bytes of a transaction and of a partially signed one, written out, and what the
  reader takes from the entries of a map.
 */
module PsbtLayout {
  import opened Options
  import opened Bytes
  import opened Layout
  import opened Psbt

  // ----- compact sizes

  /** The form a compact size of this value takes behind the first byte `marker`. */
  predicate SizeStands(data: seq<byte>, offset: nat, n: nat, next: nat) {
    || (next == offset + 1 <= |data| && n < 253 && data[offset] == n)
    || (next == offset + 3 <= |data| && data[offset] == 0xfd && data[offset + 1..next] == ShortLe(n) && n <= 0xffff)
    || (next == offset + 5 <= |data| && data[offset] == 0xfe && data[offset + 1..next] == WordLe(n) && n <= 0xffff_ffff)
    || (next == offset + 9 <= |data| && data[offset] == 0xff && data[offset + 1..next] == LongLe(n) && n <= 9007199254740991)
  }

  lemma {:induction false} SliceAt(data: seq<byte>, offset: nat, bytes: seq<byte>)
    ensures At(data, offset, bytes) <==> offset + |bytes| <= |data| && data[offset..offset + |bytes|] == bytes
  {
    if At(data, offset, bytes) {
      assert data[offset..offset + |bytes|] == bytes;
    }
    if offset + |bytes| <= |data| && data[offset..offset + |bytes|] == bytes {
      forall i | 0 <= i < |bytes| ensures data[offset + i] == bytes[i] {
        assert data[offset..offset + |bytes|][i] == data[offset + i];
      }
    }
  }

  lemma {:induction false} WideExact(data: seq<byte>, offset: nat, n: nat, next: nat)
    ensures LeAt(data, offset, U16) == Got(n, next) <==>
            n <= 0xffff && next == offset + 2 <= |data| && data[offset..next] == ShortLe(n)
    ensures LeAt(data, offset, U32) == Got(n, next) <==>
            n <= 0xffff_ffff && next == offset + 4 <= |data| && data[offset..next] == WordLe(n)
    ensures LeAt(data, offset, U64) == Got(n, next) <==>
            n < 0x1_0000_0000_0000_0000 && next == offset + 8 <= |data| && data[offset..next] == LongLe(n)
  {
    Pow256Values();
    LeExact(data, offset, n, U16, next);
    LeExact(data, offset, n, U32, next);
    LeExact(data, offset, n, U64, next);
    LeTwo(n);
    LeFour(n);
    LeEight(n);
    SliceAt(data, offset, ShortLe(n));
    SliceAt(data, offset, WordLe(n));
    SliceAt(data, offset, LongLe(n));
  }

  /** The reader takes the four forms, the longer ones for small values too, and nothing else. */
  lemma {:induction false} SizeExact(data: seq<byte>, offset: nat, n: nat, next: nat)
    ensures VarIntAt(data, offset) == Got(n, next) <==> SizeStands(data, offset, n, next)
  {
    if offset < |data| {
      assert data[offset..offset + 1] == [data[offset]];
      WideExact(data, offset + 1, n, next);
    }
  }

  /** The shortest form. */
  function Compact(n: nat): seq<byte> {
    if n < 253 then [n]
    else if n <= 65535 then [0xfd] + ShortLe(n)
    else if n <= 4294967295 then [0xfe] + WordLe(n)
    else [0xff] + LongLe(n)
  }

  lemma {:induction false} CompactIs(n: nat)
    ensures CompactSize(n) == Compact(n)
  {
    LeTwo(n);
    LeFour(n);
    LeEight(n);
  }

  // ----- transactions

  const SAFE: nat := 9007199254740991

  function Sized(b: seq<byte>): seq<byte> {
    Compact(|b|) + b
  }

  function InputBytes(i: TxInput): seq<byte> {
    i.txid + WordLe(i.vout) + (Sized(i.scriptSig) + WordLe(i.sequence))
  }

  function OutputBytes(o: TxOutput): seq<byte> {
    LongLe(o.value) + Sized(o.scriptPubKey)
  }

  function InputsBytes(xs: seq<TxInput>): seq<byte> {
    if xs == [] then [] else InputBytes(xs[0]) + InputsBytes(xs[1..])
  }

  function OutputsBytes(xs: seq<TxOutput>): seq<byte> {
    if xs == [] then [] else OutputBytes(xs[0]) + OutputsBytes(xs[1..])
  }

  /** Version, inputs, outputs and lock time. */
  function TxBytes(tx: Tx): seq<byte> {
    WordLe(tx.version) + (Compact(|tx.inputs|) + InputsBytes(tx.inputs)) +
    (Compact(|tx.outputs|) + OutputsBytes(tx.outputs) + WordLe(tx.lockTime))
  }

  predicate InputFits(i: TxInput) {
    |i.txid| == 32 && i.vout <= 0xffff_ffff && |i.scriptSig| <= SAFE && i.sequence <= 0xffff_ffff
  }

  predicate OutputFits(o: TxOutput) {
    o.value <= SAFE && |o.scriptPubKey| <= SAFE
  }

  predicate InputsFit(xs: seq<TxInput>) {
    forall i :: 0 <= i < |xs| ==> InputFits(xs[i])
  }

  predicate OutputsFit(xs: seq<TxOutput>) {
    forall i :: 0 <= i < |xs| ==> OutputFits(xs[i])
  }

  predicate TxFits(tx: Tx) {
    && tx.version <= 0xffff_ffff && |tx.inputs| <= SAFE && InputsFit(tx.inputs)
    && |tx.outputs| <= SAFE && OutputsFit(tx.outputs) && tx.lockTime <= 0xffff_ffff
  }

  lemma {:induction false} BlobIs(b: seq<byte>)
    ensures Blob(b) == Writes(|b| <= SAFE, Sized(b))
  {
    CompactIs(|b|);
  }

  lemma {:induction false} InputIs(i: TxInput)
    ensures WriteInput(i) == Writes(InputFits(i), InputBytes(i))
  {
    LittleWritersAre(i.vout);
    LittleWritersAre(i.sequence);
    BlobIs(i.scriptSig);
    CatWrites(|i.txid| == 32, i.txid, i.vout <= 0xffff_ffff, WordLe(i.vout));
    CatWrites(|i.scriptSig| <= SAFE, Sized(i.scriptSig), i.sequence <= 0xffff_ffff, WordLe(i.sequence));
  }

  lemma {:induction false} OutputIs(o: TxOutput)
    ensures WriteOutput(o) == Writes(OutputFits(o), OutputBytes(o))
  {
    LittleWritersAre(o.value);
    BlobIs(o.scriptPubKey);
  }

  lemma {:induction false} InputsAre(xs: seq<TxInput>)
    ensures Many(InputWriter(), xs) == Writes(InputsFit(xs), InputsBytes(xs))
  {
    if xs != [] {
      InputIs(xs[0]);
      InputsAre(xs[1..]);
      forall i | 1 <= i < |xs| ensures xs[i] == xs[1..][i - 1] {
      }
    }
  }

  lemma {:induction false} OutputsAre(xs: seq<TxOutput>)
    ensures Many(OutputWriter(), xs) == Writes(OutputsFit(xs), OutputsBytes(xs))
  {
    if xs != [] {
      OutputIs(xs[0]);
      OutputsAre(xs[1..]);
      forall i | 1 <= i < |xs| ensures xs[i] == xs[1..][i - 1] {
      }
    }
  }

  /** The serialization that parsing inverts, byte by byte. */
  lemma {:induction false} TxIs(tx: Tx)
    ensures WriteTx(tx) == Writes(TxFits(tx), TxBytes(tx))
  {
    LittleWritersAre(tx.version);
    LittleWritersAre(tx.lockTime);
    InputsAre(tx.inputs);
    OutputsAre(tx.outputs);
    CompactIs(|tx.inputs|);
    CompactIs(|tx.outputs|);
    var ins, outs := Counted(InputWriter(), tx.inputs), Counted(OutputWriter(), tx.outputs);
    var a, b := |tx.inputs| <= SAFE && InputsFit(tx.inputs), |tx.outputs| <= SAFE && OutputsFit(tx.outputs);
    assert ins == Writes(a, Compact(|tx.inputs|) + InputsBytes(tx.inputs));
    assert outs == Writes(b, Compact(|tx.outputs|) + OutputsBytes(tx.outputs));
    CatWrites(tx.version <= 0xffff_ffff, WordLe(tx.version), a, Compact(|tx.inputs|) + InputsBytes(tx.inputs));
    CatWrites(b, Compact(|tx.outputs|) + OutputsBytes(tx.outputs), tx.lockTime <= 0xffff_ffff, WordLe(tx.lockTime));
  }

  // ----- maps

  /** Key and value behind their sizes, entry by entry, then a zero byte. */
  function MapBytes(es: seq<Entry>): seq<byte> {
    if es == [] then [0x00] else Sized(es[0].key) + Sized(es[0].value) + MapBytes(es[1..])
  }

  predicate MapFits(es: seq<Entry>) {
    forall i :: 0 <= i < |es| ==> 0 < |es[i].key| <= SAFE && |es[i].value| <= SAFE
  }

  lemma {:induction false} MapIs(es: seq<Entry>)
    ensures WriteSection(es) == Writes(MapFits(es), MapBytes(es))
  {
    if es != [] {
      BlobIs(es[0].key);
      BlobIs(es[0].value);
      MapIs(es[1..]);
      forall i | 1 <= i < |es| ensures es[i] == es[1..][i - 1] {
      }
    }
  }

  // ----- the global map

  /** What the reader demands of a global entry. */
  predicate GlobalFits(e: Entry)
    requires e.key != []
  {
    && (e.key[0] == 0x00 ==> e.key == [0x00] && ParseTx(e.value).Got?)
    && (e.key[0] == 0xfb ==> |e.value| == 4)
  }

  lemma {:induction false} GlobalReadsIff(es: seq<Entry>)
    requires Keyed(es)
    ensures GlobalOf(es).Some? <==> forall i :: 0 <= i < |es| ==> GlobalFits(es[i])
    decreases |es|
  {
    if es != [] {
      var n := |es| - 1;
      var front := es[..n];
      GlobalReadsIff(front);
      assert forall i :: 0 <= i < n ==> es[i] == front[i];
      assert es[n].key[0] == 0 && |es[n].key| == 1 ==> es[n].key == [0];
      if GlobalOf(es).Some? {
        assert GlobalFits(es[n]);
      }
    }
  }

  /** No entry from `i` on has the key type of entry `i` again. */
  predicate LastOfType(es: seq<Entry>, i: nat)
    requires Keyed(es) && i < |es|
  {
    forall j :: i < j < |es| ==> es[j].key[0] != es[i].key[0]
  }

  predicate NoneOfType(es: seq<Entry>, t: byte)
    requires Keyed(es)
  {
    forall j :: 0 <= j < |es| ==> es[j].key[0] != t
  }

  /** Of the unsigned transactions and the versions the last one counts. */
  lemma {:induction false} LastGlobalCounts(es: seq<Entry>, i: nat)
    requires Keyed(es) && GlobalOf(es).Some? && i < |es| && LastOfType(es, i)
    ensures es[i].key[0] == 0x00 ==> ParseTx(es[i].value).Got? && GlobalOf(es).value.unsignedTx == Some(ParseTx(es[i].value).value)
    ensures es[i].key[0] == 0xfb ==> |es[i].value| == 4 && GlobalOf(es).value.version == FourBytes(es[i].value)
    decreases |es|
  {
    var n := |es| - 1;
    if i < n {
      var front := es[..n];
      assert front[i] == es[i];
      LastGlobalCounts(front, i);
    } else if es[i].key[0] == 0xfb {
      FourBytesAre(es[i].value);
    }
  }

  lemma {:induction false} AbsentGlobal(es: seq<Entry>)
    requires Keyed(es) && GlobalOf(es).Some?
    ensures NoneOfType(es, 0x00) ==> GlobalOf(es).value.unsignedTx == None
    ensures NoneOfType(es, 0xfb) ==> GlobalOf(es).value.version == 0
    decreases |es|
  {
    if es != [] {
      var n := |es| - 1;
      var front := es[..n];
      AbsentGlobal(front);
      assert forall t :: NoneOfType(es, t) ==> NoneOfType(front, t) && es[n].key[0] != t;
    }
  }

  /** Four bytes, the least significant first. */
  function FourBytes(s: seq<byte>): nat
    requires |s| == 4
  {
    s[0] as int + 256 * s[1] as int + 65536 * s[2] as int + 16777216 * s[3] as int
  }

  lemma {:induction false} FourBytesAre(s: seq<byte>)
    requires |s| == 4
    ensures LeNat(s) == FourBytes(s)
  {
    var a, b, c := s[1..], s[2..], s[3..];
    assert a[1..] == b && b[1..] == c && c[1..] == [];
    assert LeNat(c) == s[3] + 256 * LeNat(c[1..]) == s[3];
    assert LeNat(b) == s[2] + 256 * LeNat(c);
    assert LeNat(a) == s[1] + 256 * LeNat(b);
  }

  // ----- the map of an input

  /** What the reader demands of an input's entry. */
  predicate InputEntryFits(e: Entry)
    requires e.key != []
  {
    && (e.key[0] in {0x00, 0x01, 0x03} ==> |e.key| == 1)
    && (e.key[0] == 0x01 ==> WitnessOf(e.value).Some?)
    && (e.key[0] == 0x03 ==> |e.value| == 4)
    && (e.key[0] == 0x15 ==> |e.key| >= 2 && |e.value| >= 2)
  }

  /** An input's map interprets exactly when each of its entries is in order. */
  lemma {:induction false} InputReadsIff(es: seq<Entry>)
    requires Keyed(es)
    ensures InputOf(es).Some? <==> forall i :: 0 <= i < |es| ==> InputEntryFits(es[i])
    decreases |es|
  {
    if es != [] {
      var n := |es| - 1;
      var front := es[..n];
      InputReadsIff(front);
      assert forall i :: 0 <= i < n ==> es[i] == front[i];
      if InputOf(es).Some? {
        assert InputEntryFits(es[n]);
      }
    }
  }

  /** Of the entries of one type the last one counts. */
  lemma {:induction false} LastInputCounts(es: seq<Entry>, i: nat)
    requires Keyed(es) && InputOf(es).Some? && i < |es| && LastOfType(es, i)
    ensures es[i].key[0] == 0x00 ==> InputOf(es).value.nonWitnessUtxo == Some(es[i].value)
    ensures es[i].key[0] == 0x01 ==> InputOf(es).value.witnessUtxo == WitnessOf(es[i].value)
    ensures es[i].key[0] == 0x03 ==> |es[i].value| == 4 && InputOf(es).value.sighashType == Some(FourBytes(es[i].value))
    decreases |es|
  {
    var n := |es| - 1;
    if i < n {
      var front := es[..n];
      assert front[i] == es[i];
      LastInputCounts(front, i);
    } else if es[i].key[0] == 0x03 {
      FourBytesAre(es[i].value);
    }
  }

  lemma {:induction false} AbsentInput(es: seq<Entry>)
    requires Keyed(es) && InputOf(es).Some?
    ensures NoneOfType(es, 0x00) ==> InputOf(es).value.nonWitnessUtxo == None
    ensures NoneOfType(es, 0x01) ==> InputOf(es).value.witnessUtxo == None
    ensures NoneOfType(es, 0x03) ==> InputOf(es).value.sighashType == None
    decreases |es|
  {
    if es != [] {
      var n := |es| - 1;
      var front := es[..n];
      AbsentInput(front);
      assert forall t :: NoneOfType(es, t) ==> NoneOfType(front, t) && es[n].key[0] != t;
    }
  }

  /** The tap leaf entries of a map, in order. */
  function Leaves(es: seq<Entry>): (r: seq<Entry>)
    requires Keyed(es)
    ensures Keyed(r)
  {
    if es == [] then [] else (if es[0].key[0] == 0x15 then [es[0]] else []) + Leaves(es[1..])
  }

  lemma {:induction false} LeavesSnoc(es: seq<Entry>, e: Entry)
    requires Keyed(es) && e.key != []
    ensures Keyed(es + [e])
    ensures Leaves(es + [e]) == Leaves(es) + (if e.key[0] == 0x15 then [e] else [])
    decreases |es|
  {
    var all := es + [e];
    assert Keyed(all);
    if es == [] {
      assert all == [e] && all[1..] == [];
    } else {
      assert all[1..] == es[1..] + [e] && all[0] == es[0];
      LeavesSnoc(es[1..], e);
    }
  }

  /** The leaf holds the entry's key data, its value up to the last byte, and that byte. */
  predicate LeafOf(e: Entry, leaf: TapLeaf) {
    |e.key| >= 2 && |e.value| >= 2 && e.key == [0x15] + leaf.controlBlock && e.value == leaf.script + [leaf.leafVersion]
  }

  /** Each leaf entry gives its leaf, all in order. */
  lemma {:induction false} LeavesCollected(es: seq<Entry>)
    requires Keyed(es) && InputOf(es).Some?
    ensures var leaves, scripts := Leaves(es), InputOf(es).value.tapLeafScripts;
            |scripts| == |leaves| && forall k :: 0 <= k < |leaves| ==> LeafOf(leaves[k], scripts[k])
    decreases |es|
  {
    if es != [] {
      var n := |es| - 1;
      var front, e := es[..n], es[n];
      LeavesCollected(front);
      LeavesSnoc(front, e);
      assert es == front + [e];
      LeafAdded(InputOf(front).value, e);
    }
  }

  lemma {:induction false} LeafAdded(p: PsbtInput, e: Entry)
    requires e.key != [] && InputStep(p, e).Some?
    ensures var q := InputStep(p, e).value.tapLeafScripts;
            if e.key[0] == 0x15 then
              |q| == |p.tapLeafScripts| + 1 && q[..|q| - 1] == p.tapLeafScripts && LeafOf(e, q[|q| - 1])
            else q == p.tapLeafScripts
  {
    if e.key[0] == 0x15 {
      assert e.key == [0x15] + e.key[1..];
      assert e.value == e.value[..|e.value| - 1] + [e.value[|e.value| - 1]];
    }
  }

  /** A witness entry that is one serialized output gives that output, and trailing bytes are refused. */
  lemma {:induction false} WitnessReads(o: TxOutput, rest: seq<byte>)
    requires OutputFits(o)
    ensures WitnessOf(OutputBytes(o) + rest) == if rest == [] then Some(o) else None
  {
    var bytes := OutputBytes(o);
    OutputIs(o);
    AtPrefix(bytes, rest);
    OutputReads(bytes + rest, 0, o);
  }

  // ----- the whole file

  /** Magic bytes, a version 0 map with a transaction, one map per input, one per output, and nothing else. */
  ghost predicate FileOf(data: seq<byte>, p: Psbt, head: seq<Entry>, ins: seq<seq<Entry>>, outs: seq<seq<Entry>>, a: nat, b: nat) {
    && |data| >= 5 && data[..5] == [0x70, 0x73, 0x62, 0x74, 0xff]
    && SectionAt(data, 5) == Got(head, a) && GlobalOf(head) == Some(Global(Some(p.unsignedTx), 0))
    && |ins| == |p.unsignedTx.inputs| && ManyAt(SectionReader(data), a, |ins|) == Got(ins, b)
    && |outs| == |p.unsignedTx.outputs| && ManyAt(SectionReader(data), b, |outs|) == Got(outs, |data|)
    && EachReads(ins) && p.inputs == InputsOf(ins)
  }

  lemma {:induction false} FileParses(data: seq<byte>, p: Psbt, head: seq<Entry>, ins: seq<seq<Entry>>, outs: seq<seq<Entry>>,
                                      a: nat, b: nat)
    requires FileOf(data, p, head, ins, outs, a, b)
    ensures ParsePsbt(data) == Got(p, |data|)
  {
    assert GlobalAt(data, 5) == Got(p.unsignedTx, a);
    InputsAreSections(data, a, |ins|);
    assert ManyAt(PsbtInputReader(data), a, |ins|) == Got(p.inputs, b);
    Parses(data, p, a, b);
  }

  lemma {:induction false} Parses(data: seq<byte>, p: Psbt, a: nat, b: nat)
    requires HasMagic(data) && GlobalAt(data, 5) == Got(p.unsignedTx, a)
    requires ManyAt(PsbtInputReader(data), a, |p.unsignedTx.inputs|) == Got(p.inputs, b)
    requires ManyAt(SectionReader(data), b, |p.unsignedTx.outputs|).Got?
    requires ManyAt(SectionReader(data), b, |p.unsignedTx.outputs|).next == |data|
    ensures ParsePsbt(data) == Got(p, |data|)
  {
  }

  lemma {:induction false} FileFound(data: seq<byte>, p: Psbt)
      returns (head: seq<Entry>, ins: seq<seq<Entry>>, outs: seq<seq<Entry>>, a: nat, b: nat)
    requires ParsePsbt(data) == Got(p, |data|)
    ensures FileOf(data, p, head, ins, outs, a, b)
  {
    head, ins, outs, a, b := AcceptedParts(data, p);
    HeadFound(data, p);
  }

  lemma {:induction false} HeadFound(data: seq<byte>, p: Psbt)
    requires ParsePsbt(data).Got? && ParsePsbt(data).value == p
    ensures |data| >= 5 && data[..5] == [0x70, 0x73, 0x62, 0x74, 0xff]
    ensures SectionAt(data, 5).Got? && GlobalOf(SectionAt(data, 5).value) == Some(Global(Some(p.unsignedTx), 0))
  {
    assert |data| >= 5 && data[..5] == [0x70, 0x73, 0x62, 0x74, 0xff] by { MagicBytes(data); }
    assert GlobalAt(data, 5).Got? && GlobalAt(data, 5).value == p.unsignedTx;
    HeadOf(data, 5);
  }

  lemma {:induction false} MagicBytes(data: seq<byte>)
    ensures HasMagic(data) <==> |data| >= 5 && data[..5] == [0x70, 0x73, 0x62, 0x74, 0xff]
  {
  }

  lemma {:induction false} HeadOf(data: seq<byte>, offset: nat)
    requires GlobalAt(data, offset).Got?
    ensures SectionAt(data, offset).Got?
    ensures GlobalOf(SectionAt(data, offset).value) == Some(Global(Some(GlobalAt(data, offset).value), 0))
  {
  }

  lemma {:induction false} FileIs(data: seq<byte>, p: Psbt)
    ensures ParsePsbt(data) == Got(p, |data|) <==> exists head, ins, outs, a, b :: FileOf(data, p, head, ins, outs, a, b)
  {
    if ParsePsbt(data) == Got(p, |data|) {
      var head, ins, outs, a, b := FileFound(data, p);
      assert FileOf(data, p, head, ins, outs, a, b);
    }
    if exists head, ins, outs, a, b :: FileOf(data, p, head, ins, outs, a, b) {
      var head, ins, outs, a, b :| FileOf(data, p, head, ins, outs, a, b);
      FileParses(data, p, head, ins, outs, a, b);
    }
  }
}
