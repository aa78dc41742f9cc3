/**
  The minimal BIP-174 reader and the compact-size writer it inverts. Every failure of
  the reader is the one parse error of the source.
 */
module Psbt {
  import opened Options
  import opened Bytes

  const MAX_SAFE_INTEGER: nat := 9007199254740991
  const U8: nat := 1

  // ----- compact sizes

  /** `compactSize`, for every length a 64-bit count can carry. */
  function CompactSize(n: nat): (s: seq<byte>)
    ensures |s| >= 1
  {
    if n < 253 then [n]
    else if n <= 0xffff then [0xfd] + LeBytes(n, U16)
    else if n <= 0xffff_ffff then [0xfe] + LeBytes(n, U32)
    else [0xff] + LeBytes(n, U64)
  }

  function WidthOf(first: byte): nat {
    if first == 0xfd then U16 else if first == 0xfe then U32 else U64
  }

  /** `readVarInt` */
  function VarIntAt(data: seq<byte>, offset: nat): (r: Parsed<nat>)
    ensures r.Got? ==> offset < r.next <= |data| && r.value <= MAX_SAFE_INTEGER
  {
    var f := TakeAt(data, offset, U8);
    if f.Bad? then Bad(f.error)
    else if f.value[0] < 0xfd then Got(f.value[0], f.next)
    else
      var v := LeAt(data, f.next, WidthOf(f.value[0]));
      if v.Bad? then Bad(v.error)
      else if v.value > MAX_SAFE_INTEGER then Bad(Malformed)
      else v
  }

  lemma {:induction false} FirstByte(data: seq<byte>, offset: nat, b: byte, rest: seq<byte>)
    requires At(data, offset, [b] + rest)
    ensures TakeAt(data, offset, U8) == Got([b], offset + 1) && At(data, offset + 1, rest)
  {
    AtConcat(data, offset, [b], rest);
    TakeReads(data, offset, [b]);
  }

  lemma {:induction false} WidePart(data: seq<byte>, offset: nat, marker: byte, n: nat, width: nat)
    requires At(data, offset, [marker] + LeBytes(n, width)) && n < Pow256(width)
    requires 0xfd <= marker && width == WidthOf(marker) && n <= MAX_SAFE_INTEGER
    ensures VarIntAt(data, offset) == Got(n, offset + 1 + width)
  {
    FirstByte(data, offset, marker, LeBytes(n, width));
    LeReads(data, offset + 1, n, width);
  }

  /** The reader inverts the writer wherever the written bytes stand. */
  lemma {:induction false} VarIntInverts(data: seq<byte>, offset: nat, n: nat)
    requires n <= MAX_SAFE_INTEGER && At(data, offset, CompactSize(n))
    ensures VarIntAt(data, offset) == Got(n, offset + |CompactSize(n)|)
  {
    Pow256Values();
    if n < 253 {
      TakeReads(data, offset, [n]);
    } else if n <= 0xffff {
      WidePart(data, offset, 0xfd, n, U16);
    } else if n <= 0xffff_ffff {
      WidePart(data, offset, 0xfe, n, U32);
    } else {
      WidePart(data, offset, 0xff, n, U64);
    }
  }

  /** Above 2^53 - 1 the reader refuses what the writer emits. */
  lemma {:induction false} VarIntRefuses(data: seq<byte>, offset: nat, n: nat)
    requires MAX_SAFE_INTEGER < n < Pow256(U64) && At(data, offset, CompactSize(n))
    ensures VarIntAt(data, offset) == Bad(Malformed)
  {
    FirstByte(data, offset, 0xff, LeBytes(n, U64));
    LeReads(data, offset + 1, n, U64);
  }

  /**
    The reader also takes longer forms than the writer's: it took the writer's own
    bytes exactly when it took as many bytes as the writer emits.
   */
  lemma {:induction false} CanonicalIffShortest(data: seq<byte>, offset: nat)
    requires VarIntAt(data, offset).Got?
    ensures var r := VarIntAt(data, offset);
            && offset + |CompactSize(r.value)| <= r.next
            && (offset + |CompactSize(r.value)| == r.next <==> At(data, offset, CompactSize(r.value)))
  {
    var first := TakeAt(data, offset, U8).value[0];
    var n := VarIntAt(data, offset).value;
    assert At(data, offset, [first]);
    if first >= 0xfd {
      Pow256Values();
      LeAtWritten(data, offset + 1, WidthOf(first));
      AtConcat(data, offset, [first], LeBytes(n, WidthOf(first)));
    }
  }

  /** A length below 253 written the long way is read all the same. */
  lemma {:induction false} LongFormAccepted()
    ensures VarIntAt([0xfd, 1, 0], 0) == Got(1, 3) && !At([0xfd, 1, 0], 0, CompactSize(1))
  {
    var data: seq<byte> := [0xfd, 1, 0];
    assert data[0..1] == [0xfd] && data[1..3] == [1, 0];
    var le: seq<byte> := [1, 0];
    assert le[1..] == [0] && le[1..][1..] == [];
    assert LeNat(le[1..]) == 0 + 256 * LeNat(le[1..][1..]);
    assert LeNat(le) == 1;
  }

  // ----- blobs and fixed words

  /** A compact size, then that many bytes. */
  function BlobAt(data: seq<byte>, offset: nat): (r: Parsed<seq<byte>>)
    ensures r.Got? ==> offset < r.next <= |data|
  {
    var n := VarIntAt(data, offset);
    if n.Bad? then Bad(n.error) else TakeAt(data, n.next, n.value)
  }

  function Blob(b: seq<byte>): Written {
    if |b| <= MAX_SAFE_INTEGER then Wrote(CompactSize(|b|) + b) else OutOfRange
  }

  lemma {:induction false} BlobReads(data: seq<byte>, offset: nat, b: seq<byte>)
    requires Blob(b).Wrote? && At(data, offset, Blob(b).bytes)
    ensures BlobAt(data, offset) == Got(b, offset + |Blob(b).bytes|)
  {
    var size := CompactSize(|b|);
    var a := offset + |size|;
    AtConcat(data, offset, size, b);
    assert VarIntAt(data, offset) == Got(|b|, a) by { VarIntInverts(data, offset, |b|); }
    assert TakeAt(data, a, |b|) == Got(b, a + |b|) by { TakeReads(data, a, b); }
  }

  /** `readLe64` */
  function AmountAt(data: seq<byte>, offset: nat): (r: Parsed<nat>)
    ensures r.Got? ==> offset < r.next <= |data|
  {
    var v := LeAt(data, offset, U64);
    if v.Got? && v.value > MAX_SAFE_INTEGER then Bad(Malformed) else v
  }

  function Amount(v: nat): Written {
    if v <= MAX_SAFE_INTEGER then Le(v, U64) else OutOfRange
  }

  lemma {:induction false} AmountReads(data: seq<byte>, offset: nat, v: nat)
    requires Amount(v).Wrote? && At(data, offset, Amount(v).bytes)
    ensures AmountAt(data, offset) == Got(v, offset + |Amount(v).bytes|)
  {
    LeReads(data, offset, v, U64);
  }

  /** A compact count, then that many items. */
  function CountedAt<T>(item: nat -> Parsed<T>, data: seq<byte>, offset: nat): Parsed<seq<T>> {
    var n := VarIntAt(data, offset);
    if n.Bad? then Bad(n.error) else ManyAt(item, n.next, n.value)
  }

  function Counted<T>(item: T -> Written, xs: seq<T>): Written {
    if |xs| <= MAX_SAFE_INTEGER then Cat(Wrote(CompactSize(|xs|)), Many(item, xs)) else OutOfRange
  }

  lemma {:induction false} CountedReads<T>(read: nat -> Parsed<T>, write: T -> Written, data: seq<byte>, offset: nat, xs: seq<T>)
    requires Inverts(read, write, data, xs)
    requires Counted(write, xs).Wrote? && At(data, offset, Counted(write, xs).bytes)
    ensures CountedAt(read, data, offset) == Got(xs, offset + |Counted(write, xs).bytes|)
  {
    CatAt(data, offset, Wrote(CompactSize(|xs|)), Many(write, xs));
    VarIntInverts(data, offset, |xs|);
    ManyReads(read, write, data, offset + |CompactSize(|xs|)|, xs);
  }

  // ----- transactions

  datatype TxInput = TxInput(txid: seq<byte>, vout: nat, scriptSig: seq<byte>, sequence: nat)
  datatype TxOutput = TxOutput(value: nat, scriptPubKey: seq<byte>)
  datatype Tx = Tx(version: nat, inputs: seq<TxInput>, outputs: seq<TxOutput>, lockTime: nat)

  const TXID: nat := 32

  function Block(b: seq<byte>, size: nat): Written {
    if |b| == size then Wrote(b) else OutOfRange
  }

  function InputAt(data: seq<byte>, offset: nat): Parsed<TxInput> {
    var txid := TakeAt(data, offset, TXID);
    if txid.Bad? then Bad(txid.error)
    else
      var vout := LeAt(data, txid.next, U32);
      if vout.Bad? then Bad(vout.error)
      else
        var script := BlobAt(data, vout.next);
        if script.Bad? then Bad(script.error)
        else
          var sequence := LeAt(data, script.next, U32);
          if sequence.Bad? then Bad(sequence.error)
          else Got(TxInput(txid.value, vout.value, script.value, sequence.value), sequence.next)
  }

  function OutputAt(data: seq<byte>, offset: nat): Parsed<TxOutput> {
    var value := AmountAt(data, offset);
    if value.Bad? then Bad(value.error)
    else
      var script := BlobAt(data, value.next);
      if script.Bad? then Bad(script.error) else Got(TxOutput(value.value, script.value), script.next)
  }

  function InputReader(data: seq<byte>): nat -> Parsed<TxInput> {
    (offset: nat) => InputAt(data, offset)
  }

  function OutputReader(data: seq<byte>): nat -> Parsed<TxOutput> {
    (offset: nat) => OutputAt(data, offset)
  }

  function TxAt(data: seq<byte>, offset: nat): Parsed<Tx> {
    var version := LeAt(data, offset, U32);
    if version.Bad? then Bad(version.error)
    else
      var inputs := CountedAt(InputReader(data), data, version.next);
      if inputs.Bad? then Bad(inputs.error)
      else
        var outputs := CountedAt(OutputReader(data), data, inputs.next);
        if outputs.Bad? then Bad(outputs.error)
        else
          var lockTime := LeAt(data, outputs.next, U32);
          if lockTime.Bad? then Bad(lockTime.error)
          else Got(Tx(version.value, inputs.value, outputs.value, lockTime.value), lockTime.next)
  }

  /** `parseTransaction` */
  function ParseTx(data: seq<byte>): Parsed<Tx> {
    var tx := TxAt(data, 0);
    if tx.Got? && tx.next != |data| then Bad(Malformed) else tx
  }

  // ----- the standard serialization

  function WriteInput(i: TxInput): Written {
    Cat(Cat(Block(i.txid, TXID), Le(i.vout, U32)), Cat(Blob(i.scriptSig), Le(i.sequence, U32)))
  }

  function WriteOutput(o: TxOutput): Written {
    Cat(Amount(o.value), Blob(o.scriptPubKey))
  }

  function InputWriter(): TxInput -> Written {
    (i: TxInput) => WriteInput(i)
  }

  function OutputWriter(): TxOutput -> Written {
    (o: TxOutput) => WriteOutput(o)
  }

  function WriteTx(tx: Tx): Written {
    Cat(Cat(Le(tx.version, U32), Counted(InputWriter(), tx.inputs)),
        Cat(Counted(OutputWriter(), tx.outputs), Le(tx.lockTime, U32)))
  }

  /** Four parts written in two pairs stand one behind the other. */
  lemma {:induction false} CatAt4(data: seq<byte>, offset: nat, a: Written, b: Written, c: Written, e: Written)
    requires Cat(Cat(a, b), Cat(c, e)).Wrote? && At(data, offset, Cat(Cat(a, b), Cat(c, e)).bytes)
    ensures a.Wrote? && b.Wrote? && c.Wrote? && e.Wrote?
    ensures At(data, offset, a.bytes) && At(data, offset + |a.bytes|, b.bytes)
    ensures At(data, offset + |a.bytes| + |b.bytes|, c.bytes)
    ensures At(data, offset + |a.bytes| + |b.bytes| + |c.bytes|, e.bytes)
    ensures |Cat(Cat(a, b), Cat(c, e)).bytes| == |a.bytes| + |b.bytes| + |c.bytes| + |e.bytes|
  {
    CatAt(data, offset, Cat(a, b), Cat(c, e));
    CatAt(data, offset, a, b);
    CatAt(data, offset + |a.bytes| + |b.bytes|, c, e);
  }

  lemma {:induction false} InputReads(data: seq<byte>, offset: nat, i: TxInput)
    requires WriteInput(i).Wrote? && At(data, offset, WriteInput(i).bytes)
    ensures InputAt(data, offset) == Got(i, offset + |WriteInput(i).bytes|)
  {
    CatAt4(data, offset, Block(i.txid, TXID), Le(i.vout, U32), Blob(i.scriptSig), Le(i.sequence, U32));
    TakeReads(data, offset, i.txid);
    LeReads(data, offset + TXID, i.vout, U32);
    var a := offset + TXID + U32;
    BlobReads(data, a, i.scriptSig);
    LeReads(data, a + |Blob(i.scriptSig).bytes|, i.sequence, U32);
  }

  lemma {:induction false} OutputReads(data: seq<byte>, offset: nat, o: TxOutput)
    requires WriteOutput(o).Wrote? && At(data, offset, WriteOutput(o).bytes)
    ensures OutputAt(data, offset) == Got(o, offset + |WriteOutput(o).bytes|)
  {
    CatAt(data, offset, Amount(o.value), Blob(o.scriptPubKey));
    AmountReads(data, offset, o.value);
    BlobReads(data, offset + |Amount(o.value).bytes|, o.scriptPubKey);
  }

  lemma {:induction false} InputsInvert(data: seq<byte>, xs: seq<TxInput>)
    ensures Inverts(InputReader(data), InputWriter(), data, xs)
  {
    forall i, offset: nat | 0 <= i < |xs| && WriteInput(xs[i]).Wrote? && At(data, offset, WriteInput(xs[i]).bytes)
      ensures InputAt(data, offset) == Got(xs[i], offset + |WriteInput(xs[i]).bytes|)
    {
      InputReads(data, offset, xs[i]);
    }
  }

  lemma {:induction false} OutputsInvert(data: seq<byte>, xs: seq<TxOutput>)
    ensures Inverts(OutputReader(data), OutputWriter(), data, xs)
  {
    forall i, offset: nat | 0 <= i < |xs| && WriteOutput(xs[i]).Wrote? && At(data, offset, WriteOutput(xs[i]).bytes)
      ensures OutputAt(data, offset) == Got(xs[i], offset + |WriteOutput(xs[i]).bytes|)
    {
      OutputReads(data, offset, xs[i]);
    }
  }

  /** The counted lists of a serialized transaction read back where they stand. */
  lemma {:induction false} TxLists(data: seq<byte>, a: nat, tx: Tx) returns (b: nat, c: nat)
    requires var ins := Counted(InputWriter(), tx.inputs); ins.Wrote? && At(data, a, ins.bytes)
    requires var ins, outs := Counted(InputWriter(), tx.inputs), Counted(OutputWriter(), tx.outputs);
             outs.Wrote? && At(data, a + |ins.bytes|, outs.bytes)
    ensures CountedAt(InputReader(data), data, a) == Got(tx.inputs, b)
    ensures CountedAt(OutputReader(data), data, b) == Got(tx.outputs, c)
    ensures b == a + |Counted(InputWriter(), tx.inputs).bytes|
    ensures c == b + |Counted(OutputWriter(), tx.outputs).bytes|
  {
    InputsInvert(data, tx.inputs);
    CountedReads(InputReader(data), InputWriter(), data, a, tx.inputs);
    b := a + |Counted(InputWriter(), tx.inputs).bytes|;
    OutputsInvert(data, tx.outputs);
    CountedReads(OutputReader(data), OutputWriter(), data, b, tx.outputs);
    c := b + |Counted(OutputWriter(), tx.outputs).bytes|;
  }

  lemma {:induction false} TxIs(data: seq<byte>, offset: nat, tx: Tx, a: nat, b: nat, c: nat, next: nat)
    requires LeAt(data, offset, U32) == Got(tx.version, a)
    requires CountedAt(InputReader(data), data, a) == Got(tx.inputs, b)
    requires CountedAt(OutputReader(data), data, b) == Got(tx.outputs, c)
    requires LeAt(data, c, U32) == Got(tx.lockTime, next)
    ensures TxAt(data, offset) == Got(tx, next)
  {
  }

  lemma {:induction false} TxReads(data: seq<byte>, offset: nat, tx: Tx)
    requires WriteTx(tx).Wrote? && At(data, offset, WriteTx(tx).bytes)
    ensures TxAt(data, offset) == Got(tx, offset + |WriteTx(tx).bytes|)
  {
    CatAt4(data, offset, Le(tx.version, U32), Counted(InputWriter(), tx.inputs),
           Counted(OutputWriter(), tx.outputs), Le(tx.lockTime, U32));
    var a := offset + U32;
    LeReads(data, offset, tx.version, U32);
    var b, c := TxLists(data, a, tx);
    LeReads(data, c, tx.lockTime, U32);
    TxIs(data, offset, tx, a, b, c, c + U32);
  }

  /** Parsing inverts the standard serialization, for any number of inputs and outputs. */
  lemma {:induction false} TransactionRoundTrip(tx: Tx)
    requires WriteTx(tx).Wrote?
    ensures ParseTx(WriteTx(tx).bytes) == Got(tx, |WriteTx(tx).bytes|)
  {
    AtWhole(WriteTx(tx).bytes);
    TxReads(WriteTx(tx).bytes, 0, tx);
  }

  // ----- what a parsed transaction writes

  /** The compact size at an offset is the writer's, the shortest. */
  predicate ShortAt(data: seq<byte>, offset: nat) {
    VarIntAt(data, offset).Got? && offset + |CompactSize(VarIntAt(data, offset).value)| == VarIntAt(data, offset).next
  }

  /** In an input and in an output the one compact size is that of the script. */
  predicate InputShort(data: seq<byte>, offset: nat) {
    ShortAt(data, offset + TXID + U32)
  }

  predicate OutputShort(data: seq<byte>, offset: nat) {
    ShortAt(data, offset + U64)
  }

  predicate EachShort<T>(item: nat -> Parsed<T>, short: nat -> bool, offset: nat, count: nat)
    decreases count, offset
  {
    count == 0 || (item(offset).Got? && short(offset) && EachShort(item, short, item(offset).next, count - 1))
  }

  predicate ListShort<T>(item: nat -> Parsed<T>, short: nat -> bool, data: seq<byte>, offset: nat) {
    ShortAt(data, offset) && EachShort(item, short, VarIntAt(data, offset).next, VarIntAt(data, offset).value)
  }

  function InputsShort(data: seq<byte>): nat -> bool {
    (offset: nat) => InputShort(data, offset)
  }

  function OutputsShort(data: seq<byte>): nat -> bool {
    (offset: nat) => OutputShort(data, offset)
  }

  /** Every compact size of a transaction is the shortest: both counts and all script lengths. */
  predicate AllShort(data: seq<byte>) {
    var inputs := CountedAt(InputReader(data), data, U32);
    && ListShort(InputReader(data), InputsShort(data), data, U32)
    && inputs.Got? && ListShort(OutputReader(data), OutputsShort(data), data, inputs.next)
  }

  /** `w` is no longer than the bytes read from offset to next, and is those bytes exactly when `short`. */
  ghost predicate Back(w: Written, data: seq<byte>, offset: nat, next: nat, short: bool) {
    && w.Wrote? && offset + |w.bytes| <= next
    && (offset + |w.bytes| == next <==> short)
    && (short ==> At(data, offset, w.bytes))
  }

  lemma {:induction false} CatBack(a: Written, b: Written, data: seq<byte>, o: nat, m: nat, n: nat, s: bool, t: bool)
    requires Back(a, data, o, m, s) && Back(b, data, m, n, t)
    ensures Back(Cat(a, b), data, o, n, s && t)
  {
    if s && t {
      AtConcat(data, o, a.bytes, b.bytes);
    }
  }

  lemma {:induction false} LeBack(data: seq<byte>, offset: nat, width: nat)
    requires LeAt(data, offset, width).Got?
    ensures Back(Le(LeAt(data, offset, width).value, width), data, offset, LeAt(data, offset, width).next, true)
  {
    LeAtWritten(data, offset, width);
  }

  lemma {:induction false} SizeBack(data: seq<byte>, offset: nat)
    requires VarIntAt(data, offset).Got?
    ensures Back(Wrote(CompactSize(VarIntAt(data, offset).value)), data, offset, VarIntAt(data, offset).next, ShortAt(data, offset))
  {
    CanonicalIffShortest(data, offset);
  }

  lemma {:induction false} BytesBack(data: seq<byte>, offset: nat, n: nat)
    requires TakeAt(data, offset, n).Got?
    ensures Back(Wrote(TakeAt(data, offset, n).value), data, offset, offset + n, true)
  {
  }

  lemma {:induction false} BlobBack(data: seq<byte>, offset: nat)
    requires BlobAt(data, offset).Got?
    ensures Back(Blob(BlobAt(data, offset).value), data, offset, BlobAt(data, offset).next, ShortAt(data, offset))
  {
    var n := VarIntAt(data, offset);
    SizeBack(data, offset);
    BytesBack(data, n.next, n.value);
    CatBack(Wrote(CompactSize(n.value)), Wrote(BlobAt(data, offset).value), data, offset, n.next, n.next + n.value,
            ShortAt(data, offset), true);
  }

  lemma {:induction false} InputBack(data: seq<byte>, offset: nat)
    requires InputAt(data, offset).Got?
    ensures Back(WriteInput(InputAt(data, offset).value), data, offset, InputAt(data, offset).next, InputShort(data, offset))
  {
    var i, a := InputAt(data, offset).value, offset + TXID;
    var b, c := a + U32, BlobAt(data, a + U32).next;
    var short := InputShort(data, offset);
    BytesBack(data, offset, TXID);
    LeBack(data, a, U32);
    BlobBack(data, b);
    LeBack(data, c, U32);
    CatBack(Block(i.txid, TXID), Le(i.vout, U32), data, offset, a, b, true, true);
    CatBack(Blob(i.scriptSig), Le(i.sequence, U32), data, b, c, c + U32, short, true);
    CatBack(Cat(Block(i.txid, TXID), Le(i.vout, U32)), Cat(Blob(i.scriptSig), Le(i.sequence, U32)), data, offset, b, c + U32,
            true, short);
  }

  lemma {:induction false} OutputBack(data: seq<byte>, offset: nat)
    requires OutputAt(data, offset).Got?
    ensures Back(WriteOutput(OutputAt(data, offset).value), data, offset, OutputAt(data, offset).next, OutputShort(data, offset))
  {
    var o, a := OutputAt(data, offset).value, offset + U64;
    LeBack(data, offset, U64);
    BlobBack(data, a);
    CatBack(Amount(o.value), Blob(o.scriptPubKey), data, offset, a, OutputAt(data, offset).next, true, OutputShort(data, offset));
  }

  /** Whatever an item reads it writes back, exactly when it is short. */
  ghost predicate GoesBack<T(!new)>(item: nat -> Parsed<T>, write: T -> Written, short: nat -> bool, data: seq<byte>) {
    forall o: nat :: item(o).Got? ==>
      item(o).next <= |data| && Back(write(item(o).value), data, o, item(o).next, short(o))
  }

  lemma {:induction false} ManyBack<T(!new)>(item: nat -> Parsed<T>, write: T -> Written, short: nat -> bool, data: seq<byte>,
                                     offset: nat, count: nat)
    requires GoesBack(item, write, short, data) && ManyAt(item, offset, count).Got? && offset <= |data|
    ensures var r := ManyAt(item, offset, count);
            r.next <= |data| && Back(Many(write, r.value), data, offset, r.next, EachShort(item, short, offset, count))
    decreases count
  {
    if count > 0 {
      var x := item(offset);
      var rest := ManyAt(item, x.next, count - 1);
      assert Back(write(x.value), data, offset, x.next, short(offset));
      ManyBack(item, write, short, data, x.next, count - 1);
      CatBack(write(x.value), Many(write, rest.value), data, offset, x.next, rest.next, short(offset),
              EachShort(item, short, x.next, count - 1));
      assert ([x.value] + rest.value)[1..] == rest.value;
    }
  }

  lemma {:induction false} CountedBack<T(!new)>(item: nat -> Parsed<T>, write: T -> Written, short: nat -> bool, data: seq<byte>,
                                        offset: nat)
    requires GoesBack(item, write, short, data) && CountedAt(item, data, offset).Got?
    ensures var r := CountedAt(item, data, offset);
            && r.next <= |data|
            && Back(Counted(write, r.value), data, offset, r.next, ListShort(item, short, data, offset))
  {
    var n, r := VarIntAt(data, offset), CountedAt(item, data, offset);
    SizeBack(data, offset);
    ManyBack(item, write, short, data, n.next, n.value);
    CatBack(Wrote(CompactSize(n.value)), Many(write, r.value), data, offset, n.next, r.next, ShortAt(data, offset),
            EachShort(item, short, n.next, n.value));
  }

  lemma {:induction false} InputsGoBack(data: seq<byte>)
    ensures GoesBack(InputReader(data), InputWriter(), InputsShort(data), data)
  {
    forall o: nat | InputAt(data, o).Got?
      ensures InputAt(data, o).next <= |data|
      ensures Back(WriteInput(InputAt(data, o).value), data, o, InputAt(data, o).next, InputShort(data, o))
    {
      InputBack(data, o);
    }
  }

  lemma {:induction false} OutputsGoBack(data: seq<byte>)
    ensures GoesBack(OutputReader(data), OutputWriter(), OutputsShort(data), data)
  {
    forall o: nat | OutputAt(data, o).Got?
      ensures OutputAt(data, o).next <= |data|
      ensures Back(WriteOutput(OutputAt(data, o).value), data, o, OutputAt(data, o).next, OutputShort(data, o))
    {
      OutputBack(data, o);
    }
  }

  lemma {:induction false} TxBack(data: seq<byte>)
    requires TxAt(data, 0).Got?
    ensures Back(WriteTx(TxAt(data, 0).value), data, 0, TxAt(data, 0).next, AllShort(data))
  {
    var tx := TxAt(data, 0).value;
    var ins := CountedAt(InputReader(data), data, U32);
    var outs := CountedAt(OutputReader(data), data, ins.next);
    var s := ListShort(InputReader(data), InputsShort(data), data, U32);
    var t := ListShort(OutputReader(data), OutputsShort(data), data, ins.next);
    LeBack(data, 0, U32);
    InputsGoBack(data);
    CountedBack(InputReader(data), InputWriter(), InputsShort(data), data, U32);
    OutputsGoBack(data);
    CountedBack(OutputReader(data), OutputWriter(), OutputsShort(data), data, ins.next);
    LeBack(data, outs.next, U32);
    var end := outs.next + U32;
    var a, b := Le(tx.version, U32), Counted(InputWriter(), tx.inputs);
    var c, e := Counted(OutputWriter(), tx.outputs), Le(tx.lockTime, U32);
    CatBack(a, b, data, 0, U32, ins.next, true, s);
    CatBack(c, e, data, ins.next, outs.next, end, t, true);
    CatBack(Cat(a, b), Cat(c, e), data, 0, ins.next, end, s, t);
  }

  /** A parsed transaction writes back to its own bytes exactly when each of its compact sizes is the shortest. */
  lemma {:induction false} WritesBackIffShort(data: seq<byte>)
    requires ParseTx(data).Got?
    ensures WriteTx(ParseTx(data).value).Wrote?
    ensures WriteTx(ParseTx(data).value) == Wrote(data) <==> AllShort(data)
  {
    TxBack(data);
    if AllShort(data) {
      assert WriteTx(ParseTx(data).value).bytes == data;
    }
  }

  // ----- sections

  datatype Entry = Entry(key: seq<byte>, value: seq<byte>)

  /** One entry, or `None` at the separator. */
  function EntryAt(data: seq<byte>, offset: nat): (r: Parsed<Option<Entry>>)
    ensures r.Got? ==> offset < r.next <= |data|
    ensures r.Got? && r.value.Some? ==> r.value.value.key != []
  {
    var n := VarIntAt(data, offset);
    if n.Bad? then Bad(n.error)
    else if n.value == 0 then Got(None, n.next)
    else
      var key := TakeAt(data, n.next, n.value);
      if key.Bad? then Bad(key.error)
      else
        var value := BlobAt(data, key.next);
        if value.Bad? then Bad(value.error) else Got(Some(Entry(key.value, value.value)), value.next)
  }

  /** `readSection`; ends because every entry consumes at least two bytes. */
  function SectionAt(data: seq<byte>, offset: nat): (r: Parsed<seq<Entry>>)
    ensures r.Got? ==> offset < r.next <= |data|
    ensures r.Got? ==> forall i :: 0 <= i < |r.value| ==> r.value[i].key != []
    decreases |data| - offset
  {
    var e := EntryAt(data, offset);
    if e.Bad? then Bad(e.error)
    else if e.value.None? then Got([], e.next)
    else Prepend([e.value.value], SectionAt(data, e.next))
  }

  function WriteEntry(e: Entry): Written {
    if e.key == [] then OutOfRange else Cat(Blob(e.key), Blob(e.value))
  }

  function WriteSection(es: seq<Entry>): Written {
    if es == [] then Wrote([0]) else Cat(WriteEntry(es[0]), WriteSection(es[1..]))
  }

  lemma {:induction false} EntryReads(data: seq<byte>, offset: nat, e: Entry)
    requires WriteEntry(e).Wrote? && At(data, offset, WriteEntry(e).bytes)
    ensures EntryAt(data, offset) == Got(Some(e), offset + |WriteEntry(e).bytes|)
  {
    CatAt(data, offset, Blob(e.key), Blob(e.value));
    BlobReads(data, offset, e.key);
    BlobReads(data, offset + |Blob(e.key).bytes|, e.value);
  }

  lemma {:induction false} SectionReads(data: seq<byte>, offset: nat, es: seq<Entry>)
    requires WriteSection(es).Wrote? && At(data, offset, WriteSection(es).bytes)
    ensures SectionAt(data, offset) == Got(es, offset + |WriteSection(es).bytes|)
    decreases |es|
  {
    if es == [] {
      assert CompactSize(0) == [0];
      VarIntInverts(data, offset, 0);
    } else {
      SectionSplits(data, offset, es);
      EntryReads(data, offset, es[0]);
      SectionReads(data, offset + |WriteEntry(es[0]).bytes|, es[1..]);
      assert es == [es[0]] + es[1..];
    }
  }

  lemma {:induction false} SectionSplits(data: seq<byte>, offset: nat, es: seq<Entry>)
    requires es != [] && WriteSection(es).Wrote? && At(data, offset, WriteSection(es).bytes)
    ensures WriteEntry(es[0]).Wrote? && WriteSection(es[1..]).Wrote?
    ensures |WriteSection(es).bytes| == |WriteEntry(es[0]).bytes| + |WriteSection(es[1..]).bytes|
    ensures At(data, offset, WriteEntry(es[0]).bytes)
    ensures At(data, offset + |WriteEntry(es[0]).bytes|, WriteSection(es[1..]).bytes)
  {
    CatAt(data, offset, WriteEntry(es[0]), WriteSection(es[1..]));
  }

  // ----- what the reader takes from the entries

  const MAGIC: seq<byte> := [0x70, 0x73, 0x62, 0x74, 0xff]
  const GLOBAL_UNSIGNED_TX: byte := 0x00
  const GLOBAL_VERSION: byte := 0xfb
  const IN_NON_WITNESS_UTXO: byte := 0x00
  const IN_WITNESS_UTXO: byte := 0x01
  const IN_SIGHASH_TYPE: byte := 0x03
  const IN_TAP_LEAF_SCRIPT: byte := 0x15

  datatype Global = Global(unsignedTx: Option<Tx>, version: nat)

  datatype TapLeaf = TapLeaf(controlBlock: seq<byte>, script: seq<byte>, leafVersion: byte)

  datatype PsbtInput = PsbtInput(witnessUtxo: Option<TxOutput>, nonWitnessUtxo: Option<seq<byte>>,
                                 sighashType: Option<nat>, tapLeafScripts: seq<TapLeaf>)

  datatype Psbt = Psbt(unsignedTx: Tx, inputs: seq<PsbtInput>)

  predicate Keyed(es: seq<Entry>) {
    forall i :: 0 <= i < |es| ==> es[i].key != []
  }

  function GlobalStep(g: Global, e: Entry): Option<Global>
    requires e.key != []
  {
    if e.key[0] == GLOBAL_UNSIGNED_TX then
      if |e.key| != 1 then None
      else
        var tx := ParseTx(e.value);
        if tx.Bad? then None else Some(g.(unsignedTx := Some(tx.value)))
    else if e.key[0] == GLOBAL_VERSION then
      if |e.value| != 4 then None else Some(g.(version := LeNat(e.value)))
    else Some(g)
  }

  function GlobalOf(es: seq<Entry>): Option<Global>
    requires Keyed(es)
  {
    if es == [] then Some(Global(None, 0))
    else
      var g := GlobalOf(es[..|es| - 1]);
      if g.None? then None else GlobalStep(g.value, es[|es| - 1])
  }

  /** The value of a witness-utxo entry, which must be one output and nothing more. */
  function WitnessOf(value: seq<byte>): Option<TxOutput> {
    var o := OutputAt(value, 0);
    if o.Bad? || o.next != |value| then None else Some(o.value)
  }

  function InputStep(p: PsbtInput, e: Entry): Option<PsbtInput>
    requires e.key != []
  {
    if e.key[0] == IN_WITNESS_UTXO then
      if |e.key| != 1 || WitnessOf(e.value).None? then None else Some(p.(witnessUtxo := WitnessOf(e.value)))
    else if e.key[0] == IN_NON_WITNESS_UTXO then
      if |e.key| != 1 then None else Some(p.(nonWitnessUtxo := Some(e.value)))
    else if e.key[0] == IN_SIGHASH_TYPE then
      if |e.key| != 1 || |e.value| != 4 then None else Some(p.(sighashType := Some(LeNat(e.value))))
    else if e.key[0] == IN_TAP_LEAF_SCRIPT then
      if |e.key| == 1 || |e.value| < 2 then None
      else
        var leaf := TapLeaf(e.key[1..], e.value[..|e.value| - 1], e.value[|e.value| - 1]);
        Some(p.(tapLeafScripts := p.tapLeafScripts + [leaf]))
    else Some(p)
  }

  const NO_INPUT := PsbtInput(None, None, None, [])

  function InputOf(es: seq<Entry>): Option<PsbtInput>
    requires Keyed(es)
  {
    if es == [] then Some(NO_INPUT)
    else
      var p := InputOf(es[..|es| - 1]);
      if p.None? then None else InputStep(p.value, es[|es| - 1])
  }

  predicate Consumed(e: Entry)
    requires e.key != []
  {
    e.key[0] in {IN_WITNESS_UTXO, IN_NON_WITNESS_UTXO, IN_SIGHASH_TYPE, IN_TAP_LEAF_SCRIPT}
  }

  function ConsumedOnly(es: seq<Entry>): (r: seq<Entry>)
    requires Keyed(es)
    ensures Keyed(r)
  {
    if es == [] then []
    else
      var front, e := ConsumedOnly(es[..|es| - 1]), es[|es| - 1];
      if Consumed(e) then front + [e] else front
  }

  /** Entries of other key types leave no trace. */
  lemma {:induction false} UnknownKeysSkipped(es: seq<Entry>)
    requires Keyed(es)
    ensures InputOf(es) == InputOf(ConsumedOnly(es))
    decreases |es|
  {
    if es != [] {
      var front, e := es[..|es| - 1], es[|es| - 1];
      UnknownKeysSkipped(front);
      if Consumed(e) {
        var kept := ConsumedOnly(front) + [e];
        assert kept[..|kept| - 1] == ConsumedOnly(front);
      }
    }
  }

  // ----- the whole file

  function PsbtInputAt(data: seq<byte>, offset: nat): Parsed<PsbtInput> {
    var es := SectionAt(data, offset);
    if es.Bad? then Bad(es.error)
    else
      var p := InputOf(es.value);
      if p.None? then Bad(Malformed) else Got(p.value, es.next)
  }

  function PsbtInputReader(data: seq<byte>): nat -> Parsed<PsbtInput> {
    (offset: nat) => PsbtInputAt(data, offset)
  }

  function SectionReader(data: seq<byte>): nat -> Parsed<seq<Entry>> {
    (offset: nat) => SectionAt(data, offset)
  }

  /** The global section; it must declare version 0 and carry a transaction. */
  function GlobalAt(data: seq<byte>, offset: nat): Parsed<Tx> {
    var es := SectionAt(data, offset);
    if es.Bad? then Bad(es.error)
    else
      var g := GlobalOf(es.value);
      if g.None? || g.value.version != 0 || g.value.unsignedTx.None? then Bad(Malformed)
      else Got(g.value.unsignedTx.value, es.next)
  }

  predicate HasMagic(data: seq<byte>) {
    |MAGIC| <= |data| && data[..|MAGIC|] == MAGIC
  }

  /** `parsePsbtBytes` */
  function ParsePsbt(data: seq<byte>): (r: Parsed<Psbt>)
    ensures r.Got? ==> r.next == |data| && |r.value.inputs| == |r.value.unsignedTx.inputs|
  {
    if !HasMagic(data) then Bad(Malformed)
    else
      var tx := GlobalAt(data, |MAGIC|);
      if tx.Bad? then Bad(tx.error)
      else
        var inputs := ManyAt(PsbtInputReader(data), tx.next, |tx.value.inputs|);
        if inputs.Bad? then Bad(inputs.error)
        else
          var outputs := ManyAt(SectionReader(data), inputs.next, |tx.value.outputs|);
          if outputs.Bad? then Bad(outputs.error)
          else if outputs.next != |data| then Bad(Malformed)
          else Got(Psbt(tx.value, inputs.value), outputs.next)
  }

  function SectionWriter(): seq<Entry> -> Written {
    (es: seq<Entry>) => WriteSection(es)
  }

  /** A file of one global section, the input sections and the output sections. */
  function WritePsbt(global: seq<Entry>, ins: seq<seq<Entry>>, outs: seq<seq<Entry>>): Written {
    Cat(Cat(Wrote(MAGIC), WriteSection(global)), Cat(Many(SectionWriter(), ins), Many(SectionWriter(), outs)))
  }

  lemma {:induction false} SectionsInvert(data: seq<byte>, xs: seq<seq<Entry>>)
    ensures Inverts(SectionReader(data), SectionWriter(), data, xs)
  {
    forall i, offset: nat | 0 <= i < |xs| && WriteSection(xs[i]).Wrote? && At(data, offset, WriteSection(xs[i]).bytes)
      ensures SectionAt(data, offset) == Got(xs[i], offset + |WriteSection(xs[i]).bytes|)
    {
      SectionReads(data, offset, xs[i]);
    }
  }

  /** Reading input sections is splitting off the sections, then interpreting each. */
  lemma {:induction false} InputsAreSections(data: seq<byte>, offset: nat, count: nat)
    ensures var p, es := ManyAt(PsbtInputReader(data), offset, count), ManyAt(SectionReader(data), offset, count);
            && (p.Got? <==> es.Got? && EachReads(es.value))
            && (p.Got? ==> p == Got(InputsOf(es.value), es.next))
    decreases count
  {
    if count > 0 {
      var s := SectionAt(data, offset);
      if s.Got? {
        InputsAreSections(data, s.next, count - 1);
        var rest := ManyAt(SectionReader(data), s.next, count - 1);
        if rest.Got? {
          var all := [s.value] + rest.value;
          assert all[1..] == rest.value;
        }
      }
    }
  }

  /** Every section is keyed and interprets without failure. */
  predicate EachReads(ess: seq<seq<Entry>>) {
    ess == [] || (Keyed(ess[0]) && InputOf(ess[0]).Some? && EachReads(ess[1..]))
  }

  function InputsOf(ess: seq<seq<Entry>>): (r: seq<PsbtInput>)
    requires EachReads(ess)
    ensures |r| == |ess|
  {
    if ess == [] then [] else [InputOf(ess[0]).value] + InputsOf(ess[1..])
  }

  /** Where the sections of a written file stand. */
  lemma {:induction false} FileParts(data: seq<byte>, global: seq<Entry>, ins: seq<seq<Entry>>, outs: seq<seq<Entry>>)
      returns (a: nat, b: nat)
    requires WritePsbt(global, ins, outs) == Wrote(data)
    ensures HasMagic(data)
    ensures SectionAt(data, |MAGIC|) == Got(global, a)
    ensures ManyAt(SectionReader(data), a, |ins|) == Got(ins, b)
    ensures ManyAt(SectionReader(data), b, |outs|) == Got(outs, |data|)
  {
    a, b := FileAt(data, global, ins, outs);
    FirstSectionRead(data, |MAGIC|, global, a);
    SectionsReadTo(data, a, ins, b);
    SectionsReadTo(data, b, outs, |data|);
  }

  lemma {:induction false} FirstSectionRead(data: seq<byte>, offset: nat, es: seq<Entry>, next: nat)
    requires var head := WriteSection(es); head.Wrote? && At(data, offset, head.bytes) && next == offset + |head.bytes|
    ensures SectionAt(data, offset) == Got(es, next)
  {
    SectionReads(data, offset, es);
  }

  lemma {:induction false} SectionsReadTo(data: seq<byte>, offset: nat, ess: seq<seq<Entry>>, next: nat)
    requires var w := Many(SectionWriter(), ess); w.Wrote? && At(data, offset, w.bytes) && next == offset + |w.bytes|
    ensures ManyAt(SectionReader(data), offset, |ess|) == Got(ess, next)
  {
    SectionsRead(data, offset, ess);
  }

  lemma {:induction false} FileAt(data: seq<byte>, global: seq<Entry>, ins: seq<seq<Entry>>, outs: seq<seq<Entry>>)
      returns (a: nat, b: nat)
    requires WritePsbt(global, ins, outs) == Wrote(data)
    ensures HasMagic(data)
    ensures var head := WriteSection(global);
            head.Wrote? && At(data, |MAGIC|, head.bytes) && a == |MAGIC| + |head.bytes|
    ensures var front := Many(SectionWriter(), ins);
            front.Wrote? && At(data, a, front.bytes) && b == a + |front.bytes|
    ensures var back := Many(SectionWriter(), outs);
            back.Wrote? && At(data, b, back.bytes) && |data| == b + |back.bytes|
  {
    var head, front, back := WriteSection(global), Many(SectionWriter(), ins), Many(SectionWriter(), outs);
    assert At(data, 0, data) by { AtWhole(data); }
    CatAt4(data, 0, Wrote(MAGIC), head, front, back);
    a := |MAGIC| + |head.bytes|;
    b := a + |front.bytes|;
    assert HasMagic(data) by { TakeReads(data, 0, MAGIC); }
  }

  lemma {:induction false} SectionsRead(data: seq<byte>, offset: nat, ess: seq<seq<Entry>>)
    requires Many(SectionWriter(), ess).Wrote? && At(data, offset, Many(SectionWriter(), ess).bytes)
    ensures ManyAt(SectionReader(data), offset, |ess|) == Got(ess, offset + |Many(SectionWriter(), ess).bytes|)
  {
    SectionsInvert(data, ess);
    ManyReads(SectionReader(data), SectionWriter(), data, offset, ess);
  }

  /**
    Parsing a file is interpreting its sections: it succeeds exactly when every input
    section interprets, and then yields the transaction and those inputs.
   */
  lemma {:induction false} ParseInterpretsSections(data: seq<byte>, global: seq<Entry>, ins: seq<seq<Entry>>,
                                                   outs: seq<seq<Entry>>, tx: Tx)
    requires WritePsbt(global, ins, outs) == Wrote(data)
    requires Keyed(global) && GlobalOf(global) == Some(Global(Some(tx), 0))
    requires |ins| == |tx.inputs| && |outs| == |tx.outputs|
    ensures ParsePsbt(data).Got? <==> EachReads(ins)
    ensures EachReads(ins) ==> ParsePsbt(data) == Got(Psbt(tx, InputsOf(ins)), |data|)
  {
    var a, b := FileParts(data, global, ins, outs);
    assert GlobalAt(data, |MAGIC|) == Got(tx, a);
    InputsAreSections(data, a, |ins|);
  }

  /** The sections of an accepted file tile it from the magic bytes to the last byte. */
  lemma {:induction false} AcceptedFileIsTiled(data: seq<byte>, p: Psbt) returns (sections: seq<seq<Entry>>)
    requires ParsePsbt(data) == Got(p, |data|)
    ensures |sections| == 1 + |p.unsignedTx.inputs| + |p.unsignedTx.outputs|
    ensures ManyAt(SectionReader(data), |MAGIC|, |sections|) == Got(sections, |data|)
    ensures EachReads(sections[1..1 + |p.inputs|]) && p.inputs == InputsOf(sections[1..1 + |p.inputs|])
  {
    var head, ins, outs, a, b := AcceptedParts(data, p);
    ManyJoin(SectionReader(data), a, ins, b, outs, |data|);
    OneSection(data, |MAGIC|);
    ManyJoin(SectionReader(data), |MAGIC|, [head], a, ins + outs, |data|);
    sections := [head] + (ins + outs);
    MiddleOf(head, ins, outs);
  }

  lemma {:induction false} MiddleOf<T>(x: T, xs: seq<T>, ys: seq<T>)
    ensures ([x] + (xs + ys))[1..1 + |xs|] == xs
  {
  }

  lemma {:induction false} AcceptedParts(data: seq<byte>, p: Psbt)
      returns (head: seq<Entry>, ins: seq<seq<Entry>>, outs: seq<seq<Entry>>, a: nat, b: nat)
    requires ParsePsbt(data) == Got(p, |data|)
    ensures |ins| == |p.unsignedTx.inputs| == |p.inputs| && |outs| == |p.unsignedTx.outputs|
    ensures SectionAt(data, |MAGIC|) == Got(head, a)
    ensures ManyAt(SectionReader(data), a, |ins|) == Got(ins, b)
    ensures ManyAt(SectionReader(data), b, |outs|) == Got(outs, |data|)
    ensures EachReads(ins) && p.inputs == InputsOf(ins)
  {
    var tx := GlobalAt(data, |MAGIC|);
    head, a := SectionAt(data, |MAGIC|).value, tx.next;
    InputsAreSections(data, a, |tx.value.inputs|);
    var r := ManyAt(SectionReader(data), a, |tx.value.inputs|);
    ins, b := r.value, r.next;
    outs := ManyAt(SectionReader(data), b, |tx.value.outputs|).value;
  }

  lemma {:induction false} OneSection(data: seq<byte>, offset: nat)
    requires SectionAt(data, offset).Got?
    ensures ManyAt(SectionReader(data), offset, 1) == Got([SectionAt(data, offset).value], SectionAt(data, offset).next)
  {
    ManyDone(SectionReader(data), SectionAt(data, offset).next, [SectionAt(data, offset).value]);
  }

  // ----- the reader as the source runs it

  method ReadVarInt(c: Decoder) returns (r: Parsed<nat>)
    modifies c
    ensures r == VarIntAt(c.data, old(c.offset))
    ensures r.Got? ==> c.offset == r.next
  {
    var first :- c.ReadBytes(U8);
    if first[0] < 0xfd {
      return Got(first[0], c.offset);
    }
    r := c.ReadLe(WidthOf(first[0]));
    if r.Got? && r.value > MAX_SAFE_INTEGER {
      r := Bad(Malformed);
    }
  }

  method ReadBlob(c: Decoder) returns (r: Parsed<seq<byte>>)
    modifies c
    ensures r == BlobAt(c.data, old(c.offset))
    ensures r.Got? ==> c.offset == r.next
  {
    var n :- ReadVarInt(c);
    r := c.ReadBytes(n);
  }

  method ReadAmount(c: Decoder) returns (r: Parsed<nat>)
    modifies c
    ensures r == AmountAt(c.data, old(c.offset))
    ensures r.Got? ==> c.offset == r.next
  {
    r := c.ReadLe(U64);
    if r.Got? && r.value > MAX_SAFE_INTEGER {
      r := Bad(Malformed);
    }
  }

  method ReadInput(c: Decoder) returns (r: Parsed<TxInput>)
    modifies c
    ensures r == InputAt(c.data, old(c.offset))
    ensures r.Got? ==> c.offset == r.next
  {
    var txid :- c.ReadBytes(TXID);
    var vout :- c.ReadLe(U32);
    var script :- ReadBlob(c);
    var sequence :- c.ReadLe(U32);
    r := Got(TxInput(txid, vout, script, sequence), c.offset);
  }

  method ReadOutput(c: Decoder) returns (r: Parsed<TxOutput>)
    modifies c
    ensures r == OutputAt(c.data, old(c.offset))
    ensures r.Got? ==> c.offset == r.next
  {
    var value :- ReadAmount(c);
    var script :- ReadBlob(c);
    r := Got(TxOutput(value, script), c.offset);
  }

  /** `item` reads what `InputAt` reads; stated so that it is used only where `InputAt` is mentioned. */
  ghost predicate ReadsInputs(item: nat -> Parsed<TxInput>, data: seq<byte>) {
    forall offset: nat {:trigger InputAt(data, offset)} :: item(offset) == InputAt(data, offset)
  }

  method ReadInputItem(c: Decoder, ghost item: nat -> Parsed<TxInput>) returns (r: Parsed<TxInput>)
    requires ReadsInputs(item, c.data)
    modifies c
    ensures r == item(old(c.offset))
    ensures r.Got? ==> c.offset == r.next
  {
    r := ReadInput(c);
  }

  method ReadInputList(c: Decoder, count: nat, ghost item: nat -> Parsed<TxInput>) returns (r: Parsed<seq<TxInput>>)
    requires ReadsInputs(item, c.data)
    modifies c
    ensures r == ManyAt(item, old(c.offset), count)
    ensures r.Got? ==> c.offset == r.next
  {
    var inputs: seq<TxInput> := [];
    PrependNone(ManyAt(item, c.offset, count));
    for i := 0 to count
      invariant ManyAt(item, old(c.offset), count) == Prepend(inputs, ManyAt(item, c.offset, count - i))
    {
      ManyStep(item, c.offset, count - i, inputs);
      var input :- ReadInputItem(c, item);
      inputs := inputs + [input];
    }
    ManyDone(item, c.offset, inputs);
    r := Got(inputs, c.offset);
  }

  method ReadInputs(c: Decoder) returns (r: Parsed<seq<TxInput>>)
    modifies c
    ensures r == CountedAt(InputReader(c.data), c.data, old(c.offset))
    ensures r.Got? ==> c.offset == r.next
  {
    var count :- ReadVarInt(c);
    r := ReadInputList(c, count, InputReader(c.data));
  }

  ghost predicate ReadsOutputs(item: nat -> Parsed<TxOutput>, data: seq<byte>) {
    forall offset: nat {:trigger OutputAt(data, offset)} :: item(offset) == OutputAt(data, offset)
  }

  method ReadOutputItem(c: Decoder, ghost item: nat -> Parsed<TxOutput>) returns (r: Parsed<TxOutput>)
    requires ReadsOutputs(item, c.data)
    modifies c
    ensures r == item(old(c.offset))
    ensures r.Got? ==> c.offset == r.next
  {
    r := ReadOutput(c);
  }

  method ReadOutputList(c: Decoder, count: nat, ghost item: nat -> Parsed<TxOutput>) returns (r: Parsed<seq<TxOutput>>)
    requires ReadsOutputs(item, c.data)
    modifies c
    ensures r == ManyAt(item, old(c.offset), count)
    ensures r.Got? ==> c.offset == r.next
  {
    var outputs: seq<TxOutput> := [];
    PrependNone(ManyAt(item, c.offset, count));
    for i := 0 to count
      invariant ManyAt(item, old(c.offset), count) == Prepend(outputs, ManyAt(item, c.offset, count - i))
    {
      ManyStep(item, c.offset, count - i, outputs);
      var output :- ReadOutputItem(c, item);
      outputs := outputs + [output];
    }
    ManyDone(item, c.offset, outputs);
    r := Got(outputs, c.offset);
  }

  method ReadOutputs(c: Decoder) returns (r: Parsed<seq<TxOutput>>)
    modifies c
    ensures r == CountedAt(OutputReader(c.data), c.data, old(c.offset))
    ensures r.Got? ==> c.offset == r.next
  {
    var count :- ReadVarInt(c);
    r := ReadOutputList(c, count, OutputReader(c.data));
  }

  method ParseTransaction(tx: seq<byte>) returns (r: Parsed<Tx>)
    ensures r == ParseTx(tx)
  {
    var c := new Decoder(tx);
    var version :- c.ReadLe(U32);
    var inputs :- ReadInputs(c);
    var outputs :- ReadOutputs(c);
    var lockTime :- c.ReadLe(U32);
    if c.offset != |tx| {
      return Bad(Malformed);
    }
    r := Got(Tx(version, inputs, outputs, lockTime), c.offset);
  }

  method ReadSection(c: Decoder) returns (r: Parsed<seq<Entry>>)
    modifies c
    ensures r == SectionAt(c.data, old(c.offset))
    ensures r.Got? ==> c.offset == r.next
  {
    ghost var whole := SectionAt(c.data, c.offset);
    var entries: seq<Entry> := [];
    PrependNone(whole);
    while true
      invariant whole == Prepend(entries, SectionAt(c.data, c.offset))
      decreases |c.data| - c.offset
    {
      ghost var start := c.offset;
      SectionStep(c.data, start, entries);
      var n :- ReadVarInt(c);
      if n == 0 {
        break;
      }
      var key :- c.ReadBytes(n);
      var value :- ReadBlob(c);
      entries := entries + [Entry(key, value)];
    }
    r := Got(entries, c.offset);
  }

  lemma {:induction false} SectionStep(data: seq<byte>, offset: nat, done: seq<Entry>)
    ensures var e := EntryAt(data, offset);
            Prepend(done, SectionAt(data, offset)) ==
            if e.Bad? then Bad(e.error)
            else if e.value.None? then Got(done, e.next)
            else Prepend(done + [e.value.value], SectionAt(data, e.next))
  {
    var e := EntryAt(data, offset);
    if e.Got? && e.value.None? {
      assert done + [] == done;
    } else if e.Got? {
      PrependOne(done, e.value.value, SectionAt(data, e.next));
    }
  }

  /** The entry loop over the global section. */
  method TakeGlobal(es: seq<Entry>) returns (r: Option<Global>)
    requires Keyed(es)
    ensures r == GlobalOf(es)
  {
    var g := Global(None, 0);
    for i := 0 to |es|
      invariant GlobalOf(es[..i]) == Some(g)
    {
      assert es[..i + 1][..i] == es[..i];
      var next := GlobalStep(g, es[i]);
      if next.None? {
        GlobalFails(es, i + 1);
        return None;
      }
      g := next.value;
    }
    assert es[..|es|] == es;
    r := Some(g);
  }

  lemma {:induction false} GlobalFails(es: seq<Entry>, i: nat)
    requires Keyed(es) && i <= |es| && GlobalOf(es[..i]).None?
    ensures GlobalOf(es).None?
    decreases |es| - i
  {
    if i == |es| {
      assert es[..i] == es;
    } else {
      assert es[..i + 1][..i] == es[..i];
      GlobalFails(es, i + 1);
    }
  }

  /** The entry loop over an input section. */
  method TakeInput(es: seq<Entry>) returns (r: Option<PsbtInput>)
    requires Keyed(es)
    ensures r == InputOf(es)
  {
    var p := NO_INPUT;
    for i := 0 to |es|
      invariant InputOf(es[..i]) == Some(p)
    {
      assert es[..i + 1][..i] == es[..i];
      var next := InputStep(p, es[i]);
      if next.None? {
        InputFails(es, i + 1);
        return None;
      }
      p := next.value;
    }
    assert es[..|es|] == es;
    r := Some(p);
  }

  lemma {:induction false} InputFails(es: seq<Entry>, i: nat)
    requires Keyed(es) && i <= |es| && InputOf(es[..i]).None?
    ensures InputOf(es).None?
    decreases |es| - i
  {
    if i == |es| {
      assert es[..i] == es;
    } else {
      assert es[..i + 1][..i] == es[..i];
      InputFails(es, i + 1);
    }
  }

  method ReadPsbtInput(c: Decoder) returns (r: Parsed<PsbtInput>)
    modifies c
    ensures r == PsbtInputAt(c.data, old(c.offset))
    ensures r.Got? ==> c.offset == r.next
  {
    var es :- ReadSection(c);
    var p := TakeInput(es);
    r := if p.None? then Bad(Malformed) else Got(p.value, c.offset);
  }

  method ReadPsbtInputs(c: Decoder, count: nat) returns (r: Parsed<seq<PsbtInput>>)
    modifies c
    ensures r == ManyAt(PsbtInputReader(c.data), old(c.offset), count)
    ensures r.Got? ==> c.offset == r.next
  {
    ghost var item := PsbtInputReader(c.data);
    var inputs: seq<PsbtInput> := [];
    PrependNone(ManyAt(item, c.offset, count));
    for i := 0 to count
      invariant ManyAt(item, old(c.offset), count) == Prepend(inputs, ManyAt(item, c.offset, count - i))
    {
      ManyStep(item, c.offset, count - i, inputs);
      var input :- ReadPsbtInput(c);
      inputs := inputs + [input];
    }
    ManyDone(item, c.offset, inputs);
    r := Got(inputs, c.offset);
  }

  ghost predicate ReadsSections(item: nat -> Parsed<seq<Entry>>, data: seq<byte>) {
    forall offset: nat {:trigger SectionAt(data, offset)} :: item(offset) == SectionAt(data, offset)
  }

  method SkipSection(c: Decoder, ghost item: nat -> Parsed<seq<Entry>>) returns (r: Parsed<seq<Entry>>)
    requires ReadsSections(item, c.data)
    modifies c
    ensures r == item(old(c.offset))
    ensures r.Got? ==> c.offset == r.next
  {
    r := ReadSection(c);
  }

  /** The output sections are walked and dropped. */
  method SkipSections(c: Decoder, count: nat, ghost item: nat -> Parsed<seq<Entry>>) returns (r: Parsed<()>)
    requires ReadsSections(item, c.data)
    modifies c
    ensures var all := ManyAt(item, old(c.offset), count);
            r == if all.Bad? then Bad(all.error) else Got((), all.next)
    ensures r.Got? ==> c.offset == r.next
  {
    ghost var skipped: seq<seq<Entry>> := [];
    PrependNone(ManyAt(item, c.offset, count));
    for i := 0 to count
      invariant ManyAt(item, old(c.offset), count) == Prepend(skipped, ManyAt(item, c.offset, count - i))
    {
      ManyStep(item, c.offset, count - i, skipped);
      var es :- SkipSection(c, item);
      skipped := skipped + [es];
    }
    ManyDone(item, c.offset, skipped);
    r := Got((), c.offset);
  }

  method ParsePsbtBytes(decoded: seq<byte>) returns (r: Parsed<Psbt>)
    ensures r == ParsePsbt(decoded)
  {
    if !HasMagic(decoded) {
      return Bad(Malformed);
    }
    var c := new Decoder(decoded);
    c.offset := |MAGIC|;
    var es :- ReadSection(c);
    var g := TakeGlobal(es);
    if g.None? || g.value.version != 0 || g.value.unsignedTx.None? {
      return Bad(Malformed);
    }
    var tx := g.value.unsignedTx.value;
    var inputs :- ReadPsbtInputs(c, |tx.inputs|);
    var _ :- SkipSections(c, |tx.outputs|, SectionReader(decoded));
    if c.offset != |decoded| {
      return Bad(Malformed);
    }
    r := Got(Psbt(tx, inputs), c.offset);
  }
}
