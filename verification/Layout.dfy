/**
  Bytes written out one by one: the fixed-width integers and the length-delimited
  field, and that the readers and writers of `Bytes` go by exactly these.
 */
module Layout {
  import opened Bytes

  /** Two, four and eight bytes, the most significant first. */
  function Short(n: nat): (s: seq<byte>)
    ensures |s| == 2
  {
    [n / 0x100 % 256, n % 256]
  }

  function Word(n: nat): (s: seq<byte>)
    ensures |s| == 4
  {
    [n / 0x100_0000 % 256, n / 0x1_0000 % 256, n / 0x100 % 256, n % 256]
  }

  function Long(n: nat): (s: seq<byte>)
    ensures |s| == 8
  {
    Word(n / 0x1_0000_0000) + Word(n)
  }

  /** Two, four and eight bytes, the least significant first. */
  function ShortLe(n: nat): (s: seq<byte>)
    ensures |s| == 2
  {
    [n % 256, n / 0x100 % 256]
  }

  function WordLe(n: nat): (s: seq<byte>)
    ensures |s| == 4
  {
    [n % 256, n / 0x100 % 256, n / 0x1_0000 % 256, n / 0x100_0000 % 256]
  }

  function LongLe(n: nat): (s: seq<byte>)
    ensures |s| == 8
  {
    WordLe(n) + WordLe(n / 0x1_0000_0000)
  }

  /** The length in four bytes, then the bytes. */
  function Prefixed(bytes: seq<byte>): (s: seq<byte>)
    ensures |s| == 4 + |bytes|
  {
    Word(|bytes|) + bytes
  }

  lemma {:induction false} BePush(v: nat, n: nat)
    ensures BeBytes(v, n + 1) == BeBytes(v / 256, n) + [v % 256]
  {
  }

  lemma {:induction false} LePush(v: nat, n: nat)
    ensures LeBytes(v, n + 1) == [v % 256] + LeBytes(v / 256, n)
  {
  }

  /** Quotients by powers of 256 in steps. */
  lemma {:induction false} Quotients(n: nat)
    ensures n / 256 / 256 == n / 0x1_0000 && n / 256 / 256 / 256 == n / 0x100_0000
    ensures n / 256 / 256 / 256 / 256 == n / 0x1_0000_0000
  {
  }

  lemma {:induction false} BeTwo(v: nat)
    ensures BeBytes(v, U16) == Short(v)
  {
    BePush(v, 1);
    BePush(v / 256, 0);
  }

  lemma {:induction false} BeFour(v: nat)
    ensures BeBytes(v, U32) == Word(v)
  {
    var a, b, c := v / 256, v / 256 / 256, v / 256 / 256 / 256;
    BePush(v, 3);
    BePush(a, 2);
    BePush(b, 1);
    BePush(c, 0);
    Quotients(v);
    assert BeBytes(c, 1) == [c % 256];
    assert BeBytes(b, 2) == [c % 256, b % 256];
    assert BeBytes(a, 3) == [c % 256, b % 256, a % 256];
  }

  lemma {:induction false} BeJoinStep(v: nat, m: nat, n: nat, h: nat)
    requires BeBytes(v / 256, m + n) == BeBytes(h, m) + BeBytes(v / 256, n)
    ensures BeBytes(v, m + n + 1) == BeBytes(h, m) + BeBytes(v, n + 1)
  {
    BePush(v, m + n);
    BePush(v, n);
    assert BeBytes(h, m) + BeBytes(v / 256, n) + [v % 256] == BeBytes(h, m) + (BeBytes(v / 256, n) + [v % 256]);
  }

  lemma {:induction false} BeEight(v: nat)
    ensures BeBytes(v, U64) == Long(v)
  {
    var a, b, c, h := v / 256, v / 256 / 256, v / 256 / 256 / 256, v / 0x1_0000_0000;
    Quotients(v);
    assert BeBytes(h, 4) == BeBytes(h, 4) + BeBytes(h, 0);
    BeJoinStep(c, 4, 0, h);
    BeJoinStep(b, 4, 1, h);
    BeJoinStep(a, 4, 2, h);
    BeJoinStep(v, 4, 3, h);
    BeFour(h);
    BeFour(v);
  }

  lemma {:induction false} LeTwo(v: nat)
    ensures LeBytes(v, U16) == ShortLe(v)
  {
    LePush(v, 1);
    LePush(v / 256, 0);
  }

  lemma {:induction false} LeFour(v: nat)
    ensures LeBytes(v, U32) == WordLe(v)
  {
    var a, b, c := v / 256, v / 256 / 256, v / 256 / 256 / 256;
    LePush(v, 3);
    LePush(a, 2);
    LePush(b, 1);
    LePush(c, 0);
    Quotients(v);
    assert LeBytes(c, 1) == [c % 256];
    assert LeBytes(b, 2) == [b % 256, c % 256];
    assert LeBytes(a, 3) == [a % 256, b % 256, c % 256];
  }

  lemma {:induction false} LeJoinStep(v: nat, m: nat, n: nat, h: nat)
    requires LeBytes(v / 256, m + n) == LeBytes(v / 256, m) + LeBytes(h, n)
    ensures LeBytes(v, m + 1 + n) == LeBytes(v, m + 1) + LeBytes(h, n)
  {
    LePush(v, m + n);
    LePush(v, m);
    assert [v % 256] + (LeBytes(v / 256, m) + LeBytes(h, n)) == [v % 256] + LeBytes(v / 256, m) + LeBytes(h, n);
  }

  lemma {:induction false} LeEight(v: nat)
    ensures LeBytes(v, U64) == LongLe(v)
  {
    var a, b, c, h := v / 256, v / 256 / 256, v / 256 / 256 / 256, v / 0x1_0000_0000;
    Quotients(v);
    assert LeBytes(h, 4) == LeBytes(h, 0) + LeBytes(h, 4);
    LeJoinStep(c, 0, 4, h);
    LeJoinStep(b, 1, 4, h);
    LeJoinStep(a, 2, 4, h);
    LeJoinStep(v, 3, 4, h);
    LeFour(v);
    LeFour(h);
  }

  /** What is written when `ok`, and nothing otherwise. */
  function Writes(ok: bool, bytes: seq<byte>): Written {
    if ok then Wrote(bytes) else OutOfRange
  }

  lemma {:induction false} CatWrites(a: bool, x: seq<byte>, b: bool, y: seq<byte>)
    ensures Cat(Writes(a, x), Writes(b, y)) == Writes(a && b, x + y)
  {
  }

  /** The writers refuse exactly what does not fit and write the bytes above. */
  lemma {:induction false} WritersAre(v: nat, bytes: seq<byte>)
    ensures Be(v, 1) == Writes(v < 0x100, [v % 256]) && Be(v, U16) == Writes(v < 0x1_0000, Short(v))
    ensures Be(v, U32) == Writes(v < 0x1_0000_0000, Word(v)) && Be(v, U64) == Writes(v < 0x1_0000_0000_0000_0000, Long(v))
    ensures Delimited(bytes) == Writes(|bytes| < 0x1_0000_0000, Prefixed(bytes))
  {
    Pow256Values();
    BePush(v, 0);
    assert Pow256(1) == 256 * Pow256(0);
    BeTwo(v);
    BeFour(v);
    BeEight(v);
    BeFour(|bytes|);
  }

  lemma {:induction false} LittleWritersAre(v: nat)
    ensures Le(v, U16) == Writes(v < 0x1_0000, ShortLe(v)) && Le(v, U32) == Writes(v < 0x1_0000_0000, WordLe(v))
    ensures Le(v, U64) == Writes(v < 0x1_0000_0000_0000_0000, LongLe(v))
  {
    Pow256Values();
    LeTwo(v);
    LeFour(v);
    LeEight(v);
  }

  // ----- reading

  /** A read succeeds exactly where the bytes of its value stand. */
  lemma {:induction false} TakeExact(data: seq<byte>, offset: nat, bytes: seq<byte>, next: nat)
    ensures TakeAt(data, offset, |bytes|) == Got(bytes, next) <==> At(data, offset, bytes) && next == offset + |bytes|
  {
    if At(data, offset, bytes) {
      TakeReads(data, offset, bytes);
    }
    var r := TakeAt(data, offset, |bytes|);
    if r == Got(bytes, next) {
      forall i | 0 <= i < |bytes| ensures data[offset + i] == bytes[i] {
        assert data[offset..offset + |bytes|][i] == data[offset + i];
      }
    }
  }

  lemma {:induction false} ByteExact(data: seq<byte>, offset: nat, b: byte, next: nat)
    ensures TakeAt(data, offset, 1) == Got([b], next) <==> At(data, offset, [b]) && next == offset + 1
  {
    TakeExact(data, offset, [b], next);
  }

  lemma {:induction false} BeExact(data: seq<byte>, offset: nat, v: nat, width: nat, next: nat)
    ensures BeAt(data, offset, width) == Got(v, next) <==>
            v < Pow256(width) && At(data, offset, BeBytes(v, width)) && next == offset + width
  {
    if BeAt(data, offset, width) == Got(v, next) {
      var b := TakeAt(data, offset, width).value;
      BeNatBound(b);
      BeWriteRead(b);
      TakeExact(data, offset, b, next);
    }
    if v < Pow256(width) && At(data, offset, BeBytes(v, width)) {
      BeReads(data, offset, v, width);
    }
  }

  lemma {:induction false} LeExact(data: seq<byte>, offset: nat, v: nat, width: nat, next: nat)
    ensures LeAt(data, offset, width) == Got(v, next) <==>
            v < Pow256(width) && At(data, offset, LeBytes(v, width)) && next == offset + width
  {
    if LeAt(data, offset, width) == Got(v, next) {
      LeAtWritten(data, offset, width);
    }
    if v < Pow256(width) && At(data, offset, LeBytes(v, width)) {
      LeReads(data, offset, v, width);
    }
  }

  lemma {:induction false} ShortExact(data: seq<byte>, offset: nat, v: nat, next: nat)
    ensures BeAt(data, offset, U16) == Got(v, next) <==> v < 0x1_0000 && At(data, offset, Short(v)) && next == offset + 2
  {
    BeExact(data, offset, v, U16, next);
    BeTwo(v);
    Pow256Values();
  }

  lemma {:induction false} WordExact(data: seq<byte>, offset: nat, v: nat, next: nat)
    ensures BeAt(data, offset, U32) == Got(v, next) <==> v < 0x1_0000_0000 && At(data, offset, Word(v)) && next == offset + 4
  {
    BeExact(data, offset, v, U32, next);
    BeFour(v);
    Pow256Values();
  }

  lemma {:induction false} LongExact(data: seq<byte>, offset: nat, v: nat, next: nat)
    ensures BeAt(data, offset, U64) == Got(v, next) <==>
            v < 0x1_0000_0000_0000_0000 && At(data, offset, Long(v)) && next == offset + 8
  {
    BeExact(data, offset, v, U64, next);
    BeEight(v);
    Pow256Values();
  }

  lemma {:induction false} PrefixedExact(data: seq<byte>, offset: nat, bytes: seq<byte>, next: nat)
    ensures DelimitedAt(data, offset) == Got(bytes, next) <==>
            |bytes| < 0x1_0000_0000 && At(data, offset, Prefixed(bytes)) && next == offset + 4 + |bytes|
  {
    AtConcat(data, offset, Word(|bytes|), bytes);
    WordExact(data, offset, |bytes|, offset + 4);
    TakeExact(data, offset + 4, bytes, next);
    var n := BeAt(data, offset, U32);
    if DelimitedAt(data, offset) == Got(bytes, next) {
      assert n.value == |bytes|;
    }
  }
}
