/**
  Fixed-width integers as bytes in both byte orders, and the reading cursor the
  decoders share. Every reader is given twice: as a function of the buffer and an
  offset, and as a method of the cursor that is proved to compute it.
 */
module Bytes {

  type byte = x: nat | x < 256

  /** Widths in bytes of the fixed-size integers. */
  const U16: nat := 2
  const U32: nat := 4
  const U64: nat := 8

  function Pow256(n: nat): (p: nat)
    ensures p >= 1
  {
    if n == 0 then 1 else 256 * Pow256(n - 1)
  }

  // ----- little-endian

  function LeNat(s: seq<byte>): nat {
    if s == [] then 0 else s[0] + 256 * LeNat(s[1..])
  }

  function LeBytes(v: nat, n: nat): (s: seq<byte>)
    ensures |s| == n
    decreases n, v
  {
    if n == 0 then [] else [v % 256] + LeBytes(v / 256, n - 1)
  }

  lemma {:induction false} LeNatBound(s: seq<byte>)
    ensures LeNat(s) < Pow256(|s|)
  {
    if s != [] {
      LeNatBound(s[1..]);
    }
  }

  lemma {:induction false} LeReadWrite(v: nat, n: nat)
    requires v < Pow256(n)
    ensures LeNat(LeBytes(v, n)) == v
    decreases n, v
  {
    if n > 0 {
      LeReadWrite(v / 256, n - 1);
      assert LeBytes(v, n)[1..] == LeBytes(v / 256, n - 1);
    }
  }

  lemma {:induction false} LeWriteRead(s: seq<byte>)
    ensures LeBytes(LeNat(s), |s|) == s
  {
    if s != [] {
      LeWriteRead(s[1..]);
      assert LeNat(s) % 256 == s[0] && LeNat(s) / 256 == LeNat(s[1..]);
    }
  }

  /** Written in too few bytes a number keeps its low end. */
  lemma {:induction false} LeBytesWrap(v: nat, n: nat)
    ensures LeNat(LeBytes(v, n)) == v % Pow256(n)
    decreases n, v
  {
    if n > 0 {
      var p := Pow256(n - 1);
      LeBytesWrap(v / 256, n - 1);
      assert LeBytes(v, n)[1..] == LeBytes(v / 256, n - 1);
      WrapStep(v, p);
    }
  }

  lemma {:induction false} WrapStep(v: nat, p: nat)
    requires p >= 1
    ensures v % (256 * p) == v % 256 + 256 * ((v / 256) % p)
  {
    var q, r := v / 256, v % 256;
    var k, m := q / p, q % p;
    assert q == k * p + m && v == 256 * q + r;
    assert v == k * (256 * p) + (256 * m + r);
    assert 256 * m + r < 256 * p;
    DivideUnique(v, 256 * p, k, 256 * m + r);
  }

  lemma {:induction false} DivideUnique(v: nat, d: nat, k: nat, r: nat)
    requires d >= 1 && v == k * d + r && r < d
    ensures v % d == r
  {
    var k', r' := v / d, v % d;
    assert v == d * k' + r';
    if k' > k {
      Apart(d, k', r', k, r);
    } else if k' < k {
      Apart(d, k, r, k', r');
    }
  }

  lemma {:induction false} Apart(d: nat, k: nat, r: nat, l: nat, s: nat)
    requires k > l && s < d
    ensures d * k + r != d * l + s
  {
    Larger(d, k, l);
  }

  lemma {:induction false} Larger(d: nat, k: nat, l: nat)
    requires k > l
    ensures d * k >= d * l + d
    decreases k
  {
    var m: nat := k - 1;
    assert d * k == d * m + d;
    if m > l {
      Larger(d, m, l);
    }
  }

  // ----- big-endian

  function BeNat(s: seq<byte>): nat {
    if s == [] then 0 else 256 * BeNat(s[..|s| - 1]) + s[|s| - 1]
  }

  function BeBytes(v: nat, n: nat): (s: seq<byte>)
    ensures |s| == n
    decreases n, v
  {
    if n == 0 then [] else BeBytes(v / 256, n - 1) + [v % 256]
  }

  lemma {:induction false} BeNatBound(s: seq<byte>)
    ensures BeNat(s) < Pow256(|s|)
  {
    if s != [] {
      BeNatBound(s[..|s| - 1]);
    }
  }

  lemma {:induction false} BeReadWrite(v: nat, n: nat)
    requires v < Pow256(n)
    ensures BeNat(BeBytes(v, n)) == v
    decreases n, v
  {
    if n > 0 {
      BeReadWrite(v / 256, n - 1);
      assert BeBytes(v, n)[..n - 1] == BeBytes(v / 256, n - 1);
    }
  }

  lemma {:induction false} BeWriteRead(s: seq<byte>)
    ensures BeBytes(BeNat(s), |s|) == s
    decreases |s|
  {
    if s != [] {
      var n := |s| - 1;
      BeWriteRead(s[..n]);
      assert BeNat(s) % 256 == s[n] && BeNat(s) / 256 == BeNat(s[..n]);
      assert s == s[..n] + [s[n]];
    }
  }

  // ----- a piece of a buffer

  /** `bytes` stands in `data` at `offset`. */
  ghost predicate At(data: seq<byte>, offset: nat, bytes: seq<byte>) {
    offset + |bytes| <= |data| && forall i :: 0 <= i < |bytes| ==> data[offset + i] == bytes[i]
  }

  lemma {:induction false} AtConcat(data: seq<byte>, offset: nat, a: seq<byte>, b: seq<byte>)
    ensures At(data, offset, a + b) <==> At(data, offset, a) && At(data, offset + |a|, b)
  {
    if At(data, offset, a + b) {
      forall i | 0 <= i < |a| ensures data[offset + i] == a[i] {
        assert (a + b)[i] == a[i];
      }
      forall i | 0 <= i < |b| ensures data[offset + |a| + i] == b[i] {
        assert (a + b)[|a| + i] == b[i];
        assert offset + (|a| + i) == offset + |a| + i;
      }
    }
    if At(data, offset, a) && At(data, offset + |a|, b) {
      forall i | 0 <= i < |a + b| ensures data[offset + i] == (a + b)[i] {
        if i >= |a| {
          assert data[offset + |a| + (i - |a|)] == b[i - |a|];
        }
      }
    }
  }

  lemma {:induction false} AtWhole(data: seq<byte>)
    ensures At(data, 0, data)
  {
  }

  lemma {:induction false} AtPrefix(bytes: seq<byte>, rest: seq<byte>)
    ensures At(bytes + rest, 0, bytes)
  {
  }

  // ----- readers

  datatype ReadError = Truncated | UnsupportedVersion | Malformed

  /** A value and the offset behind it, or the reason reading stopped. */
  datatype Parsed<T> = Got(value: T, next: nat) | Bad(error: ReadError)
  {
    predicate IsFailure() {
      Bad?
    }

    function PropagateFailure<U>(): Parsed<U>
      requires Bad?
    {
      Parsed.Bad(error)
    }

    function Extract(): T
      requires Got?
    {
      value
    }
  }

  function TakeAt(data: seq<byte>, offset: nat, n: nat): (r: Parsed<seq<byte>>)
    ensures r.Got? ==> r.next == offset + n <= |data| && |r.value| == n
  {
    if offset + n > |data| then Bad(Truncated) else Got(data[offset..offset + n], offset + n)
  }

  function BeAt(data: seq<byte>, offset: nat, width: nat): (r: Parsed<nat>)
    ensures r.Got? ==> r.next == offset + width <= |data|
  {
    var b := TakeAt(data, offset, width);
    if b.Bad? then Bad(b.error) else Got(BeNat(b.value), b.next)
  }

  function LeAt(data: seq<byte>, offset: nat, width: nat): (r: Parsed<nat>)
    ensures r.Got? ==> r.next == offset + width <= |data|
  {
    var b := TakeAt(data, offset, width);
    if b.Bad? then Bad(b.error) else Got(LeNat(b.value), b.next)
  }

  /** A 32-bit big-endian length, then that many bytes. */
  function DelimitedAt(data: seq<byte>, offset: nat): (r: Parsed<seq<byte>>)
    ensures r.Got? ==> offset + U32 <= r.next <= |data|
  {
    var n := BeAt(data, offset, U32);
    if n.Bad? then Bad(n.error) else TakeAt(data, n.next, n.value)
  }

  lemma {:induction false} TakeReads(data: seq<byte>, offset: nat, bytes: seq<byte>)
    requires At(data, offset, bytes)
    ensures TakeAt(data, offset, |bytes|) == Got(bytes, offset + |bytes|)
  {
    assert data[offset..offset + |bytes|] == bytes;
  }

  lemma {:induction false} BeReads(data: seq<byte>, offset: nat, v: nat, width: nat)
    requires v < Pow256(width) && At(data, offset, BeBytes(v, width))
    ensures BeAt(data, offset, width) == Got(v, offset + width)
  {
    TakeReads(data, offset, BeBytes(v, width));
    BeReadWrite(v, width);
  }

  lemma {:induction false} LeReads(data: seq<byte>, offset: nat, v: nat, width: nat)
    requires v < Pow256(width) && At(data, offset, LeBytes(v, width))
    ensures LeAt(data, offset, width) == Got(v, offset + width)
  {
    TakeReads(data, offset, LeBytes(v, width));
    LeReadWrite(v, width);
  }

  /** A number read is below the width's bound, and its bytes stood there. */
  lemma {:induction false} LeAtWritten(data: seq<byte>, offset: nat, width: nat)
    requires LeAt(data, offset, width).Got?
    ensures LeAt(data, offset, width).value < Pow256(width)
    ensures At(data, offset, LeBytes(LeAt(data, offset, width).value, width))
  {
    var b := TakeAt(data, offset, width).value;
    LeNatBound(b);
    LeWriteRead(b);
    forall i | 0 <= i < |b| ensures data[offset + i] == b[i] {
    }
  }

  lemma {:induction false} Pow256Values()
    ensures Pow256(U16) == 0x1_0000 && Pow256(U32) == 0x1_0000_0000 && Pow256(U64) == 0x1_0000_0000_0000_0000
  {
    assert Pow256(3) == 0x100_0000;
    assert Pow256(5) == 0x100_0000_0000;
    assert Pow256(6) == 0x1_0000_0000_0000;
    assert Pow256(7) == 0x100_0000_0000_0000;
  }

  // ----- writers that refuse what does not fit

  datatype Written = Wrote(bytes: seq<byte>) | OutOfRange

  function Be(v: nat, width: nat): Written {
    if v < Pow256(width) then Wrote(BeBytes(v, width)) else OutOfRange
  }

  function Le(v: nat, width: nat): Written {
    if v < Pow256(width) then Wrote(LeBytes(v, width)) else OutOfRange
  }

  function Cat(a: Written, b: Written): Written {
    if a.Wrote? && b.Wrote? then Wrote(a.bytes + b.bytes) else OutOfRange
  }

  /** `lengthDelimited` */
  function Delimited(bytes: seq<byte>): Written {
    Cat(Be(|bytes|, U32), Wrote(bytes))
  }

  /** Concatenated parts stand one behind the other. */
  lemma {:induction false} CatAt(data: seq<byte>, offset: nat, a: Written, b: Written)
    requires Cat(a, b).Wrote?
    ensures a.Wrote? && b.Wrote? && |Cat(a, b).bytes| == |a.bytes| + |b.bytes|
    ensures At(data, offset, Cat(a, b).bytes) <==> At(data, offset, a.bytes) && At(data, offset + |a.bytes|, b.bytes)
  {
    AtConcat(data, offset, a.bytes, b.bytes);
  }

  lemma {:induction false} CatAt3(data: seq<byte>, offset: nat, a: Written, b: Written, c: Written)
    requires Cat(a, Cat(b, c)).Wrote?
    ensures a.Wrote? && b.Wrote? && c.Wrote?
    ensures |Cat(a, Cat(b, c)).bytes| == |a.bytes| + |b.bytes| + |c.bytes|
    ensures At(data, offset, Cat(a, Cat(b, c)).bytes) ==>
              && At(data, offset, a.bytes)
              && At(data, offset + |a.bytes|, b.bytes)
              && At(data, offset + |a.bytes| + |b.bytes|, c.bytes)
  {
    CatAt(data, offset, a, Cat(b, c));
    CatAt(data, offset + |a.bytes|, b, c);
  }

  lemma {:induction false} DelimitedReads(data: seq<byte>, offset: nat, bytes: seq<byte>)
    requires Delimited(bytes).Wrote? && At(data, offset, Delimited(bytes).bytes)
    ensures DelimitedAt(data, offset) == Got(bytes, offset + |Delimited(bytes).bytes|)
  {
    CatAt(data, offset, Be(|bytes|, U32), Wrote(bytes));
    BeReads(data, offset, |bytes|, U32);
    TakeReads(data, offset + U32, bytes);
  }

  /** The parts of a list one behind the other. */
  function Joined(parts: seq<seq<byte>>): seq<byte> {
    if parts == [] then [] else parts[0] + Joined(parts[1..])
  }

  lemma {:induction false} JoinedSnoc(parts: seq<seq<byte>>, part: seq<byte>)
    ensures Joined(parts + [part]) == Joined(parts) + part
  {
    if parts == [] {
      assert Joined([part]) == part + Joined([part][1..]) == part;
    } else {
      assert (parts + [part])[1..] == parts[1..] + [part];
      JoinedSnoc(parts[1..], part);
    }
  }

  // ----- counted lists

  /** `count` items read one behind the other. */
  function ManyAt<T>(item: nat -> Parsed<T>, offset: nat, count: nat): (r: Parsed<seq<T>>)
    ensures r.Got? ==> |r.value| == count
    decreases count, offset
  {
    if count == 0 then Got([], offset)
    else
      var x := item(offset);
      if x.Bad? then Bad(x.error) else Prepend([x.value], ManyAt(item, x.next, count - 1))
  }

  function Many<T>(item: T -> Written, xs: seq<T>): Written {
    if xs == [] then Wrote([]) else Cat(item(xs[0]), Many(item, xs[1..]))
  }

  function Prepend<T>(xs: seq<T>, r: Parsed<seq<T>>): Parsed<seq<T>> {
    match r case Got(ys, next) => Got(xs + ys, next) case Bad(e) => Bad(e)
  }

  /** Reading undoes writing of each of `xs` wherever its bytes stand. */
  ghost predicate Inverts<T>(read: nat -> Parsed<T>, write: T -> Written, data: seq<byte>, xs: seq<T>) {
    forall i, offset: nat ::
      0 <= i < |xs| && write(xs[i]).Wrote? && At(data, offset, write(xs[i]).bytes) ==>
        read(offset) == Got(xs[i], offset + |write(xs[i]).bytes|)
  }

  lemma {:induction false} ManyReads<T>(read: nat -> Parsed<T>, write: T -> Written, data: seq<byte>, offset: nat, xs: seq<T>)
    requires Inverts(read, write, data, xs)
    requires Many(write, xs).Wrote? && At(data, offset, Many(write, xs).bytes)
    ensures ManyAt(read, offset, |xs|) == Got(xs, offset + |Many(write, xs).bytes|)
    decreases |xs|
  {
    if xs != [] {
      CatAt(data, offset, write(xs[0]), Many(write, xs[1..]));
      forall i | 0 < i < |xs| ensures xs[i] == xs[1..][i - 1] {
      }
      ManyReads(read, write, data, offset + |write(xs[0]).bytes|, xs[1..]);
      assert xs == [xs[0]] + xs[1..];
    }
  }

  lemma {:induction false} PrependNone<T>(r: Parsed<seq<T>>)
    ensures Prepend([], r) == r
  {
    assert r.Got? ==> [] + r.value == r.value;
  }

  lemma {:induction false} PrependOne<T>(xs: seq<T>, x: T, r: Parsed<seq<T>>)
    ensures Prepend(xs + [x], r) == Prepend(xs, Prepend([x], r))
  {
    assert r.Got? ==> xs + [x] + r.value == xs + ([x] + r.value);
  }

  /** One more item read: what is collected grows by it, what is left shrinks by it. */
  lemma {:induction false} ManyStep<T>(item: nat -> Parsed<T>, offset: nat, count: nat, done: seq<T>)
    requires count > 0
    ensures Prepend(done, ManyAt(item, offset, count)) ==
            if item(offset).Bad? then Bad(item(offset).error)
            else Prepend(done + [item(offset).value], ManyAt(item, item(offset).next, count - 1))
  {
    var x := item(offset);
    if x.Got? {
      PrependOne(done, x.value, ManyAt(item, x.next, count - 1));
    }
  }

  lemma {:induction false} ManyDone<T>(item: nat -> Parsed<T>, offset: nat, done: seq<T>)
    ensures Prepend(done, ManyAt(item, offset, 0)) == Got(done, offset)
  {
    assert done + [] == done;
  }

  /** Reading a longer list is reading its front, then its back. */
  lemma {:induction false} ManySplit<T>(item: nat -> Parsed<T>, offset: nat, m: nat, n: nat)
    ensures var a := ManyAt(item, offset, m);
            ManyAt(item, offset, m + n) == if a.Bad? then a else Prepend(a.value, ManyAt(item, a.next, n))
    decreases m
  {
    if m == 0 {
      PrependNone(ManyAt(item, offset, n));
    } else if item(offset).Got? {
      var x := item(offset);
      ManySplit(item, x.next, m - 1, n);
      var a := ManyAt(item, x.next, m - 1);
      if a.Got? {
        var b := ManyAt(item, a.next, n);
        assert b.Got? ==> [x.value] + (a.value + b.value) == ([x.value] + a.value) + b.value;
      }
    }
  }

  lemma {:induction false} ManyJoin<T>(item: nat -> Parsed<T>, offset: nat, xs: seq<T>, a: nat, ys: seq<T>, b: nat)
    requires ManyAt(item, offset, |xs|) == Got(xs, a) && ManyAt(item, a, |ys|) == Got(ys, b)
    ensures ManyAt(item, offset, |xs + ys|) == Got(xs + ys, b)
  {
    ManySplit(item, offset, |xs|, |ys|);
  }

  // ----- the cursor

  class Decoder {
    const data: seq<byte>
    var offset: nat

    constructor (data: seq<byte>)
      ensures this.data == data && offset == 0
    {
      this.data, offset := data, 0;
    }

    method ReadBytes(n: nat) returns (r: Parsed<seq<byte>>)
      modifies this
      ensures r == TakeAt(data, old(offset), n)
      ensures offset == if r.Got? then r.next else old(offset)
    {
      if offset + n > |data| {
        return Bad(Truncated);
      }
      r := Got(data[offset..offset + n], offset + n);
      offset := offset + n;
    }

    method ReadBe(width: nat) returns (r: Parsed<nat>)
      modifies this
      ensures r == BeAt(data, old(offset), width)
      ensures offset == if r.Got? then r.next else old(offset)
    {
      var b := ReadBytes(width);
      match b
      case Bad(e) => return Bad(e);
      case Got(bytes, next) => r := Got(BeNat(bytes), next);
    }

    method ReadLe(width: nat) returns (r: Parsed<nat>)
      modifies this
      ensures r == LeAt(data, old(offset), width)
      ensures offset == if r.Got? then r.next else old(offset)
    {
      var b := ReadBytes(width);
      match b
      case Bad(e) => return Bad(e);
      case Got(bytes, next) =>
        var v: nat := 0;
        for i := |bytes| downto 0
          invariant v == LeNat(bytes[i..])
        {
          assert bytes[i..][1..] == bytes[i + 1..];
          v := 256 * v + bytes[i];
        }
        r := Got(v, next);
    }

    method ReadDelimited() returns (r: Parsed<seq<byte>>)
      modifies this
      ensures r == DelimitedAt(data, old(offset))
      ensures r.Got? ==> offset == r.next
    {
      var n := ReadBe(U32);
      match n
      case Bad(e) => return Bad(e);
      case Got(len, _) => r := ReadBytes(len);
    }
  }
}
