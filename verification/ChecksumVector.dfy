/**
  The checksum worked through on a text: `raw(deadbeef)` has the checksum `89f8spxm`. The
  register is computed digit by digit, eight digits of five bits, which the arithmetic
  register is proved to follow.
 */
module ChecksumVector {
  import opened Bits
  import opened Checksum

  /** Eight digits, the highest first. */
  datatype Register = R(d0: Symbol, d1: Symbol, d2: Symbol, d3: Symbol, d4: Symbol, d5: Symbol, d6: Symbol, d7: Symbol)

  /** A number with one more digit behind it. */
  function Behind(x: nat, d: Symbol): nat {
    d + 32 * x
  }

  /** The digits but the highest. */
  function LowValue(r: Register): nat {
    Behind(Behind(Behind(Behind(Behind(Behind(r.d1, r.d2), r.d3), r.d4), r.d5), r.d6), r.d7)
  }

  function Value(r: Register): nat {
    Behind(Behind(Behind(Behind(Behind(Behind(Behind(r.d0, r.d1), r.d2), r.d3), r.d4), r.d5), r.d6), r.d7)
  }

  function XorFive(d: Symbol, e: Symbol): Symbol {
    ((d as bv5) ^ (e as bv5)) as nat
  }

  function XorRegister(r: Register, s: Register): Register {
    R(XorFive(r.d0, s.d0), XorFive(r.d1, s.d1), XorFive(r.d2, s.d2), XorFive(r.d3, s.d3),
      XorFive(r.d4, s.d4), XorFive(r.d5, s.d5), XorFive(r.d6, s.d6), XorFive(r.d7, s.d7))
  }

  const EMPTY := R(0, 0, 0, 0, 0, 0, 0, 0)
  const MASK0 := R(30, 23, 15, 14, 10, 6, 12, 9)
  const MASK1 := R(21, 7, 30, 28, 20, 12, 24, 18)
  const MASK2 := R(3, 14, 21, 17, 1, 24, 25, 13)
  const MASK3 := R(6, 28, 3, 11, 2, 25, 27, 26)
  const MASK4 := R(12, 17, 6, 22, 4, 27, 31, 29)

  function MaskAt(n: nat): Register {
    if n == 0 then MASK0 else if n == 1 then MASK1 else if n == 2 then MASK2 else if n == 3 then MASK3 else MASK4
  }

  /** Bit n of a digit. */
  predicate BitOf(d: Symbol, n: nat)
    requires n < 5
  {
    ((d as bv5) >> n) & 1 == 1
  }

  /** A mask, or nothing. */
  function Chosen(b: bool, mask: Register): Register {
    if b then mask else EMPTY
  }

  /** The sum of the masks the low n bits of a digit select. */
  function Selected(d: Symbol, n: nat): Register
    requires n <= 5
  {
    if n == 0 then EMPTY else XorRegister(Selected(d, n - 1), Chosen(BitOf(d, n - 1), MaskAt(n - 1)))
  }

  function Moved(r: Register, v: Symbol): Register {
    R(r.d1, r.d2, r.d3, r.d4, r.d5, r.d6, r.d7, v)
  }

  // ----- the register of digits follows the register

  lemma {:induction false} HalfOf(x: bv5)
    ensures (x >> 1) as nat == (x as nat) / 2 && (x & 1) as nat == (x as nat) % 2
  {
  }

  lemma {:induction false} XorOf(x: bv5, y: bv5)
    ensures Xor(x as nat, y as nat) == (x ^ y) as nat
    decreases x as nat + y as nat
  {
    if x != 0 || y != 0 {
      HalfOf(x);
      HalfOf(y);
      HalfOf(x ^ y);
      XorOf(x >> 1, y >> 1);
      XorStep(x as nat, y as nat);
      HalvesMeet(x, y);
    }
  }

  lemma {:induction false} HalvesMeet(x: bv5, y: bv5)
    ensures (x ^ y) >> 1 == (x >> 1) ^ (y >> 1)
    ensures (x ^ y) & 1 == 0 <==> x & 1 == y & 1
    ensures (x ^ y) & 1 == 0 || (x ^ y) & 1 == 1
  {
  }

  lemma {:induction false} XorFiveIs(d: Symbol, e: Symbol)
    ensures XorFive(d, e) == Xor(d, e)
  {
    FiveBits(d);
    FiveBits(e);
    XorOf(d as bv5, e as bv5);
  }

  lemma {:induction false} FiveBits(d: Symbol)
    ensures (d as bv5) as nat == d
  {
  }

  lemma {:induction false} BitOfIs(d: Symbol, n: nat)
    requires n < 5
    ensures Bit(d, n) == BitOf(d, n)
    decreases n
  {
    var x := d as bv5;
    HalfOf(x);
    LowestBit(x);
    if n > 0 {
      BitOfIs(d / 2, n - 1);
      ShiftTwice(x, n);
    }
  }

  lemma {:induction false} LowestBit(x: bv5)
    ensures x & 1 == 0 || x & 1 == 1
  {
  }

  lemma {:induction false} ShiftTwice(x: bv5, n: nat)
    requires 0 < n < 5
    ensures (x >> 1) >> (n - 1) == x >> n
  {
    assert (x >> 1) >> 0 == x >> 1 && (x >> 1) >> 1 == x >> 2 && (x >> 1) >> 2 == x >> 3 && (x >> 1) >> 3 == x >> 4;
  }

  lemma {:induction false} XorBehind(x: nat, y: nat, d: Symbol, e: Symbol)
    ensures Xor(Behind(x, d), Behind(y, e)) == Behind(Xor(x, y), XorFive(d, e))
  {
    ShiftIn(x, d);
    ShiftIn(y, e);
    XorFiveIs(d, e);
    ShiftIn(Xor(x, y), XorFive(d, e));
    ShlXor(x, y, BITS);
    XorSwapMiddle(Shl(x, BITS), Shl(y, BITS), d, e);
  }

  lemma {:induction false} XorTwo(a: nat, b: nat, d: Symbol, e: Symbol, f: Symbol, g: Symbol)
    ensures Xor(Behind(Behind(a, d), f), Behind(Behind(b, e), g)) == Behind(Behind(Xor(a, b), XorFive(d, e)), XorFive(f, g))
  {
    XorBehind(a, b, d, e);
    XorBehind(Behind(a, d), Behind(b, e), f, g);
  }

  lemma {:induction false} XorValue(r: Register, s: Register)
    ensures Xor(Value(r), Value(s)) == Value(XorRegister(r, s))
  {
    var a, b := Behind(r.d0, r.d1), Behind(s.d0, s.d1);
    XorFiveIs(r.d0, s.d0);
    XorBehind(r.d0, s.d0, r.d1, s.d1);
    XorTwo(a, b, r.d2, s.d2, r.d3, s.d3);
    var c, d := Behind(Behind(a, r.d2), r.d3), Behind(Behind(b, s.d2), s.d3);
    XorTwo(c, d, r.d4, s.d4, r.d5, s.d5);
    XorTwo(Behind(Behind(c, r.d4), r.d5), Behind(Behind(d, s.d4), s.d5), r.d6, s.d6, r.d7, s.d7);
  }

  lemma {:induction false} SplitUnique(x: nat, low: nat, k: nat)
    requires low < Pow2(k)
    ensures Low(Shl(x, k) + low, k) == low && Shr(Shl(x, k) + low, k) == x
    decreases k, low
  {
    if k > 0 {
      var a := Shl(x, k) + low;
      assert Shl(x, k) == 2 * Shl(x, k - 1);
      SplitUnique(x, low / 2, k - 1);
      assert a / 2 == Shl(x, k - 1) + low / 2 && a % 2 == low % 2;
    }
  }

  lemma {:induction false} TailAndTop(r: Register)
    ensures Low(Value(r), TAIL) == LowValue(r) && Shr(Value(r), TAIL) == r.d0
  {
    PowerOfTail(r.d0);
    SplitUnique(r.d0, LowValue(r), TAIL);
  }

  lemma {:induction false} ShiftMore(x: nat, k: nat)
    ensures Shl(x, k + BITS) == 32 * Shl(x, k)
  {
    ShlShl(x, k, BITS);
    ShiftFive(Shl(x, k));
  }

  lemma {:induction false} PowerOfTail(x: nat)
    ensures Pow2(TAIL) == 0x8_0000_0000 && Shl(x, TAIL) == 0x8_0000_0000 * x
  {
    var k: nat := 0;
    ShiftMore(x, k);
    ShiftMore(x, k + 5);
    ShiftMore(x, k + 10);
    ShiftMore(x, k + 15);
    ShiftMore(x, k + 20);
    ShiftMore(x, k + 25);
    ShiftMore(x, k + 30);
    Pow2Small();
    assert Pow2(33) == 2 * Pow2(32) && Pow2(34) == 2 * Pow2(33) && Pow2(35) == 2 * Pow2(34);
  }

  lemma {:induction false} MaskAtValue(n: nat)
    requires n < 5
    ensures Value(MaskAt(n)) == Mask(n)
  {
    if n == 0 {
      assert Value(MASK0) == GEN0;
    } else if n == 1 {
      assert Value(MASK1) == GEN1;
    } else if n == 2 {
      assert Value(MASK2) == GEN2;
    } else if n == 3 {
      assert Value(MASK3) == GEN3;
    } else {
      assert Value(MASK4) == GEN4;
    }
  }

  lemma {:induction false} FeedbackTurn(c0: nat, n: nat)
    ensures Feedback(c0, n + 1) == Xor(Feedback(c0, n), if Bit(c0, n) then Mask(n) else 0)
  {
  }

  lemma {:induction false} EmptyValue()
    ensures Value(EMPTY) == 0
  {
  }

  lemma {:induction false} ChosenValue(b: bool, n: nat)
    requires n < 5
    ensures Value(Chosen(b, MaskAt(n))) == if b then Mask(n) else 0
  {
    if b {
      MaskAtValue(n);
    } else {
      EmptyValue();
    }
  }

  lemma {:induction false} SelectedValue(d: Symbol, n: nat)
    requires n <= 5
    ensures Feedback(d, n) == Value(Selected(d, n))
    decreases n
  {
    if n == 0 {
      EmptyValue();
    } else {
      var m: nat := n - 1;
      SelectedValue(d, m);
      FeedbackTurn(d, m);
      BitOfIs(d, m);
      ChosenValue(BitOf(d, m), m);
      XorValue(Selected(d, m), Chosen(BitOf(d, m), MaskAt(m)));
    }
  }

  /** A step of the register is a step on its digits. */
  lemma {:induction false} StepValue(r: Register, v: Symbol, f: Register)
    requires Feedback(r.d0, BITS) == Value(f)
    ensures Step(Value(r), v) == Value(XorRegister(Moved(r, v), f))
  {
    TailAndTop(r);
    ShiftIn(LowValue(r), v);
    MovedValue(r, v);
    XorValue(Moved(r, v), f);
  }

  lemma {:induction false} MovedValue(r: Register, v: Symbol)
    ensures Value(Moved(r, v)) == 32 * LowValue(r) + v
  {
  }

  /** s is the register r after the symbol v. */
  predicate Link(r: Register, v: Symbol, s: Register) {
    s == XorRegister(Moved(r, v), Selected(r.d0, BITS))
  }

  lemma {:induction false} LinkSteps(r: Register, v: Symbol, s: Register)
    requires Link(r, v, s)
    ensures Step(Value(r), v) == Value(s)
  {
    SelectedValue(r.d0, BITS);
    StepValue(r, v, Selected(r.d0, BITS));
  }

  /** The register reached from its start by the first k symbols. */
  ghost predicate Reaches(symbols: seq<Symbol>, k: nat, r: Register)
    requires k <= |symbols|
  {
    Polymod(1, symbols[..k]) == Value(r)
  }

  /** `reach` is `Reaches`; stated so that it is unfolded only where `Reaches` is mentioned. */
  ghost predicate IsReach(reach: (nat, Register) -> bool, symbols: seq<Symbol>) {
    forall k: nat, r: Register {:trigger Reaches(symbols, k, r)} :: k <= |symbols| ==>
      (reach(k, r) <==> Reaches(symbols, k, r))
  }

  lemma {:induction false} ReachLink(reach: (nat, Register) -> bool, symbols: seq<Symbol>, k: nat, v: Symbol, r: Register, s: Register)
    requires IsReach(reach, symbols) && k < |symbols| && symbols[k] == v && Link(r, v, s) && reach(k, r)
    ensures reach(k + 1, s)
  {
    LinkSteps(r, v, s);
    assert Reaches(symbols, k, r);
    ReachMore(symbols, k, r, s);
    assert Reaches(symbols, k + 1, s);
  }

  lemma {:induction false} ReachMore(symbols: seq<Symbol>, k: nat, r: Register, s: Register)
    requires k < |symbols| && Reaches(symbols, k, r) && Step(Value(r), symbols[k]) == Value(s)
    ensures Reaches(symbols, k + 1, s)
  {
    assert symbols[..k + 1] == symbols[..k] + [symbols[k]];
    PolymodConcat(1, symbols[..k], [symbols[k]]);
    assert [symbols[k]][1..] == [];
  }

  // ----- the run over the symbols of the text and its checksum

  lemma {:induction false} XorEmpty(r: Register)
    ensures XorRegister(r, EMPTY) == r
  {
    XorNothing(r.d0);
    XorNothing(r.d1);
    XorNothing(r.d2);
    XorNothing(r.d3);
    XorNothing(r.d4);
    XorNothing(r.d5);
    XorNothing(r.d6);
    XorNothing(r.d7);
  }

  lemma {:induction false} XorNothing(d: Symbol)
    ensures XorFive(d, 0) == d
  {
    XorFiveIs(d, 0);
  }

  lemma {:induction false} SelectMore(d: Symbol, n: nat, r: Register, s: Register)
    requires n < 5 && Selected(d, n) == r
    requires s == if BitOf(d, n) then XorRegister(r, MaskAt(n)) else r
    ensures Selected(d, n + 1) == s
  {
    XorEmpty(r);
  }

  lemma {:induction false} Selected0()
    ensures Selected(0, BITS) == R(0, 0, 0, 0, 0, 0, 0, 0)
  {
    SelectMore(0, 0, R(0, 0, 0, 0, 0, 0, 0, 0), R(0, 0, 0, 0, 0, 0, 0, 0));
    SelectMore(0, 1, R(0, 0, 0, 0, 0, 0, 0, 0), R(0, 0, 0, 0, 0, 0, 0, 0));
    SelectMore(0, 2, R(0, 0, 0, 0, 0, 0, 0, 0), R(0, 0, 0, 0, 0, 0, 0, 0));
    SelectMore(0, 3, R(0, 0, 0, 0, 0, 0, 0, 0), R(0, 0, 0, 0, 0, 0, 0, 0));
    SelectMore(0, 4, R(0, 0, 0, 0, 0, 0, 0, 0), R(0, 0, 0, 0, 0, 0, 0, 0));
  }

  lemma {:induction false} Selected1()
    ensures Selected(1, BITS) == R(30, 23, 15, 14, 10, 6, 12, 9)
  {
    SelectMore(1, 0, R(0, 0, 0, 0, 0, 0, 0, 0), R(30, 23, 15, 14, 10, 6, 12, 9));
    SelectMore(1, 1, R(30, 23, 15, 14, 10, 6, 12, 9), R(30, 23, 15, 14, 10, 6, 12, 9));
    SelectMore(1, 2, R(30, 23, 15, 14, 10, 6, 12, 9), R(30, 23, 15, 14, 10, 6, 12, 9));
    SelectMore(1, 3, R(30, 23, 15, 14, 10, 6, 12, 9), R(30, 23, 15, 14, 10, 6, 12, 9));
    SelectMore(1, 4, R(30, 23, 15, 14, 10, 6, 12, 9), R(30, 23, 15, 14, 10, 6, 12, 9));
  }

  lemma {:induction false} Selected3()
    ensures Selected(3, BITS) == R(11, 16, 17, 18, 30, 10, 20, 27)
  {
    SelectMore(3, 0, R(0, 0, 0, 0, 0, 0, 0, 0), R(30, 23, 15, 14, 10, 6, 12, 9));
    SelectMore(3, 1, R(30, 23, 15, 14, 10, 6, 12, 9), R(11, 16, 17, 18, 30, 10, 20, 27));
    SelectMore(3, 2, R(11, 16, 17, 18, 30, 10, 20, 27), R(11, 16, 17, 18, 30, 10, 20, 27));
    SelectMore(3, 3, R(11, 16, 17, 18, 30, 10, 20, 27), R(11, 16, 17, 18, 30, 10, 20, 27));
    SelectMore(3, 4, R(11, 16, 17, 18, 30, 10, 20, 27), R(11, 16, 17, 18, 30, 10, 20, 27));
  }

  lemma {:induction false} Selected4()
    ensures Selected(4, BITS) == R(3, 14, 21, 17, 1, 24, 25, 13)
  {
    SelectMore(4, 0, R(0, 0, 0, 0, 0, 0, 0, 0), R(0, 0, 0, 0, 0, 0, 0, 0));
    SelectMore(4, 1, R(0, 0, 0, 0, 0, 0, 0, 0), R(0, 0, 0, 0, 0, 0, 0, 0));
    SelectMore(4, 2, R(0, 0, 0, 0, 0, 0, 0, 0), R(3, 14, 21, 17, 1, 24, 25, 13));
    SelectMore(4, 3, R(3, 14, 21, 17, 1, 24, 25, 13), R(3, 14, 21, 17, 1, 24, 25, 13));
    SelectMore(4, 4, R(3, 14, 21, 17, 1, 24, 25, 13), R(3, 14, 21, 17, 1, 24, 25, 13));
  }

  lemma {:induction false} Selected8()
    ensures Selected(8, BITS) == R(6, 28, 3, 11, 2, 25, 27, 26)
  {
    SelectMore(8, 0, R(0, 0, 0, 0, 0, 0, 0, 0), R(0, 0, 0, 0, 0, 0, 0, 0));
    SelectMore(8, 1, R(0, 0, 0, 0, 0, 0, 0, 0), R(0, 0, 0, 0, 0, 0, 0, 0));
    SelectMore(8, 2, R(0, 0, 0, 0, 0, 0, 0, 0), R(0, 0, 0, 0, 0, 0, 0, 0));
    SelectMore(8, 3, R(0, 0, 0, 0, 0, 0, 0, 0), R(6, 28, 3, 11, 2, 25, 27, 26));
    SelectMore(8, 4, R(6, 28, 3, 11, 2, 25, 27, 26), R(6, 28, 3, 11, 2, 25, 27, 26));
  }

  lemma {:induction false} Selected9()
    ensures Selected(9, BITS) == R(24, 11, 12, 5, 8, 31, 23, 19)
  {
    SelectMore(9, 0, R(0, 0, 0, 0, 0, 0, 0, 0), R(30, 23, 15, 14, 10, 6, 12, 9));
    SelectMore(9, 1, R(30, 23, 15, 14, 10, 6, 12, 9), R(30, 23, 15, 14, 10, 6, 12, 9));
    SelectMore(9, 2, R(30, 23, 15, 14, 10, 6, 12, 9), R(30, 23, 15, 14, 10, 6, 12, 9));
    SelectMore(9, 3, R(30, 23, 15, 14, 10, 6, 12, 9), R(24, 11, 12, 5, 8, 31, 23, 19));
    SelectMore(9, 4, R(24, 11, 12, 5, 8, 31, 23, 19), R(24, 11, 12, 5, 8, 31, 23, 19));
  }

  lemma {:induction false} Selected11()
    ensures Selected(11, BITS) == R(13, 12, 18, 25, 28, 19, 15, 1)
  {
    SelectMore(11, 0, R(0, 0, 0, 0, 0, 0, 0, 0), R(30, 23, 15, 14, 10, 6, 12, 9));
    SelectMore(11, 1, R(30, 23, 15, 14, 10, 6, 12, 9), R(11, 16, 17, 18, 30, 10, 20, 27));
    SelectMore(11, 2, R(11, 16, 17, 18, 30, 10, 20, 27), R(11, 16, 17, 18, 30, 10, 20, 27));
    SelectMore(11, 3, R(11, 16, 17, 18, 30, 10, 20, 27), R(13, 12, 18, 25, 28, 19, 15, 1));
    SelectMore(11, 4, R(13, 12, 18, 25, 28, 19, 15, 1), R(13, 12, 18, 25, 28, 19, 15, 1));
  }

  lemma {:induction false} Selected16()
    ensures Selected(16, BITS) == R(12, 17, 6, 22, 4, 27, 31, 29)
  {
    SelectMore(16, 0, R(0, 0, 0, 0, 0, 0, 0, 0), R(0, 0, 0, 0, 0, 0, 0, 0));
    SelectMore(16, 1, R(0, 0, 0, 0, 0, 0, 0, 0), R(0, 0, 0, 0, 0, 0, 0, 0));
    SelectMore(16, 2, R(0, 0, 0, 0, 0, 0, 0, 0), R(0, 0, 0, 0, 0, 0, 0, 0));
    SelectMore(16, 3, R(0, 0, 0, 0, 0, 0, 0, 0), R(0, 0, 0, 0, 0, 0, 0, 0));
    SelectMore(16, 4, R(0, 0, 0, 0, 0, 0, 0, 0), R(12, 17, 6, 22, 4, 27, 31, 29));
  }

  lemma {:induction false} Selected18()
    ensures Selected(18, BITS) == R(25, 22, 24, 10, 16, 23, 7, 15)
  {
    SelectMore(18, 0, R(0, 0, 0, 0, 0, 0, 0, 0), R(0, 0, 0, 0, 0, 0, 0, 0));
    SelectMore(18, 1, R(0, 0, 0, 0, 0, 0, 0, 0), R(21, 7, 30, 28, 20, 12, 24, 18));
    SelectMore(18, 2, R(21, 7, 30, 28, 20, 12, 24, 18), R(21, 7, 30, 28, 20, 12, 24, 18));
    SelectMore(18, 3, R(21, 7, 30, 28, 20, 12, 24, 18), R(21, 7, 30, 28, 20, 12, 24, 18));
    SelectMore(18, 4, R(21, 7, 30, 28, 20, 12, 24, 18), R(25, 22, 24, 10, 16, 23, 7, 15));
  }

  lemma {:induction false} Selected22()
    ensures Selected(22, BITS) == R(26, 24, 13, 27, 17, 15, 30, 2)
  {
    SelectMore(22, 0, R(0, 0, 0, 0, 0, 0, 0, 0), R(0, 0, 0, 0, 0, 0, 0, 0));
    SelectMore(22, 1, R(0, 0, 0, 0, 0, 0, 0, 0), R(21, 7, 30, 28, 20, 12, 24, 18));
    SelectMore(22, 2, R(21, 7, 30, 28, 20, 12, 24, 18), R(22, 9, 11, 13, 21, 20, 1, 31));
    SelectMore(22, 3, R(22, 9, 11, 13, 21, 20, 1, 31), R(22, 9, 11, 13, 21, 20, 1, 31));
    SelectMore(22, 4, R(22, 9, 11, 13, 21, 20, 1, 31), R(26, 24, 13, 27, 17, 15, 30, 2));
  }

  lemma {:induction false} Selected23()
    ensures Selected(23, BITS) == R(4, 15, 2, 21, 27, 9, 18, 11)
  {
    SelectMore(23, 0, R(0, 0, 0, 0, 0, 0, 0, 0), R(30, 23, 15, 14, 10, 6, 12, 9));
    SelectMore(23, 1, R(30, 23, 15, 14, 10, 6, 12, 9), R(11, 16, 17, 18, 30, 10, 20, 27));
    SelectMore(23, 2, R(11, 16, 17, 18, 30, 10, 20, 27), R(8, 30, 4, 3, 31, 18, 13, 22));
    SelectMore(23, 3, R(8, 30, 4, 3, 31, 18, 13, 22), R(8, 30, 4, 3, 31, 18, 13, 22));
    SelectMore(23, 4, R(8, 30, 4, 3, 31, 18, 13, 22), R(4, 15, 2, 21, 27, 9, 18, 11));
  }

  lemma {:induction false} Selected24()
    ensures Selected(24, BITS) == R(10, 13, 5, 29, 6, 2, 4, 7)
  {
    SelectMore(24, 0, R(0, 0, 0, 0, 0, 0, 0, 0), R(0, 0, 0, 0, 0, 0, 0, 0));
    SelectMore(24, 1, R(0, 0, 0, 0, 0, 0, 0, 0), R(0, 0, 0, 0, 0, 0, 0, 0));
    SelectMore(24, 2, R(0, 0, 0, 0, 0, 0, 0, 0), R(0, 0, 0, 0, 0, 0, 0, 0));
    SelectMore(24, 3, R(0, 0, 0, 0, 0, 0, 0, 0), R(6, 28, 3, 11, 2, 25, 27, 26));
    SelectMore(24, 4, R(6, 28, 3, 11, 2, 25, 27, 26), R(10, 13, 5, 29, 6, 2, 4, 7));
  }

  lemma {:induction false} Selected26()
    ensures Selected(26, BITS) == R(31, 10, 27, 1, 18, 14, 28, 21)
  {
    SelectMore(26, 0, R(0, 0, 0, 0, 0, 0, 0, 0), R(0, 0, 0, 0, 0, 0, 0, 0));
    SelectMore(26, 1, R(0, 0, 0, 0, 0, 0, 0, 0), R(21, 7, 30, 28, 20, 12, 24, 18));
    SelectMore(26, 2, R(21, 7, 30, 28, 20, 12, 24, 18), R(21, 7, 30, 28, 20, 12, 24, 18));
    SelectMore(26, 3, R(21, 7, 30, 28, 20, 12, 24, 18), R(19, 27, 29, 23, 22, 21, 3, 8));
    SelectMore(26, 4, R(19, 27, 29, 23, 22, 21, 3, 8), R(31, 10, 27, 1, 18, 14, 28, 21));
  }

  lemma {:induction false} Link0(reach: (nat, Register) -> bool, symbols: seq<Symbol>, k: nat)
    requires IsReach(reach, symbols) && k < |symbols| && symbols[k] == 9 && reach(k, R(0, 0, 0, 0, 0, 0, 0, 1))
    ensures reach(k + 1, R(0, 0, 0, 0, 0, 0, 1, 9))
  {
    var r, s := R(0, 0, 0, 0, 0, 0, 0, 1), R(0, 0, 0, 0, 0, 0, 1, 9);
    assert Link(r, 9, s) by { Selected0(); }
    ReachLink(reach, symbols, k, 9, r, s);
  }

  lemma {:induction false} Link1(reach: (nat, Register) -> bool, symbols: seq<Symbol>, k: nat)
    requires IsReach(reach, symbols) && k < |symbols| && symbols[k] == 18 && reach(k, R(0, 0, 0, 0, 0, 0, 1, 9))
    ensures reach(k + 1, R(0, 0, 0, 0, 0, 1, 9, 18))
  {
    var r, s := R(0, 0, 0, 0, 0, 0, 1, 9), R(0, 0, 0, 0, 0, 1, 9, 18);
    assert Link(r, 18, s) by { Selected0(); }
    ReachLink(reach, symbols, k, 18, r, s);
  }

  lemma {:induction false} Link2(reach: (nat, Register) -> bool, symbols: seq<Symbol>, k: nat)
    requires IsReach(reach, symbols) && k < |symbols| && symbols[k] == 14 && reach(k, R(0, 0, 0, 0, 0, 1, 9, 18))
    ensures reach(k + 1, R(0, 0, 0, 0, 1, 9, 18, 14))
  {
    var r, s := R(0, 0, 0, 0, 0, 1, 9, 18), R(0, 0, 0, 0, 1, 9, 18, 14);
    assert Link(r, 14, s) by { Selected0(); }
    ReachLink(reach, symbols, k, 14, r, s);
  }

  lemma {:induction false} Link3(reach: (nat, Register) -> bool, symbols: seq<Symbol>, k: nat)
    requires IsReach(reach, symbols) && k < |symbols| && symbols[k] == 20 && reach(k, R(0, 0, 0, 0, 1, 9, 18, 14))
    ensures reach(k + 1, R(0, 0, 0, 1, 9, 18, 14, 20))
  {
    var r, s := R(0, 0, 0, 0, 1, 9, 18, 14), R(0, 0, 0, 1, 9, 18, 14, 20);
    assert Link(r, 20, s) by { Selected0(); }
    ReachLink(reach, symbols, k, 20, r, s);
  }

  lemma {:induction false} Link4(reach: (nat, Register) -> bool, symbols: seq<Symbol>, k: nat)
    requires IsReach(reach, symbols) && k < |symbols| && symbols[k] == 10 && reach(k, R(0, 0, 0, 1, 9, 18, 14, 20))
    ensures reach(k + 1, R(0, 0, 1, 9, 18, 14, 20, 10))
  {
    var r, s := R(0, 0, 0, 1, 9, 18, 14, 20), R(0, 0, 1, 9, 18, 14, 20, 10);
    assert Link(r, 10, s) by { Selected0(); }
    ReachLink(reach, symbols, k, 10, r, s);
  }

  lemma {:induction false} Link5(reach: (nat, Register) -> bool, symbols: seq<Symbol>, k: nat)
    requires IsReach(reach, symbols) && k < |symbols| && symbols[k] == 21 && reach(k, R(0, 0, 1, 9, 18, 14, 20, 10))
    ensures reach(k + 1, R(0, 1, 9, 18, 14, 20, 10, 21))
  {
    var r, s := R(0, 0, 1, 9, 18, 14, 20, 10), R(0, 1, 9, 18, 14, 20, 10, 21);
    assert Link(r, 21, s) by { Selected0(); }
    ReachLink(reach, symbols, k, 21, r, s);
  }

  lemma {:induction false} Link6(reach: (nat, Register) -> bool, symbols: seq<Symbol>, k: nat)
    requires IsReach(reach, symbols) && k < |symbols| && symbols[k] == 22 && reach(k, R(0, 1, 9, 18, 14, 20, 10, 21))
    ensures reach(k + 1, R(1, 9, 18, 14, 20, 10, 21, 22))
  {
    var r, s := R(0, 1, 9, 18, 14, 20, 10, 21), R(1, 9, 18, 14, 20, 10, 21, 22);
    assert Link(r, 22, s) by { Selected0(); }
    ReachLink(reach, symbols, k, 22, r, s);
  }

  lemma {:induction false} Link7(reach: (nat, Register) -> bool, symbols: seq<Symbol>, k: nat)
    requires IsReach(reach, symbols) && k < |symbols| && symbols[k] == 0 && reach(k, R(1, 9, 18, 14, 20, 10, 21, 22))
    ensures reach(k + 1, R(23, 5, 1, 26, 0, 19, 26, 9))
  {
    var r, s := R(1, 9, 18, 14, 20, 10, 21, 22), R(23, 5, 1, 26, 0, 19, 26, 9);
    assert Link(r, 0, s) by { Selected1(); }
    ReachLink(reach, symbols, k, 0, r, s);
  }

  lemma {:induction false} Link8(reach: (nat, Register) -> bool, symbols: seq<Symbol>, k: nat)
    requires IsReach(reach, symbols) && k < |symbols| && symbols[k] == 18 && reach(k, R(23, 5, 1, 26, 0, 19, 26, 9))
    ensures reach(k + 1, R(1, 14, 24, 21, 8, 19, 27, 25))
  {
    var r, s := R(23, 5, 1, 26, 0, 19, 26, 9), R(1, 14, 24, 21, 8, 19, 27, 25);
    assert Link(r, 18, s) by { Selected23(); }
    ReachLink(reach, symbols, k, 18, r, s);
  }

  lemma {:induction false} Link9(reach: (nat, Register) -> bool, symbols: seq<Symbol>, k: nat)
    requires IsReach(reach, symbols) && k < |symbols| && symbols[k] == 21 && reach(k, R(1, 14, 24, 21, 8, 19, 27, 25))
    ensures reach(k + 1, R(16, 15, 26, 6, 25, 29, 21, 28))
  {
    var r, s := R(1, 14, 24, 21, 8, 19, 27, 25), R(16, 15, 26, 6, 25, 29, 21, 28);
    assert Link(r, 21, s) by { Selected1(); }
    ReachLink(reach, symbols, k, 21, r, s);
  }

  lemma {:induction false} Link10(reach: (nat, Register) -> bool, symbols: seq<Symbol>, k: nat)
    requires IsReach(reach, symbols) && k < |symbols| && symbols[k] == 19 && reach(k, R(16, 15, 26, 6, 25, 29, 21, 28))
    ensures reach(k + 1, R(3, 11, 0, 15, 25, 14, 3, 14))
  {
    var r, s := R(16, 15, 26, 6, 25, 29, 21, 28), R(3, 11, 0, 15, 25, 14, 3, 14);
    assert Link(r, 19, s) by { Selected16(); }
    ReachLink(reach, symbols, k, 19, r, s);
  }

  lemma {:induction false} Link11(reach: (nat, Register) -> bool, symbols: seq<Symbol>, k: nat)
    requires IsReach(reach, symbols) && k < |symbols| && symbols[k] == 0 && reach(k, R(3, 11, 0, 15, 25, 14, 3, 14))
    ensures reach(k + 1, R(0, 16, 30, 11, 16, 9, 26, 27))
  {
    var r, s := R(3, 11, 0, 15, 25, 14, 3, 14), R(0, 16, 30, 11, 16, 9, 26, 27);
    assert Link(r, 0, s) by { Selected3(); }
    ReachLink(reach, symbols, k, 0, r, s);
  }

  lemma {:induction false} Link12(reach: (nat, Register) -> bool, symbols: seq<Symbol>, k: nat)
    requires IsReach(reach, symbols) && k < |symbols| && symbols[k] == 22 && reach(k, R(0, 16, 30, 11, 16, 9, 26, 27))
    ensures reach(k + 1, R(16, 30, 11, 16, 9, 26, 27, 22))
  {
    var r, s := R(0, 16, 30, 11, 16, 9, 26, 27), R(16, 30, 11, 16, 9, 26, 27, 22);
    assert Link(r, 22, s) by { Selected0(); }
    ReachLink(reach, symbols, k, 22, r, s);
  }

  lemma {:induction false} Link13(reach: (nat, Register) -> bool, symbols: seq<Symbol>, k: nat)
    requires IsReach(reach, symbols) && k < |symbols| && symbols[k] == 22 && reach(k, R(16, 30, 11, 16, 9, 26, 27, 22))
    ensures reach(k + 1, R(18, 26, 22, 31, 30, 0, 9, 11))
  {
    var r, s := R(16, 30, 11, 16, 9, 26, 27, 22), R(18, 26, 22, 31, 30, 0, 9, 11);
    assert Link(r, 22, s) by { Selected16(); }
    ReachLink(reach, symbols, k, 22, r, s);
  }

  lemma {:induction false} Link14(reach: (nat, Register) -> bool, symbols: seq<Symbol>, k: nat)
    requires IsReach(reach, symbols) && k < |symbols| && symbols[k] == 23 && reach(k, R(18, 26, 22, 31, 30, 0, 9, 11))
    ensures reach(k + 1, R(3, 0, 7, 20, 16, 30, 12, 24))
  {
    var r, s := R(18, 26, 22, 31, 30, 0, 9, 11), R(3, 0, 7, 20, 16, 30, 12, 24);
    assert Link(r, 23, s) by { Selected18(); }
    ReachLink(reach, symbols, k, 23, r, s);
  }

  lemma {:induction false} Link15(reach: (nat, Register) -> bool, symbols: seq<Symbol>, k: nat)
    requires IsReach(reach, symbols) && k < |symbols| && symbols[k] == 0 && reach(k, R(3, 0, 7, 20, 16, 30, 12, 24))
    ensures reach(k + 1, R(11, 23, 5, 2, 0, 6, 12, 27))
  {
    var r, s := R(3, 0, 7, 20, 16, 30, 12, 24), R(11, 23, 5, 2, 0, 6, 12, 27);
    assert Link(r, 0, s) by { Selected3(); }
    ReachLink(reach, symbols, k, 0, r, s);
  }

  lemma {:induction false} Link16(reach: (nat, Register) -> bool, symbols: seq<Symbol>, k: nat)
    requires IsReach(reach, symbols) && k < |symbols| && symbols[k] == 11 && reach(k, R(11, 23, 5, 2, 0, 6, 12, 27))
    ensures reach(k + 1, R(26, 9, 16, 25, 26, 31, 20, 10))
  {
    var r, s := R(11, 23, 5, 2, 0, 6, 12, 27), R(26, 9, 16, 25, 26, 31, 20, 10);
    assert Link(r, 11, s) by { Selected11(); }
    ReachLink(reach, symbols, k, 11, r, s);
  }

  lemma {:induction false} Link17(reach: (nat, Register) -> bool, symbols: seq<Symbol>, k: nat)
    requires IsReach(reach, symbols) && k < |symbols| && symbols[k] == 0 && reach(k, R(26, 9, 16, 25, 26, 31, 20, 10))
    ensures reach(k + 1, R(22, 26, 2, 27, 13, 26, 22, 21))
  {
    var r, s := R(26, 9, 16, 25, 26, 31, 20, 10), R(22, 26, 2, 27, 13, 26, 22, 21);
    assert Link(r, 0, s) by { Selected26(); }
    ReachLink(reach, symbols, k, 0, r, s);
  }

  lemma {:induction false} Link18(reach: (nat, Register) -> bool, symbols: seq<Symbol>, k: nat)
    requires IsReach(reach, symbols) && k < |symbols| && symbols[k] == 7 && reach(k, R(22, 26, 2, 27, 13, 26, 22, 21))
    ensures reach(k + 1, R(0, 26, 22, 22, 11, 25, 11, 5))
  {
    var r, s := R(22, 26, 2, 27, 13, 26, 22, 21), R(0, 26, 22, 22, 11, 25, 11, 5);
    assert Link(r, 7, s) by { Selected22(); }
    ReachLink(reach, symbols, k, 7, r, s);
  }

  lemma {:induction false} Link19(reach: (nat, Register) -> bool, symbols: seq<Symbol>, k: nat)
    requires IsReach(reach, symbols) && k < |symbols| && symbols[k] == 5 && reach(k, R(0, 26, 22, 22, 11, 25, 11, 5))
    ensures reach(k + 1, R(26, 22, 22, 11, 25, 11, 5, 5))
  {
    var r, s := R(0, 26, 22, 22, 11, 25, 11, 5), R(26, 22, 22, 11, 25, 11, 5, 5);
    assert Link(r, 5, s) by { Selected0(); }
    ReachLink(reach, symbols, k, 5, r, s);
  }

  lemma {:induction false} Link20(reach: (nat, Register) -> bool, symbols: seq<Symbol>, k: nat)
    requires IsReach(reach, symbols) && k < |symbols| && symbols[k] == 9 && reach(k, R(26, 22, 22, 11, 25, 11, 5, 5))
    ensures reach(k + 1, R(9, 28, 16, 24, 25, 11, 25, 28))
  {
    var r, s := R(26, 22, 22, 11, 25, 11, 5, 5), R(9, 28, 16, 24, 25, 11, 25, 28);
    assert Link(r, 9, s) by { Selected26(); }
    ReachLink(reach, symbols, k, 9, r, s);
  }

  lemma {:induction false} Link21(reach: (nat, Register) -> bool, symbols: seq<Symbol>, k: nat)
    requires IsReach(reach, symbols) && k < |symbols| && symbols[k] == 7 && reach(k, R(9, 28, 16, 24, 25, 11, 25, 28))
    ensures reach(k + 1, R(4, 27, 20, 28, 3, 6, 11, 20))
  {
    var r, s := R(9, 28, 16, 24, 25, 11, 25, 28), R(4, 27, 20, 28, 3, 6, 11, 20);
    assert Link(r, 7, s) by { Selected9(); }
    ReachLink(reach, symbols, k, 7, r, s);
  }

  lemma {:induction false} Link22(reach: (nat, Register) -> bool, symbols: seq<Symbol>, k: nat)
    requires IsReach(reach, symbols) && k < |symbols| && symbols[k] == 16 && reach(k, R(4, 27, 20, 28, 3, 6, 11, 20))
    ensures reach(k + 1, R(24, 26, 9, 18, 7, 19, 13, 29))
  {
    var r, s := R(4, 27, 20, 28, 3, 6, 11, 20), R(24, 26, 9, 18, 7, 19, 13, 29);
    assert Link(r, 16, s) by { Selected4(); }
    ReachLink(reach, symbols, k, 16, r, s);
  }

  lemma {:induction false} Link23(reach: (nat, Register) -> bool, symbols: seq<Symbol>, k: nat)
    requires IsReach(reach, symbols) && k < |symbols| && symbols[k] == 1 && reach(k, R(24, 26, 9, 18, 7, 19, 13, 29))
    ensures reach(k + 1, R(16, 4, 23, 26, 21, 15, 25, 6))
  {
    var r, s := R(24, 26, 9, 18, 7, 19, 13, 29), R(16, 4, 23, 26, 21, 15, 25, 6);
    assert Link(r, 1, s) by { Selected24(); }
    ReachLink(reach, symbols, k, 1, r, s);
  }

  lemma {:induction false} Link24(reach: (nat, Register) -> bool, symbols: seq<Symbol>, k: nat)
    requires IsReach(reach, symbols) && k < |symbols| && symbols[k] == 6 && reach(k, R(16, 4, 23, 26, 21, 15, 25, 6))
    ensures reach(k + 1, R(8, 6, 28, 3, 11, 2, 25, 27))
  {
    var r, s := R(16, 4, 23, 26, 21, 15, 25, 6), R(8, 6, 28, 3, 11, 2, 25, 27);
    assert Link(r, 6, s) by { Selected16(); }
    ReachLink(reach, symbols, k, 6, r, s);
  }

  lemma {:induction false} Link25(reach: (nat, Register) -> bool, symbols: seq<Symbol>, k: nat)
    requires IsReach(reach, symbols) && k < |symbols| && symbols[k] == 27 && reach(k, R(8, 6, 28, 3, 11, 2, 25, 27))
    ensures reach(k + 1, R(0, 0, 0, 0, 0, 0, 0, 1))
  {
    var r, s := R(8, 6, 28, 3, 11, 2, 25, 27), R(0, 0, 0, 0, 0, 0, 0, 1);
    assert Link(r, 27, s) by { Selected8(); }
    ReachLink(reach, symbols, k, 27, r, s);
  }

  predicate Example(symbols: seq<Symbol>) {
    symbols == [9, 18, 14, 20, 10, 21, 22, 0, 18, 21, 19, 0, 22, 22, 23, 0, 11, 0, 7, 5, 9, 7, 16, 1, 6, 27]
  }

  lemma {:induction false} Part0(reach: (nat, Register) -> bool, symbols: seq<Symbol>)
    requires IsReach(reach, symbols) && Example(symbols)
    requires reach(0, R(0, 0, 0, 0, 0, 0, 0, 1))
    ensures reach(4, R(0, 0, 0, 1, 9, 18, 14, 20))
  {
    assert symbols[..0] == [];
    StartValue();
    Link0(reach, symbols, 0);
    Link1(reach, symbols, 1);
    Link2(reach, symbols, 2);
    Link3(reach, symbols, 3);
  }

  lemma {:induction false} Part1(reach: (nat, Register) -> bool, symbols: seq<Symbol>)
    requires IsReach(reach, symbols) && Example(symbols)
    requires reach(4, R(0, 0, 0, 1, 9, 18, 14, 20))
    ensures reach(8, R(23, 5, 1, 26, 0, 19, 26, 9))
  {
    Link4(reach, symbols, 4);
    Link5(reach, symbols, 5);
    Link6(reach, symbols, 6);
    Link7(reach, symbols, 7);
  }

  lemma {:induction false} Part2(reach: (nat, Register) -> bool, symbols: seq<Symbol>)
    requires IsReach(reach, symbols) && Example(symbols)
    requires reach(8, R(23, 5, 1, 26, 0, 19, 26, 9))
    ensures reach(12, R(0, 16, 30, 11, 16, 9, 26, 27))
  {
    Link8(reach, symbols, 8);
    Link9(reach, symbols, 9);
    Link10(reach, symbols, 10);
    Link11(reach, symbols, 11);
  }

  lemma {:induction false} Part3(reach: (nat, Register) -> bool, symbols: seq<Symbol>)
    requires IsReach(reach, symbols) && Example(symbols)
    requires reach(12, R(0, 16, 30, 11, 16, 9, 26, 27))
    ensures reach(16, R(11, 23, 5, 2, 0, 6, 12, 27))
  {
    Link12(reach, symbols, 12);
    Link13(reach, symbols, 13);
    Link14(reach, symbols, 14);
    Link15(reach, symbols, 15);
  }

  lemma {:induction false} Part4(reach: (nat, Register) -> bool, symbols: seq<Symbol>)
    requires IsReach(reach, symbols) && Example(symbols)
    requires reach(16, R(11, 23, 5, 2, 0, 6, 12, 27))
    ensures reach(20, R(26, 22, 22, 11, 25, 11, 5, 5))
  {
    Link16(reach, symbols, 16);
    Link17(reach, symbols, 17);
    Link18(reach, symbols, 18);
    Link19(reach, symbols, 19);
  }

  lemma {:induction false} Part5(reach: (nat, Register) -> bool, symbols: seq<Symbol>)
    requires IsReach(reach, symbols) && Example(symbols)
    requires reach(20, R(26, 22, 22, 11, 25, 11, 5, 5))
    ensures reach(23, R(24, 26, 9, 18, 7, 19, 13, 29))
  {
    Link20(reach, symbols, 20);
    Link21(reach, symbols, 21);
    Link22(reach, symbols, 22);
  }

  lemma {:induction false} Part6(reach: (nat, Register) -> bool, symbols: seq<Symbol>)
    requires IsReach(reach, symbols) && Example(symbols)
    requires reach(23, R(24, 26, 9, 18, 7, 19, 13, 29))
    ensures reach(26, R(0, 0, 0, 0, 0, 0, 0, 1))
  {
    Link23(reach, symbols, 23);
    Link24(reach, symbols, 24);
    Link25(reach, symbols, 25);
  }

  lemma {:induction false} StartValue()
    ensures Value(R(0, 0, 0, 0, 0, 0, 0, 1)) == 1
  {
  }

  lemma {:induction false} ExampleReaches(reach: (nat, Register) -> bool, symbols: seq<Symbol>)
    requires IsReach(reach, symbols) && Example(symbols) && reach(0, R(0, 0, 0, 0, 0, 0, 0, 1))
    ensures reach(26, R(0, 0, 0, 0, 0, 0, 0, 1))
  {
    Part0(reach, symbols);
    Part1(reach, symbols);
    Part2(reach, symbols);
    Part3(reach, symbols);
    Part4(reach, symbols);
    Part5(reach, symbols);
    Part6(reach, symbols);
  }

  lemma {:induction false} ReachesEnds(symbols: seq<Symbol>, n: nat, r: Register)
    ensures Reaches(symbols, 0, R(0, 0, 0, 0, 0, 0, 0, 1))
    ensures n == |symbols| && Reaches(symbols, n, r) ==> Polymod(1, symbols) == Value(r)
  {
    assert symbols[..0] == [] && symbols[..|symbols|] == symbols;
    StartValue();
  }

  lemma {:induction false} ExampleEndsInOne(symbols: seq<Symbol>)
    requires Example(symbols)
    ensures Polymod(1, symbols) == 1
  {
    var one := R(0, 0, 0, 0, 0, 0, 0, 1);
    var reach := (k: nat, r: Register) => k <= |symbols| && Reaches(symbols, k, r);
    ReachesEnds(symbols, 26, one);
    ExampleReaches(reach, symbols);
    assert Reaches(symbols, 26, one);
    StartValue();
  }

  // ----- the symbols of the text

  lemma {:induction false} FirstClass(ch: char, p: nat)
    requires p < 32 && CHARS0[p] == ch && forall j :: 0 <= j < p ==> CHARS0[j] != ch
    ensures Allowed(ch) && PositionOf(ch) == p
  {
    assert CHARSET[p] == CHARS0[p];
    forall j | 0 <= j < p ensures CHARSET[j] != ch {
      assert CHARSET[j] == CHARS0[j];
    }
  }

  lemma {:induction false} ThirdClass(ch: char, p: nat)
    requires p < 31 && CHARS2[p] == ch && ch !in CHARS0 && ch !in CHARS1 && forall j :: 0 <= j < p ==> CHARS2[j] != ch
    ensures Allowed(ch) && PositionOf(ch) == 64 + p
  {
    assert CHARSET[64 + p] == CHARS2[p];
    forall j | 0 <= j < 64 + p ensures CHARSET[j] != ch {
      if j < 32 {
        assert CHARSET[j] == CHARS0[j];
      } else if j < 64 {
        assert CHARSET[j] == CHARS1[j - 32];
      } else {
        assert CHARSET[j] == CHARS2[j - 64];
      }
    }
  }

  lemma {:induction false} Pos73()
    ensures Allowed('r') && PositionOf('r') == 73
  {
    ThirdClass('r', 9);
  }

  lemma {:induction false} Pos18()
    ensures Allowed('a') && PositionOf('a') == 18
  {
    FirstClass('a', 18);
  }

  lemma {:induction false} Pos78()
    ensures Allowed('w') && PositionOf('w') == 78
  {
    ThirdClass('w', 14);
  }

  lemma {:induction false} Pos10()
    ensures Allowed('(') && PositionOf('(') == 10
  {
    FirstClass('(', 10);
  }

  lemma {:induction false} Pos21()
    ensures Allowed('d') && PositionOf('d') == 21
  {
    FirstClass('d', 21);
  }

  lemma {:induction false} Pos22()
    ensures Allowed('e') && PositionOf('e') == 22
  {
    FirstClass('e', 22);
  }

  lemma {:induction false} Pos19()
    ensures Allowed('b') && PositionOf('b') == 19
  {
    FirstClass('b', 19);
  }

  lemma {:induction false} Pos23()
    ensures Allowed('f') && PositionOf('f') == 23
  {
    FirstClass('f', 23);
  }

  lemma {:induction false} Pos11()
    ensures Allowed(')') && PositionOf(')') == 11
  {
    FirstClass(')', 11);
  }

  /** The text, character by character. */
  predicate IsText(t: string) {
    |t| == 13 && t[0] == 'r' && t[1] == 'a' && t[2] == 'w' && t[3] == '(' && t[4] == 'd' && t[5] == 'e' && t[6] == 'a' &&
    t[7] == 'd' && t[8] == 'b' && t[9] == 'e' && t[10] == 'e' && t[11] == 'f' && t[12] == ')'
  }

  predicate InText(ch: char) {
    ch == 'r' || ch == 'a' || ch == 'w' || ch == '(' || ch == 'd' || ch == 'e' || ch == 'b' || ch == 'f' || ch == ')'
  }

  lemma {:induction false} CharAllowed(ch: char)
    requires InText(ch)
    ensures Allowed(ch)
  {
    if ch == 'r' {
      Pos73();
    } else if ch == 'a' {
      Pos18();
    } else if ch == 'w' {
      Pos78();
    } else if ch == '(' {
      Pos10();
    } else if ch == 'd' {
      Pos21();
    } else if ch == 'e' {
      Pos22();
    } else if ch == 'b' {
      Pos19();
    } else if ch == 'f' {
      Pos23();
    } else {
      Pos11();
    }
  }

  lemma {:induction false} TextAllowed(t: string)
    requires IsText(t)
    ensures InCharset(t)
  {
    forall i | 0 <= i < |t| ensures Allowed(t[i]) {
      CharAllowed(t[i]);
    }
  }

  lemma {:induction false} FirstPositions(t: string)
    requires IsText(t) && InCharset(t)
    ensures var ps := Positions(t);
            ps[0] == 73 && ps[1] == 18 && ps[2] == 78 && ps[3] == 10 && ps[4] == 21 && ps[5] == 22 && ps[6] == 18
  {
    Pos73();
    Pos18();
    Pos78();
    Pos10();
    Pos21();
    Pos22();
  }

  lemma {:induction false} LastPositions(t: string)
    requires IsText(t) && InCharset(t)
    ensures var ps := Positions(t);
            ps[7] == 21 && ps[8] == 19 && ps[9] == 22 && ps[10] == 22 && ps[11] == 23 && ps[12] == 11
  {
    Pos21();
    Pos19();
    Pos22();
    Pos23();
    Pos11();
  }

  lemma {:induction false} ExpandTurn(ps: seq<Position>, i: nat)
    requires i + 3 <= |ps|
    ensures Expand(ps[i..]) == Group(ps[i], ps[i + 1], ps[i + 2]) + Expand(ps[i + 3..])
  {
    assert ps[i..][3..] == ps[i + 3..];
  }

  lemma {:induction false} ExpandText(ps: seq<Position>)
    requires |ps| == 13
    ensures Expand(ps) == Group(ps[0], ps[1], ps[2]) + (Group(ps[3], ps[4], ps[5]) + (Group(ps[6], ps[7], ps[8]) +
                          (Group(ps[9], ps[10], ps[11]) + [ps[12] % 32, ps[12] / 32])))
  {
    ExpandTurn(ps, 0);
    ExpandTurn(ps, 3);
    ExpandTurn(ps, 6);
    ExpandTurn(ps, 9);
    assert ps[0..] == ps;
    assert ps[12..] == [ps[12]];
    assert Expand([ps[12]]) == [ps[12] % 32, ps[12] / 32];
  }

  lemma {:induction false} FirstHalf(t: string)
    requires IsText(t) && InCharset(t)
    ensures var ps := Positions(t);
            Group(ps[0], ps[1], ps[2]) == [9, 18, 14, 20] && Group(ps[3], ps[4], ps[5]) == [10, 21, 22, 0]
  {
    FirstPositions(t);
    FirstGroups(Positions(t));
  }

  lemma {:induction false} FirstGroups(ps: seq<Position>)
    requires |ps| == 13 && ps[0] == 73 && ps[1] == 18 && ps[2] == 78 && ps[3] == 10 && ps[4] == 21 && ps[5] == 22
    ensures Group(ps[0], ps[1], ps[2]) == [9, 18, 14, 20] && Group(ps[3], ps[4], ps[5]) == [10, 21, 22, 0]
  {
  }

  lemma {:induction false} LastGroups(ps: seq<Position>)
    requires |ps| == 13 && ps[6] == 18 && ps[7] == 21 && ps[8] == 19 && ps[9] == 22 && ps[10] == 22 && ps[11] == 23 && ps[12] == 11
    ensures Group(ps[6], ps[7], ps[8]) == [18, 21, 19, 0] && Group(ps[9], ps[10], ps[11]) == [22, 22, 23, 0]
    ensures ps[12] % 32 == 11 && ps[12] / 32 == 0
  {
  }

  lemma {:induction false} SecondHalf(t: string)
    requires IsText(t) && InCharset(t)
    ensures var ps := Positions(t);
            && Group(ps[6], ps[7], ps[8]) == [18, 21, 19, 0] && Group(ps[9], ps[10], ps[11]) == [22, 22, 23, 0]
            && ps[12] % 32 == 11 && ps[12] / 32 == 0
  {
    FirstPositions(t);
    LastPositions(t);
    LastGroups(Positions(t));
  }

  lemma {:induction false} Joined(a: seq<nat>, b: seq<nat>, c: seq<nat>, d: seq<nat>, e: seq<nat>, v: seq<nat>)
    requires a == [9, 18, 14, 20] && b == [10, 21, 22, 0] && c == [18, 21, 19, 0] && d == [22, 22, 23, 0] && e == [11, 0]
    requires v == [7, 5, 9, 7, 16, 1, 6, 27]
    ensures (a + (b + (c + (d + e)))) + v ==
            [9, 18, 14, 20, 10, 21, 22, 0, 18, 21, 19, 0, 22, 22, 23, 0, 11, 0, 7, 5, 9, 7, 16, 1, 6, 27]
  {
  }

  /** The symbols of the text, and behind them eight more. */
  lemma {:induction false} TextThenChecks(t: string, v: seq<Symbol>)
    requires IsText(t) && InCharset(t) && v == [7, 5, 9, 7, 16, 1, 6, 27]
    ensures Example(SymbolsOf(t) + v)
  {
    var ps := Positions(t);
    FirstHalf(t);
    SecondHalf(t);
    ExpandText(ps);
    Joined(Group(ps[0], ps[1], ps[2]), Group(ps[3], ps[4], ps[5]), Group(ps[6], ps[7], ps[8]), Group(ps[9], ps[10], ps[11]),
           [ps[12] % 32, ps[12] / 32], v);
  }

  lemma {:induction false} ChecksAre(t: string, v: seq<Symbol>)
    requires InCharset(t) && |v| == 8 && Example(SymbolsOf(t) + v)
    ensures v == TextChecks(t)
  {
    ExampleEndsInOne(SymbolsOf(t) + v);
    TextResidue(t, v);
  }

  lemma {:induction false} RenderAt(v: seq<nat>, i: nat)
    requires Symbols(v) && i < |v|
    ensures Render(v)[i] == Bech32(v[i])
    decreases |v|
  {
    var n := |v| - 1;
    if i < n {
      RenderAt(v[..n], i);
    }
  }

  lemma {:induction false} Letters()
    ensures BECH32[7] == '8' && BECH32[5] == '9' && BECH32[9] == 'f' && BECH32[16] == 's'
    ensures BECH32[1] == 'p' && BECH32[6] == 'x' && BECH32[27] == 'm'
  {
  }

  lemma {:induction false} ChecksRendered(v: seq<Symbol>)
    requires v == [7, 5, 9, 7, 16, 1, 6, 27]
    ensures Render(v) == "89f8spxm"
  {
    RenderAt(v, 0);
    RenderAt(v, 1);
    RenderAt(v, 2);
    RenderAt(v, 3);
    RenderAt(v, 4);
    RenderAt(v, 5);
    RenderAt(v, 6);
    RenderAt(v, 7);
    Letters();
  }

  lemma {:induction false} TextIs(t: string)
    requires t == "raw(deadbeef)"
    ensures IsText(t)
  {
  }

  /** The standard's example: the checksum of `raw(deadbeef)` is `89f8spxm`. */
  lemma {:induction false} ChecksumOfExample(t: string)
    requires t == "raw(deadbeef)"
    ensures InCharset(t) && ChecksumText(t) == "89f8spxm"
  {
    var v: seq<Symbol> := [7, 5, 9, 7, 16, 1, 6, 27];
    assert IsText(t) by { TextIs(t); }
    TextAllowed(t);
    TextThenChecks(t, v);
    ChecksAre(t, v);
    ChecksRendered(v);
  }
}
