/**
  The descriptor checksum of BIP 380 (section "Checksum"): a 40-bit linear
  register over 5-bit symbols, the expansion of text into symbols, and the
  program's variant that keeps a wider register.
 */
module Checksum {
  import opened Bits

  const GEN0: nat := 0xf5dee51989
  const GEN1: nat := 0xa9fdca3312
  const GEN2: nat := 0x1bab10e32d
  const GEN3: nat := 0x3706b1677a
  const GEN4: nat := 0x644d626ffd

  /** The charset, in its three classes of 32, 32 and 31 characters. */
  const CHARS0: string := "0123456789()[],'/*abcdefgh@:$%{}"
  const CHARS1: string := "IJKLMNOPQRSTUVWXYZ&+-.;<=>?!^_|~"
  const CHARS2: string := "ijklmnopqrstuvwxyzABCDEFGH`#\"\\ "
  const CHARSET: string := CHARS0 + CHARS1 + CHARS2

  const BECH32: string := "qpzry9x8gf2tvdw0s3jn54khce6mua7l"

  type Symbol = x: nat | x < 32

  /** Register width of the reference, and of its part below the feedback bits. */
  const WIDTH: nat := 40
  const TAIL: nat := 35

  /** Bits per symbol, and generator masks per step. */
  const BITS: nat := 5

  function Mask(i: nat): nat {
    if i == 0 then GEN0 else if i == 1 then GEN1 else if i == 2 then GEN2 else if i == 3 then GEN3 else GEN4
  }

  /** Sum of the generator masks selected by the low n bits of c0. */
  function Feedback(c0: nat, n: nat): nat {
    if n == 0 then 0
    else Xor(Feedback(c0, n - 1), if Bit(c0, n - 1) then Mask(n - 1) else 0)
  }

  /** One step of the reference register. */
  function Step(c: nat, v: nat): nat {
    Xor(Xor(Shl(Low(c, TAIL), BITS), v), Feedback(Shr(c, TAIL), BITS))
  }

  function Polymod(c: nat, symbols: seq<nat>): nat
    decreases |symbols|
  {
    if symbols == [] then c else Polymod(Step(c, symbols[0]), symbols[1..])
  }

  // ----- sizes

  lemma {:induction false} Pow2Small()
    ensures Pow2(BITS) == 32 && Pow2(8) == 256 && Pow2(16) == 65536 && Pow2(24) == 0x100_0000
    ensures Pow2(32) == 0x1_0000_0000 && Pow2(WIDTH) == 0x100_0000_0000
  {
    assert Pow2(4) == 16;
    Pow2EightMore(0); Pow2EightMore(8); Pow2EightMore(16); Pow2EightMore(24); Pow2EightMore(32);
  }

  lemma {:induction false} MaskBound(i: nat)
    ensures Mask(i) < Pow2(WIDTH)
  {
    Pow2Small();
  }

  lemma {:induction false} FeedbackBound(c0: nat, n: nat)
    ensures Feedback(c0, n) < Pow2(WIDTH)
  {
    Pow2Small();
    if n > 0 {
      FeedbackBound(c0, n - 1);
      MaskBound(n - 1);
      XorBound(Feedback(c0, n - 1), if Bit(c0, n - 1) then Mask(n - 1) else 0, WIDTH);
    }
  }

  lemma {:induction false} ShiftFive(c: nat)
    ensures Shl(c, BITS) == 32 * c
  {
    assert Shl(c, 1) == 2 * c;
    assert Shl(c, 2) == 4 * c;
    assert Shl(c, 3) == 8 * c;
    assert Shl(c, 4) == 16 * c;
  }

  lemma {:induction false} StepBound(c: nat, v: Symbol)
    ensures Step(c, v) < Pow2(WIDTH)
  {
    var low := Low(c, TAIL);
    LowBound(c, TAIL);
    ShlBound(low, TAIL, BITS);
    Pow2Small();
    XorBound(Shl(low, BITS), v, WIDTH);
    FeedbackBound(Shr(c, TAIL), BITS);
    XorBound(Xor(Shl(low, BITS), v), Feedback(Shr(c, TAIL), BITS), WIDTH);
  }

  predicate Symbols(s: seq<nat>) {
    forall i :: 0 <= i < |s| ==> s[i] < 32
  }

  lemma {:induction false} PolymodBound(c: nat, s: seq<nat>)
    requires c < Pow2(WIDTH) && Symbols(s)
    ensures Polymod(c, s) < Pow2(WIDTH)
    decreases |s|
  {
    if s != [] {
      StepBound(c, s[0]);
      PolymodBound(Step(c, s[0]), s[1..]);
    }
  }

  // ----- linearity

  lemma {:induction false} FeedbackXor(a: nat, b: nat, n: nat)
    ensures Feedback(Xor(a, b), n) == Xor(Feedback(a, n), Feedback(b, n))
  {
    if n == 0 {
      assert Xor(0, 0) == 0;
    } else {
      FeedbackXor(a, b, n - 1);
      BitXor(a, b, n - 1);
      XorSelf(Mask(n - 1));
      XorSwapMiddle(Feedback(a, n - 1), if Bit(a, n - 1) then Mask(n - 1) else 0,
                    Feedback(b, n - 1), if Bit(b, n - 1) then Mask(n - 1) else 0);
    }
  }

  lemma {:induction false} StepXor(c: nat, d: nat, v: nat, w: nat)
    ensures Step(Xor(c, d), Xor(v, w)) == Xor(Step(c, v), Step(d, w))
  {
    LowXor(c, d, TAIL);
    ShlXor(Low(c, TAIL), Low(d, TAIL), BITS);
    ShrXor(c, d, TAIL);
    FeedbackXor(Shr(c, TAIL), Shr(d, TAIL), BITS);
    XorSwapMiddle(Shl(Low(c, TAIL), BITS), Shl(Low(d, TAIL), BITS), v, w);
    XorSwapMiddle(Xor(Shl(Low(c, TAIL), BITS), v), Xor(Shl(Low(d, TAIL), BITS), w),
                  Feedback(Shr(c, TAIL), BITS), Feedback(Shr(d, TAIL), BITS));
  }

  function XorSeq(s: seq<nat>, t: seq<nat>): (r: seq<nat>)
    requires |s| == |t|
  {
    seq(|s|, i requires 0 <= i < |s| => Xor(s[i], t[i]))
  }

  lemma {:induction false} PolymodXor(c: nat, d: nat, s: seq<nat>, t: seq<nat>)
    requires |s| == |t|
    ensures Polymod(Xor(c, d), XorSeq(s, t)) == Xor(Polymod(c, s), Polymod(d, t))
    decreases |s|
  {
    if s != [] {
      StepXor(c, d, s[0], t[0]);
      assert XorSeq(s, t)[1..] == XorSeq(s[1..], t[1..]);
      PolymodXor(Step(c, s[0]), Step(d, t[0]), s[1..], t[1..]);
    }
  }

  lemma {:induction false} PolymodConcat(c: nat, s: seq<nat>, t: seq<nat>)
    ensures Polymod(c, s + t) == Polymod(Polymod(c, s), t)
    decreases |s|
  {
    if s == [] {
      assert s + t == t;
    } else {
      assert (s + t)[1..] == s[1..] + t;
      PolymodConcat(Step(c, s[0]), s[1..], t);
    }
  }

  // ----- up to eight symbols pass through an empty register unchanged

  function Pack(v: seq<nat>): nat {
    if v == [] then 0 else 32 * Pack(v[..|v| - 1]) + v[|v| - 1]
  }

  function Digits(c: nat, n: nat): (v: seq<nat>)
    ensures |v| == n
    decreases n
  {
    if n == 0 then [] else Digits(Shr(c, BITS), n - 1) + [Low(c, BITS)]
  }

  lemma {:induction false} DigitAt(c: nat, n: nat, j: nat)
    requires j < n
    ensures Digits(c, n)[j] == Low(Shr(c, BITS * (n - 1 - j)), BITS)
    ensures Digits(c, n)[j] < 32
    decreases n
  {
    if j < n - 1 {
      DigitAt(Shr(c, BITS), n - 1, j);
      ShrAdd(c, BITS, BITS * (n - 2 - j));
    } else {
      LowBound(c, BITS);
      Pow2Small();
    }
  }

  lemma {:induction false} PackDigits(c: nat, n: nat)
    requires c < Pow2(5 * n)
    ensures Pack(Digits(c, n)) == c
    decreases n
  {
    if n > 0 {
      SplitAt(c, BITS);
      ShiftFive(Shr(c, BITS));
      assert 5 * n == 5 * (n - 1) + 5;
      ShrBound(c, BITS, 5 * (n - 1));
      PackDigits(Shr(c, BITS), n - 1);
      assert Digits(c, n)[..n - 1] == Digits(Shr(c, BITS), n - 1);
    }
  }

  lemma {:induction false} PackInjective(v: seq<nat>, w: seq<nat>)
    requires |v| == |w| && Symbols(v) && Symbols(w) && Pack(v) == Pack(w)
    ensures v == w
    decreases |v|
  {
    if v != [] {
      var n := |v| - 1;
      PackInjective(v[..n], w[..n]);
      assert v == v[..n] + [v[n]] && w == w[..n] + [w[n]];
    }
  }

  lemma {:induction false} PackBound(v: seq<nat>)
    requires Symbols(v)
    ensures Pack(v) < Pow2(5 * |v|)
  {
    if v != [] {
      var n := |v| - 1;
      PackBound(v[..n]);
      ShlBound(Pack(v[..n]), 5 * n, BITS);
      assert 5 * n + 5 == 5 * |v|;
      ShlBound(Pack(v[..n]) + 1, 5 * n, BITS);
      ShiftFive(Pack(v[..n]));
      assert Pow2(5 * n + 1) == 2 * Pow2(5 * n);
      assert Pow2(5 * n + 2) == 4 * Pow2(5 * n);
      assert Pow2(5 * n + 3) == 8 * Pow2(5 * n);
      assert Pow2(5 * n + 4) == 16 * Pow2(5 * n);
      assert Pow2(5 * n + 5) == 32 * Pow2(5 * n);
    }
  }

  lemma {:induction false} FeedbackZero(n: nat)
    ensures Feedback(0, n) == 0
  {
    if n > 0 {
      FeedbackZero(n - 1);
      BitZero(n - 1);
      assert Xor(0, 0) == 0;
    }
  }

  lemma {:induction false} StepSmall(c: nat, v: Symbol)
    requires c < Pow2(TAIL)
    ensures Step(c, v) == 32 * c + v
  {
    var low, f := Low(c, TAIL), Feedback(Shr(c, TAIL), BITS);
    assert low == c by { LowBound(c, TAIL); }
    assert f == 0 by { NoFeedback(c); }
    assert Xor(Shl(low, BITS), v) == 32 * c + v by { ShiftIn(c, v); }
    XorRightZero(32 * c + v);
  }

  lemma {:induction false} XorRightZero(x: nat)
    ensures Xor(x, 0) == x
  {
  }

  lemma {:induction false} NoFeedback(c: nat)
    requires c < Pow2(TAIL)
    ensures Feedback(Shr(c, TAIL), BITS) == 0
  {
    var zero: nat := 0;
    assert zero + TAIL == TAIL && Pow2(zero) == 1;
    ShrBound(c, TAIL, zero);
    FeedbackZero(BITS);
  }

  lemma {:induction false} ShiftIn(c: nat, v: Symbol)
    ensures Xor(Shl(c, BITS), v) == 32 * c + v
  {
    Pow2Small();
    DisjointAdd(c, v, BITS);
    ShiftFive(c);
  }

  lemma {:induction false} PolymodPack(v: seq<nat>)
    requires |v| <= 8 && Symbols(v)
    ensures Polymod(0, v) == Pack(v)
  {
    if v != [] {
      var n := |v| - 1;
      PolymodPack(v[..n]);
      PackFits(v[..n]);
      StepSmall(Pack(v[..n]), v[n]);
      PolymodLast(0, v);
    }
  }

  lemma {:induction false} PackFits(v: seq<nat>)
    requires |v| < 8 && Symbols(v)
    ensures Pack(v) < Pow2(TAIL)
  {
    PackBound(v);
    Pow2Mono(5 * |v|, TAIL);
  }

  lemma {:induction false} PolymodLast(c: nat, v: seq<nat>)
    requires v != []
    ensures Polymod(c, v) == Step(Polymod(c, v[..|v| - 1]), v[|v| - 1])
  {
    var n := |v| - 1;
    assert v == v[..n] + [v[n]];
    PolymodConcat(c, v[..n], [v[n]]);
    var d := Polymod(c, v[..n]);
    assert [v[n]][1..] == [];
    assert Polymod(d, [v[n]]) == Polymod(Step(d, v[n]), []);
  }

  function Zeros(n: nat): (z: seq<nat>)
    ensures |z| == n && Symbols(z)
  {
    seq(n, i => 0)
  }

  // ----- the checksum symbols

  /** The eight symbols emitted for a register value. */
  function Checks(c: nat): (v: seq<nat>)
    ensures |v| == 8
  {
    Digits(Xor(Polymod(c, Zeros(8)), 1), 8)
  }

  lemma {:induction false} ChecksAreSymbols(c: nat)
    ensures Symbols(Checks(c))
  {
    forall j | 0 <= j < 8 ensures Checks(c)[j] < 32 {
      DigitAt(Xor(Polymod(c, Zeros(8)), 1), 8, j);
    }
  }

  /** Feeding v into a register holding c superposes v on as many zero symbols. */
  lemma {:induction false} Superimpose(c: nat, v: seq<nat>)
    requires |v| <= 8 && Symbols(v)
    ensures Polymod(c, v) == Xor(Polymod(c, Zeros(|v|)), Pack(v))
  {
    assert XorSeq(Zeros(|v|), v) == v;
    PolymodXor(c, 0, Zeros(|v|), v);
    XorComm(c, 0);
    PolymodPack(v);
  }

  /** The emitted symbols, and no others, bring the register to 1. */
  lemma {:induction false} ResidueOne(c: nat, v: seq<nat>)
    requires c < Pow2(WIDTH) && |v| == 8 && Symbols(v)
    ensures Polymod(c, v) == 1 <==> v == Checks(c)
  {
    var z := Polymod(c, Zeros(8));
    var x := Xor(z, 1);
    PolymodBound(c, Zeros(8));
    Pow2Small();
    XorBound(z, 1, WIDTH);
    PackDigits(x, 8);
    ChecksAreSymbols(c);
    Superimpose(c, v);
    XorCancel(z, 1);
    XorCancel(z, Pack(v));
    // Xor(z, Pack(v)) == 1 <==> Pack(v) == Xor(z, 1) == Pack(Checks(c))
    if Polymod(c, v) == 1 {
      assert Pack(v) == x;
      PackInjective(v, Checks(c));
    }
  }

  // ----- error detection

  /** Coefficient j of the feedback: the selected masks' coefficients, summed. */
  predicate FeedbackBit(c0: nat, n: nat, j: nat)
    decreases n
  {
    n > 0 && (FeedbackBit(c0, n - 1, j) != (Bit(c0, n - 1) && Bit(Mask(n - 1), j)))
  }

  lemma {:induction false} BitFeedback(c0: nat, n: nat, j: nat)
    ensures Bit(Feedback(c0, n), j) == FeedbackBit(c0, n, j)
    decreases n
  {
    BitZero(j);
    if n > 0 {
      BitFeedback(c0, n - 1, j);
      BitXor(Feedback(c0, n - 1), if Bit(c0, n - 1) then Mask(n - 1) else 0, j);
    }
  }

  /** The low five bits of the masks are linearly independent. */
  lemma {:induction false} MasksIndependent(c0: nat)
    requires c0 < 32 && forall j: nat :: j < 5 ==> !FeedbackBit(c0, 5, j)
    ensures c0 == 0
  {
    assert !FeedbackBit(c0, 5, 0) && !FeedbackBit(c0, 5, 1) && !FeedbackBit(c0, 5, 2);
    assert !FeedbackBit(c0, 5, 3) && !FeedbackBit(c0, 5, 4);
    MaskBits();
    assert !Bit(c0, 0) && !Bit(c0, 1) && !Bit(c0, 2) && !Bit(c0, 3) && !Bit(c0, 4);
    BitUnfold(c0);
  }

  lemma {:induction false} BitUnfold(c: nat)
    requires c < 32 && !Bit(c, 0) && !Bit(c, 1) && !Bit(c, 2) && !Bit(c, 3) && !Bit(c, 4)
    ensures c == 0
  {
    assert !Bit(c / 2, 0) && !Bit(c / 2, 1) && !Bit(c / 2, 2) && !Bit(c / 2, 3);
    assert !Bit(c / 2 / 2, 0) && !Bit(c / 2 / 2, 1) && !Bit(c / 2 / 2, 2);
    assert !Bit(c / 2 / 2 / 2, 0) && !Bit(c / 2 / 2 / 2, 1);
    assert !Bit(c / 2 / 2 / 2 / 2, 0);
  }

  lemma {:induction false} MaskBits()
    ensures Bit(Mask(0), 0) && !Bit(Mask(0), 1) && !Bit(Mask(0), 2) && Bit(Mask(0), 3) && !Bit(Mask(0), 4)
    ensures !Bit(Mask(1), 0) && Bit(Mask(1), 1) && !Bit(Mask(1), 2) && !Bit(Mask(1), 3) && Bit(Mask(1), 4)
    ensures Bit(Mask(2), 0) && !Bit(Mask(2), 1) && Bit(Mask(2), 2) && Bit(Mask(2), 3) && !Bit(Mask(2), 4)
    ensures !Bit(Mask(3), 0) && Bit(Mask(3), 1) && !Bit(Mask(3), 2) && Bit(Mask(3), 3) && Bit(Mask(3), 4)
    ensures Bit(Mask(4), 0) && !Bit(Mask(4), 1) && Bit(Mask(4), 2) && Bit(Mask(4), 3) && Bit(Mask(4), 4)
  {
  }

  lemma {:induction false} FeedbackLowBits(c0: nat)
    requires c0 < 32 && Low(Feedback(c0, BITS), BITS) == 0
    ensures c0 == 0
  {
    forall j: nat | j < BITS ensures !FeedbackBit(c0, BITS, j) {
      BitLow(Feedback(c0, BITS), BITS, j);
      BitZero(j);
      BitFeedback(c0, BITS, j);
    }
    MasksIndependent(c0);
  }

  /** A step of the register with symbol 0 is injective at 0, hence everywhere. */
  lemma {:induction false} StepKeepsNonzero(c: nat)
    requires c < Pow2(WIDTH) && Step(c, 0) == 0
    ensures c == 0
  {
    var c0 := Shr(c, TAIL);
    var shifted := Shl(Low(c, TAIL), BITS);
    assert Pow2(BITS) == 32 by { Pow2Small(); }
    ShrBound(c, TAIL, BITS);
    XorComm(shifted, 0);
    XorZero(shifted, Feedback(c0, BITS));
    LowShl(Low(c, TAIL), BITS, BITS);
    assert Low(shifted, BITS) == Shl(Low(Low(c, TAIL), 0), BITS) == Shl(0, BITS);
    ShiftFive(0);
    FeedbackLowBits(c0);
    FeedbackZero(BITS);
    ShiftFive(Low(c, TAIL));
    SplitAt(c, TAIL);
    ShlZero(TAIL);
  }

  lemma {:induction false} ZerosKeepNonzero(c: nat, n: nat)
    requires 0 < c < Pow2(WIDTH)
    ensures Polymod(c, Zeros(n)) != 0
    decreases n
  {
    if n > 0 {
      StepBound(c, 0);
      if Step(c, 0) == 0 {
        StepKeepsNonzero(c);
      }
      assert Zeros(n)[1..] == Zeros(n - 1);
      ZerosKeepNonzero(Step(c, 0), n - 1);
    }
  }

  /** The register is a permutation of its states under any input. */
  lemma {:induction false} PolymodInjective(c: nat, d: nat, s: seq<nat>)
    requires c < Pow2(WIDTH) && d < Pow2(WIDTH) && c != d && Symbols(s)
    ensures Polymod(c, s) != Polymod(d, s)
  {
    PolymodXor(c, d, s, s);
    assert XorSeq(s, s) == Zeros(|s|) by {
      forall i | 0 <= i < |s| ensures XorSeq(s, s)[i] == 0 {
        XorSelf(s[i]);
      }
    }
    XorZero(c, d);
    XorBound(c, d, WIDTH);
    ZerosKeepNonzero(Xor(c, d), |s|);
    XorZero(Polymod(c, s), Polymod(d, s));
  }

  /** Any change confined to eight consecutive symbols changes the register for good. */
  lemma {:induction false} BurstDetected(c: nat, a: seq<nat>, w: seq<nat>, w': seq<nat>, b: seq<nat>)
    requires c < Pow2(WIDTH) && Symbols(a) && Symbols(w) && Symbols(w') && Symbols(b)
    requires |w| == |w'| <= 8 && w != w'
    ensures Polymod(c, a + w + b) != Polymod(c, a + w' + b)
  {
    var p := Polymod(c, a);
    PolymodBound(c, a);
    PolymodConcat(c, a + w, b);
    PolymodConcat(c, a + w', b);
    PolymodConcat(c, a, w);
    PolymodConcat(c, a, w');
    PolymodBound(p, w);
    PolymodBound(p, w');
    if Polymod(p, w) == Polymod(p, w') {
      Superimpose(p, w);
      Superimpose(p, w');
      XorCancel(Polymod(p, Zeros(|w|)), Pack(w));
      XorCancel(Polymod(p, Zeros(|w|)), Pack(w'));
      PackInjective(w, w');
    }
    PolymodInjective(Polymod(p, w), Polymod(p, w'), b);
  }

  // ----- text to symbols

  function IndexOf(s: string, ch: char): (i: int)
    ensures -1 <= i < |s|
    ensures i >= 0 ==> s[i] == ch
    ensures i < 0 ==> ch !in s
    ensures forall j :: 0 <= j < i ==> s[j] != ch
  {
    if s == [] then -1
    else if s[0] == ch then 0
    else var i := IndexOf(s[1..], ch); if i < 0 then -1 else i + 1
  }

  predicate Allowed(ch: char) {
    ch in CHARSET
  }

  predicate InCharset(text: string) {
    forall i :: 0 <= i < |text| ==> Allowed(text[i])
  }

  type Position = x: nat | x < 96

  /** `DESCRIPTOR_INPUT_CHARSET.indexOf(ch)`: the first index that holds the character. */
  function PositionOf(ch: char): (p: int)
    ensures -1 <= p < 95 == |CHARSET|
    ensures p == -1 <==> !Allowed(ch)
    ensures p >= 0 ==> CHARSET[p] == ch && forall j :: 0 <= j < p ==> CHARSET[j] != ch
  {
    assert |CHARS0| == 32 && |CHARS1| == 32 && |CHARS2| == 31;
    IndexOf(CHARSET, ch)
  }

  lemma {:induction false} PositionInjective(ch: char, ch': char)
    requires Allowed(ch) && Allowed(ch') && PositionOf(ch) == PositionOf(ch')
    ensures ch == ch'
  {
    assert CHARSET[IndexOf(CHARSET, ch)] == ch;
  }

  function Positions(text: string): (ps: seq<Position>)
    requires InCharset(text)
    ensures |ps| == |text|
  {
    seq(|text|, i requires 0 <= i < |text| => PositionOf(text[i]))
  }

  /** A whole group of three: the low parts, then the joint class. */
  function Group(a: Position, b: Position, c: Position): seq<nat> {
    [a % 32, b % 32, c % 32, 9 * (a / 32) + 3 * (b / 32) + c / 32]
  }

  /** The low parts of a group read so far. */
  function LowParts(ps: seq<Position>): (s: seq<nat>)
    requires |ps| <= 3
    ensures |s| == |ps|
  {
    if |ps| == 0 then []
    else if |ps| == 1 then [ps[0] % 32]
    else if |ps| == 2 then [ps[0] % 32, ps[1] % 32]
    else [ps[0] % 32, ps[1] % 32, ps[2] % 32]
  }

  /** The class of a group read so far, in base three. */
  function Class(ps: seq<Position>): (c: nat)
    requires |ps| <= 3
    ensures c < 27
  {
    if |ps| == 0 then 0
    else if |ps| == 1 then ps[0] / 32
    else if |ps| == 2 then 3 * (ps[0] / 32) + ps[1] / 32
    else 9 * (ps[0] / 32) + 3 * (ps[1] / 32) + ps[2] / 32
  }

  function Expand(ps: seq<Position>): seq<nat> {
    if |ps| == 0 then []
    else if |ps| < 3 then LowParts(ps) + [Class(ps)]
    else Group(ps[0], ps[1], ps[2]) + Expand(ps[3..])
  }

  lemma {:induction false} ExpandSymbols(ps: seq<Position>)
    ensures Symbols(Expand(ps))
    decreases |ps|
  {
    if |ps| >= 3 {
      ExpandSymbols(ps[3..]);
    }
  }

  function SymbolsOf(text: string): (s: seq<nat>)
    requires InCharset(text)
    ensures Symbols(s)
  {
    ExpandSymbols(Positions(text));
    Expand(Positions(text))
  }

  /** The symbols of a whole group of three characters: their places modulo 32, then their classes in base 3. */
  lemma {:induction false} GroupSymbols(ps: seq<Position>, g: nat)
    requires 3 * g + 3 <= |ps|
    ensures var p, q, r := ps[3 * g], ps[3 * g + 1], ps[3 * g + 2];
            && 4 * g + 4 <= |Expand(ps)|
            && Expand(ps)[4 * g] == p % 32 && Expand(ps)[4 * g + 1] == q % 32 && Expand(ps)[4 * g + 2] == r % 32
            && Expand(ps)[4 * g + 3] == 9 * (p / 32) + 3 * (q / 32) + r / 32
    decreases g
  {
    if g > 0 {
      var rest := ps[3..];
      assert rest[3 * (g - 1)] == ps[3 * g] && rest[3 * (g - 1) + 1] == ps[3 * g + 1] && rest[3 * (g - 1) + 2] == ps[3 * g + 2];
      GroupSymbols(rest, g - 1);
      assert |Group(ps[0], ps[1], ps[2])| == 4;
    }
  }

  /** The symbols of one or two characters left over. */
  lemma {:induction false} RestSymbols(ps: seq<Position>, g: nat)
    requires 3 * g < |ps| < 3 * g + 3
    ensures var tail, n := Expand(ps), |ps| - 3 * g;
            && |tail| == 4 * g + n + 1 && tail[4 * g] == ps[3 * g] % 32
            && (n == 1 ==> tail[4 * g + 1] == ps[3 * g] / 32)
            && (n == 2 ==> tail[4 * g + 1] == ps[3 * g + 1] % 32 && tail[4 * g + 2] == 3 * (ps[3 * g] / 32) + ps[3 * g + 1] / 32)
    decreases g
  {
    if g > 0 {
      var rest := ps[3..];
      assert rest[3 * (g - 1)] == ps[3 * g] && (|ps| == 3 * g + 2 ==> rest[3 * (g - 1) + 1] == ps[3 * g + 1]);
      RestSymbols(rest, g - 1);
      assert |Group(ps[0], ps[1], ps[2])| == 4;
    }
  }

  /** `ps` are the places of the characters of a text in the character list. */
  predicate ArePlaces(ps: seq<Position>, text: string) {
    |ps| == |text| && forall i :: 0 <= i < |text| ==> ps[i] == PositionOf(text[i])
  }

  /** The symbols of a text, from the places of its characters: groups of three, and what is left over. */
  lemma {:induction false} SymbolsFromPlaces(text: string, ps: seq<Position>, g: nat)
    requires InCharset(text) && ArePlaces(ps, text)
    ensures 3 * g + 3 <= |ps| ==>
              && 4 * g + 4 <= |SymbolsOf(text)|
              && SymbolsOf(text)[4 * g] == ps[3 * g] % 32 && SymbolsOf(text)[4 * g + 1] == ps[3 * g + 1] % 32
              && SymbolsOf(text)[4 * g + 2] == ps[3 * g + 2] % 32
              && SymbolsOf(text)[4 * g + 3] == 9 * (ps[3 * g] / 32) + 3 * (ps[3 * g + 1] / 32) + ps[3 * g + 2] / 32
    ensures |ps| == 3 * g + 1 ==>
              && |SymbolsOf(text)| == 4 * g + 2
              && SymbolsOf(text)[4 * g] == ps[3 * g] % 32 && SymbolsOf(text)[4 * g + 1] == ps[3 * g] / 32
    ensures |ps| == 3 * g + 2 ==>
              && |SymbolsOf(text)| == 4 * g + 3
              && SymbolsOf(text)[4 * g] == ps[3 * g] % 32 && SymbolsOf(text)[4 * g + 1] == ps[3 * g + 1] % 32
              && SymbolsOf(text)[4 * g + 2] == 3 * (ps[3 * g] / 32) + ps[3 * g + 1] / 32
    ensures |ps| == 3 * g ==> |SymbolsOf(text)| == 4 * g
  {
    assert SymbolsOf(text) == Expand(ps) by { assert ps == Positions(text); }
    if 3 * g + 3 <= |ps| {
      GroupSymbols(ps, g);
    } else if 3 * g < |ps| {
      RestSymbols(ps, g);
    } else {
      ExpandLength(ps);
    }
  }

  lemma {:induction false} ExpandLength(ps: seq<Position>)
    ensures |Expand(ps)| == 4 * (|ps| / 3) + (if |ps| % 3 == 0 then 0 else |ps| % 3 + 1)
    decreases |ps|
  {
    if |ps| >= 3 {
      ExpandLength(ps[3..]);
    }
  }

  lemma {:induction false} ExpandInjective(ps: seq<Position>, qs: seq<Position>)
    requires Expand(ps) == Expand(qs)
    ensures ps == qs
    decreases |ps|
  {
    ExpandLength(ps);
    ExpandLength(qs);
    assert |ps| == |qs|;
    if |ps| >= 3 {
      var s, t := Group(ps[0], ps[1], ps[2]), Group(qs[0], qs[1], qs[2]);
      assert s == Expand(ps)[..4] && t == Expand(qs)[..4];
      assert Expand(ps[3..]) == Expand(ps)[4..] && Expand(qs[3..]) == Expand(qs)[4..];
      ExpandInjective(ps[3..], qs[3..]);
      assert s[0] == t[0] && s[1] == t[1] && s[2] == t[2] && s[3] == t[3];
      ClassInjective(ps[0], ps[1], ps[2], qs[0], qs[1], qs[2]);
      assert ps == [ps[0], ps[1], ps[2]] + ps[3..];
      assert qs == [qs[0], qs[1], qs[2]] + qs[3..];
    } else if |ps| > 0 {
      PartialInjective(ps, qs);
    }
  }

  lemma {:induction false} PartialInjective(ps: seq<Position>, qs: seq<Position>)
    requires |ps| == |qs| && 0 < |ps| < 3
    requires LowParts(ps) + [Class(ps)] == LowParts(qs) + [Class(qs)]
    ensures ps == qs
  {
    var n := |ps|;
    assert LowParts(ps) == (LowParts(ps) + [Class(ps)])[..n];
    assert LowParts(qs) == (LowParts(qs) + [Class(qs)])[..n];
    assert Class(ps) == (LowParts(ps) + [Class(ps)])[n];
    assert Class(qs) == (LowParts(qs) + [Class(qs)])[n];
    assert LowParts(ps)[0] == LowParts(qs)[0];
    if n == 1 {
      ClassInjective(0, 0, ps[0], 0, 0, qs[0]);
    } else {
      assert LowParts(ps)[1] == LowParts(qs)[1];
      ClassInjective(0, ps[0], ps[1], 0, qs[0], qs[1]);
    }
  }

  lemma {:induction false} ClassInjective(a: Position, b: Position, c: Position, a': Position, b': Position, c': Position)
    requires a % 32 == a' % 32 && b % 32 == b' % 32 && c % 32 == c' % 32
    requires 9 * (a / 32) + 3 * (b / 32) + c / 32 == 9 * (a' / 32) + 3 * (b' / 32) + c' / 32
    ensures a == a' && b == b' && c == c'
  {
    BaseThree(a / 32, b / 32, c / 32, a' / 32, b' / 32, c' / 32);
    SamePosition(a, a');
    SamePosition(b, b');
    SamePosition(c, c');
  }

  lemma {:induction false} BaseThree(a: nat, b: nat, c: nat, a': nat, b': nat, c': nat)
    requires a < 3 && b < 3 && c < 3 && a' < 3 && b' < 3 && c' < 3
    requires 9 * a + 3 * b + c == 9 * a' + 3 * b' + c'
    ensures a == a' && b == b' && c == c'
  {
  }

  lemma {:induction false} SamePosition(p: Position, q: Position)
    requires p % 32 == q % 32 && p / 32 == q / 32
    ensures p == q
  {
  }

  /** Distinct texts have distinct symbol sequences. */
  lemma {:induction false} SymbolsInjective(t: string, u: string)
    requires InCharset(t) && InCharset(u) && SymbolsOf(t) == SymbolsOf(u)
    ensures t == u
  {
    ExpandInjective(Positions(t), Positions(u));
    forall i | 0 <= i < |t| ensures t[i] == u[i] {
      assert Positions(t)[i] == Positions(u)[i];
      PositionInjective(t[i], u[i]);
    }
  }

  lemma {:induction false} ExpandConcat(ps: seq<Position>, qs: seq<Position>)
    requires |ps| % 3 == 0
    ensures Expand(ps + qs) == Expand(ps) + Expand(qs)
    decreases |ps|
  {
    if ps == [] {
      assert ps + qs == qs;
    } else {
      assert (ps + qs)[3..] == ps[3..] + qs;
      ExpandConcat(ps[3..], qs);
    }
  }

  /** The eight checksum symbols of a text. */
  function TextChecks(text: string): (v: seq<nat>)
    requires InCharset(text)
    ensures |v| == 8
  {
    Checks(Polymod(1, SymbolsOf(text)))
  }

  lemma {:induction false} OneFits()
    ensures 1 < Pow2(WIDTH)
  {
    Pow2Small();
  }

  /** Text followed by its checksum symbols leaves residue 1, and no other eight symbols do. */
  lemma {:induction false} TextResidue(text: string, v: seq<nat>)
    requires InCharset(text) && |v| == 8 && Symbols(v)
    ensures Polymod(1, SymbolsOf(text) + v) == 1 <==> v == TextChecks(text)
  {
    OneFits();
    PolymodConcat(1, SymbolsOf(text), v);
    PolymodBound(1, SymbolsOf(text));
    ResidueOne(Polymod(1, SymbolsOf(text)), v);
  }

  /**
    Two texts of one length that differ only inside two neighbouring groups of
    three characters never share a checksum; in particular no single-character
    substitution goes unnoticed.
   */
  lemma {:induction false} SubstitutionDetected(t: string, u: string, lo: nat)
    requires InCharset(t) && InCharset(u) && |t| == |u| && t != u && lo <= |t| && lo % 3 == 0
    requires forall i :: 0 <= i < |t| && !(lo <= i < lo + 6) ==> t[i] == u[i]
    ensures ChecksumText(t) != ChecksumText(u)
  {
    var hi := if lo + 6 <= |t| then lo + 6 else |t|;
    PositionsDiffer(t, u, lo, hi);
    WindowDetected(Positions(t), Positions(u), lo, hi);
    if ChecksumText(t) == ChecksumText(u) {
      SameTextSameRegister(t, u);
    }
  }

  lemma {:induction false} PositionsDiffer(t: string, u: string, lo: nat, hi: nat)
    requires InCharset(t) && InCharset(u) && |t| == |u| && t != u && lo <= hi <= |t|
    requires forall i :: 0 <= i < |t| && !(lo <= i < hi) ==> t[i] == u[i]
    ensures Positions(t) != Positions(u)
    ensures forall i :: 0 <= i < |t| && !(lo <= i < hi) ==> Positions(t)[i] == Positions(u)[i]
  {
    if Positions(t) == Positions(u) {
      forall i | 0 <= i < |t| ensures t[i] == u[i] {
        assert Positions(t)[i] == Positions(u)[i];
        PositionInjective(t[i], u[i]);
      }
    }
  }

  lemma {:induction false} WindowDetected(p: seq<Position>, q: seq<Position>, lo: nat, hi: nat)
    requires |p| == |q| && p != q && lo <= hi <= |p| && lo % 3 == 0
    requires hi == lo + 6 || (hi == |p| && hi < lo + 6)
    requires forall i :: 0 <= i < |p| && !(lo <= i < hi) ==> p[i] == q[i]
    ensures Polymod(1, Expand(p)) != Polymod(1, Expand(q))
  {
    var a, m, m', b := p[..lo], p[lo..hi], q[lo..hi], p[hi..];
    assert a == q[..lo] && b == q[hi..];
    assert p == a + m + b && q == a + m' + b;
    PositionsDetected(a, m, m', b);
  }

  lemma {:induction false} PositionsDetected(a: seq<Position>, m: seq<Position>, m': seq<Position>, b: seq<Position>)
    requires |a| % 3 == 0 && |m| == |m'| <= 6 && m != m' && (b == [] || |m| == 6)
    ensures Polymod(1, Expand(a + m + b)) != Polymod(1, Expand(a + m' + b))
  {
    SplitExpand(a, m, b);
    SplitExpand(a, m', b);
    ExpandLength(m);
    ExpandLength(m');
    if Expand(m) == Expand(m') {
      ExpandInjective(m, m');
    }
    OneFits();
    ExpandSymbols(a);
    ExpandSymbols(m);
    ExpandSymbols(m');
    ExpandSymbols(b);
    BurstDetected(1, Expand(a), Expand(m), Expand(m'), Expand(b));
  }

  lemma {:induction false} RenderInjective(v: seq<nat>, w: seq<nat>)
    requires Symbols(v) && Symbols(w) && Render(v) == Render(w)
    ensures v == w
    decreases |v|
  {
    assert |v| == |Render(v)| == |w|;
    if v != [] {
      var n := |v| - 1;
      assert Render(v)[..n] == Render(v[..n]) && Render(w)[..n] == Render(w[..n]);
      RenderInjective(v[..n], w[..n]);
      assert Render(v)[n] == Bech32(v[n]) && Render(w)[n] == Bech32(w[n]);
      Bech32Injective(v[n], w[n]);
      assert v == v[..n] + [v[n]] && w == w[..n] + [w[n]];
    }
  }

  lemma {:induction false} Bech32Injective(d: Symbol, e: Symbol)
    requires Bech32(d) == Bech32(e)
    ensures d == e
  {
    if d < 16 {
      LowBech32(d, e);
    } else {
      HighBech32(d, e);
    }
  }

  lemma {:induction false} LowBech32(d: Symbol, e: Symbol)
    requires d < 16 && Bech32(d) == Bech32(e)
    ensures d == e
  {
  }

  lemma {:induction false} HighBech32(d: Symbol, e: Symbol)
    requires d >= 16 && Bech32(d) == Bech32(e)
    ensures d == e
  {
  }

  lemma {:induction false} SameTextSameRegister(t: string, u: string)
    requires InCharset(t) && InCharset(u) && ChecksumText(t) == ChecksumText(u)
    ensures Polymod(1, SymbolsOf(t)) == Polymod(1, SymbolsOf(u))
  {
    ChecksAreSymbols(Polymod(1, SymbolsOf(t)));
    ChecksAreSymbols(Polymod(1, SymbolsOf(u)));
    RenderInjective(TextChecks(t), TextChecks(u));
    SameChecksSameRegister(t, u);
  }

  lemma {:induction false} SameChecksSameRegister(t: string, u: string)
    requires InCharset(t) && InCharset(u) && TextChecks(t) == TextChecks(u)
    ensures Polymod(1, SymbolsOf(t)) == Polymod(1, SymbolsOf(u))
  {
    var c, d := Polymod(1, SymbolsOf(t)), Polymod(1, SymbolsOf(u));
    OneFits();
    PolymodBound(1, SymbolsOf(t));
    PolymodBound(1, SymbolsOf(u));
    ChecksAreSymbols(c);
    ResidueOne(c, TextChecks(t));
    ResidueOne(d, TextChecks(t));
    if c != d {
      PolymodInjective(c, d, TextChecks(t));
    }
  }

  lemma {:induction false} SplitExpand(a: seq<Position>, m: seq<Position>, b: seq<Position>)
    requires |a| % 3 == 0 && (b == [] || |m| == 6)
    ensures Expand(a + m + b) == Expand(a) + Expand(m) + Expand(b)
  {
    if b == [] {
      assert a + m + b == a + m;
      assert Expand(b) == [];
      assert Expand(a) + Expand(m) + Expand(b) == Expand(a) + Expand(m);
    } else {
      ConcatKeepsGroups(a, m);
      ExpandConcat(a + m, b);
    }
    ExpandConcat(a, m);
  }

  lemma {:induction false} ConcatKeepsGroups(a: seq<Position>, m: seq<Position>)
    requires |a| % 3 == 0 && |m| == 6
    ensures |a + m| % 3 == 0
  {
  }

  // ----- the program

  /** The register of the program: 41 bits kept before the shift instead of 35. */
  function WideStep(c: nat, v: nat): nat {
    Xor(Xor(Shl(Low(c, 41), BITS), v), Feedback(Shr(c, TAIL), BITS))
  }

  method DescPolymod(c: nat, val: nat) returns (out: nat)
    ensures out == WideStep(c, val)
  {
    var c0 := Shr(c, TAIL);
    out := Xor(Shl(Low(c, 41), BITS), val);
    ghost var start := out;
    XorComm(start, 0);
    for i := 0 to BITS
      invariant out == Xor(start, Feedback(c0, i))
    {
      BitIsShr(c0, i);
      XorAssoc(start, Feedback(c0, i), Mask(i));
      XorComm(Feedback(c0, i), 0);
      if Shr(c0, i) % 2 == 1 {
        out := Xor(out, Mask(i));
      }
    }
  }

  lemma {:induction false} FeedbackLocal(a: nat, n: nat)
    requires n <= BITS
    ensures Feedback(Low(a, BITS), n) == Feedback(a, n)
  {
    if n > 0 {
      FeedbackLocal(a, n - 1);
      BitLow(a, BITS, n - 1);
    }
  }

  lemma {:induction false} BitLow(a: nat, k: nat, i: nat)
    requires i < k
    ensures Bit(Low(a, k), i) == Bit(a, i)
    decreases k
  {
    if i > 0 {
      BitLow(a / 2, k - 1, i - 1);
    }
  }

  /** The wide register stays below 2^46 and agrees with the reference in its low 40 bits. */
  lemma {:induction false} WideStepAgrees(c: nat, v: Symbol)
    ensures WideStep(c, v) < Pow2(46)
    ensures Low(WideStep(c, v), WIDTH) == Step(Low(c, WIDTH), v)
  {
    var kept, f := Shl(Low(c, 41), BITS), Feedback(Shr(c, TAIL), BITS);
    assert v < Pow2(WIDTH) by { Pow2Small(); }
    FeedbackBound(Shr(c, TAIL), BITS);
    assert WideStep(c, v) < Pow2(46) by {
      Pow2Mono(WIDTH, 46);
      LowBound(c, 41);
      ShlBound(Low(c, 41), 41, BITS);
      XorBound(kept, v, 46);
      XorBound(Xor(kept, v), f, 46);
    }
    // low 40 bits, term by term
    LowXor(Xor(kept, v), f, WIDTH);
    LowXor(kept, v, WIDTH);
    LowBound(v, WIDTH);
    LowBound(f, WIDTH);
    assert Low(kept, WIDTH) == Shl(Low(Low(c, WIDTH), TAIL), BITS) by {
      LowShl(Low(c, 41), BITS, WIDTH);
      LowLow(c, TAIL, 41);
      LowLow(c, TAIL, WIDTH);
    }
    assert Feedback(Shr(Low(c, WIDTH), TAIL), BITS) == f by {
      ShrLow(c, TAIL, WIDTH);
      FeedbackLocal(Shr(c, TAIL), BITS);
    }
  }

  datatype ChecksumResult = Checksum(text: string) | OutsideCharset

  function Bech32(d: Symbol): char {
    assert |BECH32| == 32;
    BECH32[d]
  }

  function Render(v: seq<nat>): (s: string)
    requires Symbols(v)
    ensures |s| == |v|
  {
    if v == [] then "" else Render(v[..|v| - 1]) + [Bech32(v[|v| - 1])]
  }

  /** The eight characters behind the `#`. */
  function ChecksumText(text: string): (s: string)
    requires InCharset(text)
    ensures |s| == 8
  {
    ChecksAreSymbols(Polymod(1, SymbolsOf(text)));
    Render(TextChecks(text))
  }

  /** What the loop has fed so far: whole groups expanded, the open group's low parts only. */
  function Fed(whole: seq<Position>, open: seq<Position>): seq<nat>
    requires |open| <= 3
  {
    Expand(whole) + LowParts(open)
  }

  predicate WholeGroups(ps: seq<Position>) {
    |ps| % 3 == 0
  }

  lemma {:induction false} FedNext(whole: seq<Position>, open: seq<Position>, p: Position)
    requires |open| < 3
    ensures Fed(whole, open + [p]) == Fed(whole, open) + [p % 32]
    ensures Class(open + [p]) == 3 * Class(open) + p / 32
  {
    assert LowParts(open + [p]) == LowParts(open) + [p % 32];
  }

  /** The third character closes the group with its class. */
  lemma {:induction false} FedGroup(whole: seq<Position>, three: seq<Position>)
    requires WholeGroups(whole) && |three| == 3
    ensures WholeGroups(whole + three)
    ensures Fed(whole + three, []) == Fed(whole, three) + [Class(three)]
  {
    assert three[3..] == [];
    assert Expand(three) == Group(three[0], three[1], three[2]) + [];
    assert Group(three[0], three[1], three[2]) == LowParts(three) + [Class(three)];
    ExpandConcat(whole, three);
  }

  /** The trailing class of an unfinished group completes the expansion. */
  lemma {:induction false} FedAll(whole: seq<Position>, open: seq<Position>)
    requires WholeGroups(whole) && |open| < 3
    ensures Expand(whole + open) == if open == [] then Fed(whole, open) else Fed(whole, open) + [Class(open)]
  {
    ExpandConcat(whole, open);
  }

  /**
    The eight characters are the bech32 rendering of the one symbol sequence that
    completes the text to residue 1; text outside the charset is refused.
   */
  method DescriptorChecksum(descriptor: string) returns (r: ChecksumResult)
    ensures r.OutsideCharset? <==> !InCharset(descriptor)
    ensures r.Checksum? ==>
              && r.text == ChecksumText(descriptor)
              && Polymod(1, SymbolsOf(descriptor) + TextChecks(descriptor)) == 1
  {
    var ok, c := AbsorbText(descriptor);
    if !ok {
      return OutsideCharset;
    }
    ghost var reg := Polymod(1, SymbolsOf(descriptor));
    c := Flush(c, reg);
    var out := EmitDigits(c, reg);
    r := Checksum(out);
    TextResidue(descriptor, TextChecks(descriptor));
  }

  /** Positions in whole groups of three. */
  function Whole(ps: seq<Position>): (whole: seq<Position>)
    ensures WholeGroups(whole)
  {
    ps[..|ps| - |ps| % 3]
  }

  /** Positions of the group still open. */
  function Open(ps: seq<Position>): (open: seq<Position>)
    ensures |open| == |ps| % 3 < 3
    ensures Whole(ps) + open == ps
  {
    ps[|ps| - |ps| % 3..]
  }

  /** The third position closes its group; another stays open. */
  lemma {:induction false} NextPosition(ps: seq<Position>, p: Position)
    ensures var open, next := Open(ps) + [p], ps + [p];
            if |open| == 3 then Whole(next) == Whole(ps) + open && Open(next) == []
            else Whole(next) == Whole(ps) && Open(next) == open
  {
    var n, next := |ps| - |ps| % 3, ps + [p];
    if |ps| % 3 == 2 {
      assert |next| % 3 == 0;
      assert next == ps[..n] + (ps[n..] + [p]);
    } else {
      assert |next| % 3 == |ps| % 3 + 1;
      assert next[..n] == ps[..n] && next[n..] == ps[n..] + [p];
    }
  }

  /** Register, class and count after a text. */
  ghost predicate Absorbed(text: string, c: nat, cls: nat, clscount: nat) {
    && InCharset(text)
    && var ps := Positions(text);
       && clscount == |Open(ps)|
       && cls == Class(Open(ps))
       && Low(c, WIDTH) == Polymod(1, Fed(Whole(ps), Open(ps)))
  }

  /** The register after the text and its trailing class, or a refusal. */
  method AbsorbText(descriptor: string) returns (ok: bool, c: nat)
    ensures ok <==> InCharset(descriptor)
    ensures ok ==> Low(c, WIDTH) == Polymod(1, SymbolsOf(descriptor))
  {
    c := 1;
    ok := true;
    var cls: nat := 0;
    var clscount: nat := 0;
    ghost var read := "";
    Start();
    for i := 0 to |descriptor|
      invariant read == descriptor[..i] && Absorbed(read, c, cls, clscount)
    {
      var pos := PositionOf(descriptor[i]);
      if pos == -1 {
        Outside(descriptor, i);
        return false, c;
      }
      c, cls, clscount := AbsorbChar(read, descriptor[i], pos, c, cls, clscount);
      PrefixNext(descriptor, i);
      read := read + [descriptor[i]];
    }
    assert read == descriptor;
    c := AbsorbClass(read, c, cls, clscount);
  }

  lemma {:induction false} Outside(text: string, i: nat)
    requires i < |text| && PositionOf(text[i]) == -1
    ensures !InCharset(text)
  {
  }

  lemma {:induction false} PrefixNext(text: string, i: nat)
    requires i < |text|
    ensures text[..i + 1] == text[..i] + [text[i]]
  {
  }

  /** The body of the loop. */
  method AbsorbChar(ghost text: string, ghost ch: char, pos: Position, start: nat, cls: nat, clscount: nat)
      returns (c: nat, cls': nat, clscount': nat)
    requires Absorbed(text, start, cls, clscount) && PositionOf(ch) == pos
    ensures Absorbed(text + [ch], c, cls', clscount')
  {
    ghost var ps := Positions(text);
    PositionsNext(text, ch);
    NextPosition(ps, pos);
    c, cls' := FeedLow(start, cls, pos, Whole(ps), Open(ps));
    clscount' := clscount + 1;
    if clscount' == 3 {
      c := FeedClass(c, cls', Whole(ps), Open(ps) + [pos]);
      cls' := 0;
      clscount' := 0;
    }
  }

  /** The trailing class of an unfinished group. */
  method AbsorbClass(ghost text: string, start: nat, cls: nat, clscount: nat) returns (c: nat)
    requires Absorbed(text, start, cls, clscount)
    ensures InCharset(text) && Low(c, WIDTH) == Polymod(1, SymbolsOf(text))
  {
    ghost var ps := Positions(text);
    c := start;
    FedAll(Whole(ps), Open(ps));
    if clscount > 0 {
      c := Feed(c, cls, Fed(Whole(ps), Open(ps)));
    }
  }

  /** One character: its low part is fed, its high part joins the class. */
  method FeedLow(c: nat, cls: nat, pos: Position, ghost whole: seq<Position>, ghost open: seq<Position>)
      returns (out: nat, next: nat)
    requires |open| < 3 && cls == Class(open) && Low(c, WIDTH) == Polymod(1, Fed(whole, open))
    ensures Low(out, WIDTH) == Polymod(1, Fed(whole, open + [pos])) && next == Class(open + [pos])
  {
    FedNext(whole, open, pos);
    out := Feed(c, pos % 32, Fed(whole, open));
    next := cls * 3 + pos / 32;
  }

  /** The third character: the class is fed and the group is done. */
  method FeedClass(c: nat, cls: nat, ghost whole: seq<Position>, ghost three: seq<Position>) returns (out: nat)
    requires WholeGroups(whole) && |three| == 3 && cls == Class(three) && Low(c, WIDTH) == Polymod(1, Fed(whole, three))
    ensures WholeGroups(whole + three) && Low(out, WIDTH) == Polymod(1, Fed(whole + three, []))
  {
    FedGroup(whole, three);
    out := Feed(c, cls, Fed(whole, three));
  }

  lemma {:induction false} Start()
    ensures Absorbed("", 1, 0, 0)
  {
    OneFits();
    LowBound(1, WIDTH);
    assert Fed([], []) == [];
    assert Positions("") == [];
  }

  lemma {:induction false} PositionsNext(text: string, ch: char)
    requires InCharset(text) && Allowed(ch)
    ensures InCharset(text + [ch])
    ensures Positions(text + [ch]) == Positions(text) + [PositionOf(ch)]
  {
  }

  /** Eight zero symbols, then `c ^= 1`. */
  method Flush(start: nat, ghost reg: nat) returns (c: nat)
    requires Low(start, WIDTH) == reg
    ensures Low(c, WIDTH) == Xor(Polymod(reg, Zeros(8)), 1)
  {
    c := start;
    for i := 0 to 8
      invariant Low(c, WIDTH) == Polymod(reg, Zeros(i))
    {
      WideStepAgrees(c, 0);
      assert Zeros(i + 1) == Zeros(i) + [0];
      PolymodConcat(reg, Zeros(i), [0]);
      assert [0][1..] == [];
      c := DescPolymod(c, 0);
    }
    LowXor(c, 1, WIDTH);
    OneFits();
    LowBound(1, WIDTH);
    c := Xor(c, 1);
  }

  method EmitDigits(c: nat, ghost reg: nat) returns (out: string)
    requires Low(c, WIDTH) == Xor(Polymod(reg, Zeros(8)), 1)
    ensures Symbols(Checks(reg)) && out == Render(Checks(reg))
  {
    ChecksAreSymbols(reg);
    out := "";
    for j := 0 to 8
      invariant out == Render(Checks(reg)[..j])
    {
      WideDigit(c, j);
      var d := Low(Shr(c, BITS * (7 - j)), BITS);
      out := out + [Bech32(d)];
      assert Checks(reg)[..j + 1][..j] == Checks(reg)[..j];
    }
    assert Checks(reg)[..8] == Checks(reg);
  }

  lemma {:induction false} WideDigit(c: nat, j: nat)
    requires j < 8
    ensures Digits(Low(c, WIDTH), 8)[j] == Low(Shr(c, BITS * (7 - j)), BITS) < 32
  {
    DigitAt(Low(c, WIDTH), 8, j);
    ShrLow(c, BITS * (7 - j), WIDTH);
    LowLow(Shr(c, BITS * (7 - j)), BITS, WIDTH - BITS * (7 - j));
  }

  /** `c = descPolymod(c, val)` on a register that has consumed `fed`. */
  method Feed(c: nat, val: nat, ghost fed: seq<nat>) returns (out: nat)
    requires val < 32 && Low(c, WIDTH) == Polymod(1, fed)
    ensures Low(out, WIDTH) == Polymod(1, fed + [val])
    ensures out < Pow2(46)
  {
    WideStepAgrees(c, val);
    PolymodConcat(1, fed, [val]);
    assert [val][1..] == [];
    out := DescPolymod(c, val);
  }
}
