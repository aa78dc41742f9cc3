/**
  Polynomials over GF(2), coded as natural numbers (bit i is the coefficient of
  x^i), their product, and the quotient ring modulo x^128 + x^7 + x^2 + x + 1.

  Nothing here mentions the multiplication routine of the program: this is the
  theory it is measured against.
 */
module Polynomials {
  import opened Bits

  /** The polynomial product, by Horner's rule on the second factor. */
  function Product(a: nat, b: nat): nat
    decreases b
  {
    if b == 0 then 0
    else Xor(if b % 2 == 1 then a else 0, 2 * Product(a, b / 2))
  }

  /** sum over j in [0, n) of a_{k-j} * b_j, over GF(2). */
  predicate Convolution(a: nat, b: nat, k: nat, n: nat)
    requires n <= k + 1
    decreases n
  {
    n > 0 && (Convolution(a, b, k, n - 1) != (Bit(a, k - (n - 1)) && Bit(b, n - 1)))
  }

  lemma {:induction false} ProductStep(a: nat, b: nat)
    ensures Product(a, b) == Xor(if b % 2 == 1 then a else 0, 2 * Product(a, b / 2))
  {
    if b == 0 {
      assert Xor(0, 0) == 0;
    }
  }

  lemma {:induction false} ConvolutionShift(a: nat, b: nat, k: nat, n: nat)
    requires 1 <= n <= k + 1
    ensures Convolution(a, b, k, n) ==
            ((Bit(a, k) && b % 2 == 1) != (k > 0 && Convolution(a, b / 2, k - 1, n - 1)))
    decreases n
  {
    if n > 1 {
      ConvolutionShift(a, b, k, n - 1);
      assert Bit(b, n - 1) == Bit(b / 2, n - 2);
    }
  }

  /**
    `Product` is the product of polynomials: its coefficient at x^k is the
    convolution of the coefficients of its factors.
   */
  lemma {:induction false} ProductIsConvolution(a: nat, b: nat, k: nat)
    ensures Bit(Product(a, b), k) == Convolution(a, b, k, k + 1)
    decreases b, k
  {
    ProductStep(a, b);
    var lead := if b % 2 == 1 then a else 0;
    BitXor(lead, 2 * Product(a, b / 2), k);
    BitZero(k);
    ConvolutionShift(a, b, k, k + 1);
    if k > 0 {
      assert Bit(2 * Product(a, b / 2), k) == Bit(Product(a, b / 2), k - 1);
      if b == 0 {
        BitZero(k - 1);
        ProductIsConvolution(a, 0, k - 1);
      } else {
        ProductIsConvolution(a, b / 2, k - 1);
      }
    }
  }

  // ----- ring laws of the product

  lemma {:induction false} ProductZero(b: nat)
    ensures Product(0, b) == 0
  {
    if b > 0 {
      ProductZero(b / 2);
    }
  }

  lemma {:induction false} ProductOne(a: nat)
    ensures Product(a, 1) == a
  {
    ProductStep(a, 1);
  }

  lemma {:induction false} DistributeRight(a: nat, b: nat, c: nat)
    ensures Product(a, Xor(b, c)) == Xor(Product(a, b), Product(a, c))
    decreases b + c
  {
    if b > 0 && c > 0 {
      var p, q := if b % 2 == 1 then a else 0, if c % 2 == 1 then a else 0;
      DistributeRight(a, b / 2, c / 2);
      XorStep(b, c);
      ProductStep(a, Xor(b, c));
      ProductStep(a, b);
      ProductStep(a, c);
      XorSelf(a);
      XorDouble(Product(a, b / 2), Product(a, c / 2));
      XorSwapMiddle(p, 2 * Product(a, b / 2), q, 2 * Product(a, c / 2));
    }
  }

  lemma {:induction false} DistributeLeft(a: nat, b: nat, c: nat)
    ensures Product(Xor(a, b), c) == Xor(Product(a, c), Product(b, c))
    decreases c
  {
    if c > 0 {
      DistributeLeft(a, b, c / 2);
      var p, q := if c % 2 == 1 then a else 0, if c % 2 == 1 then b else 0;
      XorDouble(Product(a, c / 2), Product(b, c / 2));
      XorSwapMiddle(p, 2 * Product(a, c / 2), q, 2 * Product(b, c / 2));
    } else {
      assert Xor(0, 0) == 0;
    }
  }

  lemma {:induction false} ProductDoubleLeft(a: nat, b: nat)
    ensures Product(2 * a, b) == 2 * Product(a, b)
    decreases b
  {
    if b > 0 {
      ProductDoubleLeft(a, b / 2);
      XorDouble(if b % 2 == 1 then a else 0, 2 * Product(a, b / 2));
    }
  }

  lemma {:induction false} ProductDoubleRight(a: nat, b: nat)
    ensures Product(a, 2 * b) == 2 * Product(a, b)
  {
    ProductStep(a, 2 * b);
  }

  lemma {:induction false} ProductComm(a: nat, b: nat)
    ensures Product(a, b) == Product(b, a)
    decreases b
  {
    if b == 0 {
      ProductZero(a);
    } else {
      // b = x * (b / 2) + b_0
      var low := b % 2;
      DisjointAdd(b / 2, low, 1);
      assert Shl(b / 2, 1) == 2 * (b / 2);
      assert b == Xor(2 * (b / 2), low);
      DistributeLeft(2 * (b / 2), low, a);
      ProductDoubleLeft(b / 2, a);
      ProductComm(a, b / 2);
      ProductConstantLeft(low, a);
      XorComm(2 * Product(a, b / 2), if low == 1 then a else 0);
    }
  }

  lemma {:induction false} ProductConstantLeft(c: nat, a: nat)
    requires c < 2
    ensures Product(c, a) == if c == 1 then a else 0
    decreases a
  {
    if a > 0 {
      ProductConstantLeft(c, a / 2);
      if c == 1 {
        DisjointAdd(a / 2, a % 2, 1);
        assert Shl(a / 2, 1) == 2 * (a / 2);
        XorComm(2 * (a / 2), a % 2);
      }
    }
  }

  lemma {:induction false} ProductAssoc(a: nat, b: nat, c: nat)
    ensures Product(Product(a, b), c) == Product(a, Product(b, c))
    decreases c
  {
    if c > 0 {
      ProductAssoc(a, b, c / 2);
      DistributeRight(a, if c % 2 == 1 then b else 0, 2 * Product(b, c / 2));
      ProductDoubleRight(a, Product(b, c / 2));
    }
  }

  lemma {:induction false} ProductPow2(a: nat, k: nat)
    ensures Product(a, Pow2(k)) == Shl(a, k)
    ensures Product(Pow2(k), a) == Shl(a, k)
    decreases k
  {
    if k == 0 {
      ProductOne(a);
    } else {
      ProductPow2(a, k - 1);
      ProductDoubleRight(a, Pow2(k - 1));
    }
    ProductComm(a, Pow2(k));
  }

  /** Degrees add: the ring has no zero divisors. */
  lemma {:induction false} ProductDegree(a: nat, n: nat, b: nat, m: nat)
    requires Pow2(n) <= a < Pow2(n + 1) && Pow2(m) <= b < Pow2(m + 1)
    ensures Pow2(n + m) <= Product(a, b) < Pow2(n + m + 1)
    decreases m
  {
    assert Pow2(m + 1) == 2 * Pow2(m);
    if m == 0 {
      ProductOne(a);
    } else {
      assert Pow2(m) == 2 * Pow2(m - 1);
      ProductDegree(a, n, b / 2, m - 1);
      assert Pow2(n + m) == 2 * Pow2(n + m - 1) && Pow2(n + m + 1) == 2 * Pow2(n + m);
      Pow2Mono(n + 1, n + m);
      var lead := if b % 2 == 1 then a else 0;
      XorComm(lead, 2 * Product(a, b / 2));
      XorKeepsDegree(2 * Product(a, b / 2), lead, n + m);
    }
  }

  lemma {:induction false} ProductBound(a: nat, n: nat, b: nat, m: nat)
    requires a < Pow2(n + 1) && b < Pow2(m)
    ensures Product(a, b) < Pow2(n + m)
    decreases m
  {
    if m > 0 && b > 0 {
      assert Pow2(m) == 2 * Pow2(m - 1) && Pow2(n + m) == 2 * Pow2(n + m - 1);
      ProductBound(a, n, b / 2, m - 1);
      Pow2Mono(n + 1, n + m);
      XorBound(if b % 2 == 1 then a else 0, 2 * Product(a, b / 2), n + m);
    }
  }

  // ----- the quotient ring

  const DEGREE: nat := 128

  /** x^128 + x^7 + x^2 + x + 1 */
  const MODULUS: nat := Pow2(DEGREE) + 0x87

  const ORDER: nat := Pow2(DEGREE)

  ghost predicate MultipleOfModulus(x: nat) {
    exists q: nat :: x == Product(q, MODULUS)
  }

  /** Congruence modulo the field polynomial. */
  ghost predicate Congruent(x: nat, y: nat) {
    MultipleOfModulus(Xor(x, y))
  }

  lemma {:induction false} Pow2Values()
    ensures Pow2(8) == 256
  {
    assert Pow2(4) == 16;
    assert Pow2(5) == 32;
    assert Pow2(6) == 64;
    assert Pow2(7) == 128;
  }

  lemma {:induction false} ModulusDegree()
    ensures Pow2(DEGREE) <= MODULUS < Pow2(DEGREE + 1)
    ensures MODULUS == Xor(Pow2(DEGREE), 0x87)
  {
    Pow2Values();
    Pow2Mono(8, DEGREE);
    ShlOne(DEGREE);
    LtTrans(0x87, Pow2(8), Pow2(DEGREE));
    DisjointAdd(1, 0x87, DEGREE);
    assert Pow2(DEGREE + 1) == 2 * Pow2(DEGREE);
  }

  /** The field polynomial is x^128 + x^7 + x^2 + x + 1, coefficient by coefficient. */
  lemma {:induction false} ModulusCoefficients(k: nat)
    ensures Bit(MODULUS, k) <==> k == 0 || k == 1 || k == 2 || k == 7 || k == 128
  {
    ModulusDegree();
    BitXor(Pow2(DEGREE), 0x87, k);
    PowerBit(DEGREE, k);
    LowBits(k);
  }

  lemma {:induction false} PowerBit(n: nat, k: nat)
    ensures Bit(Pow2(n), k) <==> k == n
    decreases k
  {
    if n > 0 && k > 0 {
      PowerBit(n - 1, k - 1);
    } else if n == 0 && k > 0 {
      BitZero(k - 1);
    }
  }

  lemma {:induction false} LowBits(k: nat)
    ensures Bit(0x87, k) <==> k == 0 || k == 1 || k == 2 || k == 7
  {
    if k >= 8 {
      Pow2Values();
      BitBeyond(0x87, 8, k);
    } else {
      assert Bit(0x87, 0) && Bit(0x87, 1) && Bit(0x87, 2) && !Bit(0x87, 3);
      assert !Bit(0x87, 4) && !Bit(0x87, 5) && !Bit(0x87, 6) && Bit(0x87, 7);
    }
  }

  lemma {:induction false} LtTrans(a: nat, b: nat, c: nat)
    requires a < b <= c
    ensures a < c
  {
  }

  lemma {:induction false} ShlOne(k: nat)
    ensures Shl(1, k) == Pow2(k)
  {
    if k > 0 {
      ShlOne(k - 1);
    }
  }

  lemma {:induction false} HasDegree(a: nat) returns (n: nat)
    requires a > 0
    ensures Pow2(n) <= a < Pow2(n + 1)
  {
    if a == 1 {
      n := 0;
    } else {
      n := HasDegree(a / 2);
      assert Pow2(n + 2) == 2 * Pow2(n + 1) && Pow2(n + 1) == 2 * Pow2(n);
      n := n + 1;
    }
  }

  /** A residue below 2^128 is the only one of its class. */
  lemma {:induction false} ResidueUnique(r: nat, s: nat)
    requires r < ORDER && s < ORDER && Congruent(r, s)
    ensures r == s
  {
    var q: nat :| Xor(r, s) == Product(q, MODULUS);
    XorBound(r, s, DEGREE);
    if q > 0 {
      var n := HasDegree(q);
      ModulusDegree();
      ProductDegree(q, n, MODULUS, DEGREE);
      Pow2Mono(DEGREE, n + DEGREE);
      assert false;
    }
    ProductZero(MODULUS);
    XorZero(r, s);
  }

  lemma {:induction false} CongruentRefl(x: nat)
    ensures Congruent(x, x)
  {
    XorSelf(x);
    ProductZero(MODULUS);
    assert Xor(x, x) == Product(0, MODULUS);
  }

  lemma {:induction false} CongruentSym(x: nat, y: nat)
    requires Congruent(x, y)
    ensures Congruent(y, x)
  {
    XorComm(x, y);
  }

  lemma {:induction false} CongruentTrans(x: nat, y: nat, z: nat)
    requires Congruent(x, y) && Congruent(y, z)
    ensures Congruent(x, z)
  {
    var p: nat :| Xor(x, y) == Product(p, MODULUS);
    var q: nat :| Xor(y, z) == Product(q, MODULUS);
    XorAssoc(x, y, Xor(y, z));
    XorCancel(y, z);
    DistributeLeft(p, q, MODULUS);
    assert Xor(x, z) == Product(Xor(p, q), MODULUS);
  }

  lemma {:induction false} CongruentXor(x: nat, x': nat, y: nat, y': nat)
    requires Congruent(x, x') && Congruent(y, y')
    ensures Congruent(Xor(x, y), Xor(x', y'))
  {
    var p: nat :| Xor(x, x') == Product(p, MODULUS);
    var q: nat :| Xor(y, y') == Product(q, MODULUS);
    XorSwapMiddle(x, y, x', y');
    DistributeLeft(p, q, MODULUS);
    assert Xor(Xor(x, y), Xor(x', y')) == Product(Xor(p, q), MODULUS);
  }

  lemma {:induction false} CongruentProduct(x: nat, x': nat, y: nat)
    requires Congruent(x, x')
    ensures Congruent(Product(x, y), Product(x', y))
    ensures Congruent(Product(y, x), Product(y, x'))
  {
    var p: nat :| Xor(x, x') == Product(p, MODULUS);
    DistributeLeft(x, x', y);
    ProductComm(Product(p, MODULUS), y);
    ProductAssoc(y, p, MODULUS);
    assert Xor(Product(x, y), Product(x', y)) == Product(Product(y, p), MODULUS);
    ProductComm(x, y);
    ProductComm(x', y);
  }

  /** Adding a multiple of the modulus stays in the class. */
  lemma {:induction false} CongruentShift(x: nat, q: nat)
    ensures Congruent(Xor(x, Product(q, MODULUS)), x)
  {
    XorComm(x, Product(q, MODULUS));
    XorCancel(x, Product(q, MODULUS));
    assert Xor(Xor(x, Product(q, MODULUS)), x) == Product(q, MODULUS);
  }

  /** Congruence is kept by x -> X * x + bit. */
  lemma {:induction false} CongruentNextBit(s: nat, x: nat)
    requires Congruent(s, x / 2)
    ensures Congruent(2 * s + x % 2, x)
  {
    CongruentDouble(s, x / 2);
    AppendBit(s, x % 2);
    AppendBit(x / 2, x % 2);
    CongruentRefl(x % 2);
    CongruentXor(2 * s, 2 * (x / 2), x % 2, x % 2);
  }

  lemma {:induction false} CongruentDouble(s: nat, t: nat)
    requires Congruent(s, t)
    ensures Congruent(2 * s, 2 * t)
  {
    CongruentProduct(s, t, 2);
    ProductDoubleRight(s, 1);
    ProductDoubleRight(t, 1);
    ProductOne(s);
    ProductOne(t);
  }

  lemma {:induction false} AppendBit(s: nat, bit: nat)
    requires bit < 2
    ensures Xor(2 * s, bit) == 2 * s + bit
  {
    assert Shl(s, 1) == 2 * s;
    DisjointAdd(s, bit, 1);
  }

  /** One subtraction of the modulus brings degree 128 below 128. */
  lemma {:induction false} ReduceOnce(t: nat) returns (r: nat)
    requires t < Pow2(DEGREE + 1)
    ensures r < ORDER && Congruent(r, t)
  {
    if t < ORDER {
      CongruentRefl(t);
      r := t;
    } else {
      ModulusDegree();
      XorCancelsDegree(t, MODULUS, DEGREE);
      ProductConstantLeft(1, MODULUS);
      CongruentShift(t, 1);
      r := Xor(t, MODULUS);
    }
  }

  lemma {:induction false} ResidueExists(x: nat) returns (r: nat)
    ensures r < ORDER && Congruent(r, x)
  {
    if x == 0 {
      CongruentRefl(x);
      r := x;
    } else {
      var s := ResidueExists(x / 2);
      CongruentNextBit(s, x);
      r := ReduceOnce(2 * s + x % 2);
      CongruentTrans(r, 2 * s + x % 2, x);
    }
  }

  lemma {:induction false} HasResidue(x: nat)
    ensures exists r: nat :: r < ORDER && Congruent(r, x)
  {
    var r := ResidueExists(x);
  }

  /** The residue of x modulo the field polynomial. */
  ghost function Residue(x: nat): (r: nat)
    ensures r < ORDER && Congruent(r, x)
  {
    HasResidue(x);
    var r: nat :| r < ORDER && Congruent(r, x);
    r
  }

  /** Residues are equal exactly when their arguments are congruent. */
  lemma {:induction false} ResidueEqual(x: nat, y: nat)
    ensures Residue(x) == Residue(y) <==> Congruent(x, y)
  {
    var r, s := Residue(x), Residue(y);
    if Congruent(x, y) {
      CongruentTrans(r, x, y);
      CongruentSym(s, y);
      CongruentTrans(r, y, s);
      ResidueUnique(r, s);
    }
    if r == s {
      CongruentSym(r, x);
      CongruentTrans(x, r, y);
    }
  }

  /** Multiplication in GF(2)[x] modulo the field polynomial. */
  ghost function Times(a: nat, b: nat): nat {
    Residue(Product(a, b))
  }

  /** Whatever lies below 2^128 and is congruent to the product is the product. */
  lemma {:induction false} TimesUnique(a: nat, b: nat, r: nat)
    requires r < ORDER && Congruent(r, Product(a, b))
    ensures r == Times(a, b)
  {
    CongruentSym(Times(a, b), Product(a, b));
    CongruentTrans(r, Product(a, b), Times(a, b));
    ResidueUnique(r, Times(a, b));
  }

  lemma {:induction false} TimesComm(a: nat, b: nat)
    ensures Times(a, b) == Times(b, a)
  {
    ProductComm(a, b);
  }

  lemma {:induction false} TimesAssoc(a: nat, b: nat, c: nat)
    ensures Times(Times(a, b), c) == Times(a, Times(b, c))
  {
    CongruentProduct(Times(a, b), Product(a, b), c);
    CongruentProduct(Times(b, c), Product(b, c), a);
    ProductAssoc(a, b, c);
    ResidueEqual(Product(Times(a, b), c), Product(Product(a, b), c));
    ResidueEqual(Product(a, Times(b, c)), Product(a, Product(b, c)));
  }

  lemma {:induction false} TimesDistributes(a: nat, b: nat, c: nat)
    ensures Times(a, Xor(b, c)) == Xor(Times(a, b), Times(a, c))
  {
    DistributeRight(a, b, c);
    XorBound(Times(a, b), Times(a, c), DEGREE);
    CongruentXor(Times(a, b), Product(a, b), Times(a, c), Product(a, c));
    TimesUnique(a, Xor(b, c), Xor(Times(a, b), Times(a, c)));
  }

  lemma {:induction false} TimesOne(a: nat)
    requires a < ORDER
    ensures Times(a, 1) == a && Times(1, a) == a
  {
    ProductOne(a);
    CongruentRefl(a);
    TimesUnique(a, 1, a);
    TimesComm(a, 1);
  }
}
