/**
  Unbounded non-negative integers read as bit strings: the operations that
  JavaScript's `bigint` offers as `^`, `|`, `<<`, `>>` and `& (2**n - 1)`,
  defined one bit at a time, with the laws that the polynomial arithmetic and
  the descriptor checksum share.
 */
module Bits {

  function Xor(a: nat, b: nat): nat
    decreases a + b
  {
    if a == 0 then b
    else if b == 0 then a
    else (if a % 2 == b % 2 then 0 else 1) + 2 * Xor(a / 2, b / 2)
  }

  function Or(a: nat, b: nat): nat
    decreases a + b
  {
    if a == 0 then b
    else if b == 0 then a
    else (if a % 2 == 1 || b % 2 == 1 then 1 else 0) + 2 * Or(a / 2, b / 2)
  }

  function Shl(a: nat, k: nat): nat
    decreases a, k
  {
    if k == 0 then a else 2 * Shl(a, k - 1)
  }

  function Shr(a: nat, k: nat): nat
    decreases a, k
  {
    if k == 0 then a else Shr(a / 2, k - 1)
  }

  /** The low `k` bits of `a`, that is `a & (2**k - 1)`. */
  function Low(a: nat, k: nat): nat
    decreases a, k
  {
    if k == 0 then 0 else a % 2 + 2 * Low(a / 2, k - 1)
  }

  function Pow2(k: nat): (p: nat)
    ensures p >= 1
  {
    if k == 0 then 1 else 2 * Pow2(k - 1)
  }

  /** Coefficient of x^i when `a` is read as a polynomial over GF(2). */
  predicate Bit(a: nat, i: nat)
    decreases i
  {
    if i == 0 then a % 2 == 1 else Bit(a / 2, i - 1)
  }

  // ----- one-bit unfolding

  lemma {:induction false} XorStep(a: nat, b: nat)
    ensures Xor(a, b) % 2 == (if a % 2 == b % 2 then 0 else 1)
    ensures Xor(a, b) / 2 == Xor(a / 2, b / 2)
  {
    if a == 0 {
      assert Xor(0, b) == b && Xor(0, b / 2) == b / 2;
    } else if b == 0 {
      assert Xor(a, 0) == a && Xor(a / 2, 0) == a / 2;
    } else {
      var bit, rest := if a % 2 == b % 2 then 0 else 1, Xor(a / 2, b / 2);
      assert Xor(a, b) == bit + 2 * rest;
      assert (bit + 2 * rest) % 2 == bit && (bit + 2 * rest) / 2 == rest;
    }
  }

  lemma {:induction false} XorDouble(a: nat, b: nat)
    ensures Xor(2 * a, 2 * b) == 2 * Xor(a, b)
  {
    XorStep(2 * a, 2 * b);
  }

  // ----- the group laws of Xor

  lemma {:induction false} XorSelf(a: nat)
    ensures Xor(a, a) == 0
  {
    if a > 0 {
      XorSelf(a / 2);
    }
  }

  lemma {:induction false} XorComm(a: nat, b: nat)
    ensures Xor(a, b) == Xor(b, a)
    decreases a + b
  {
    if a > 0 && b > 0 {
      XorComm(a / 2, b / 2);
    }
  }

  lemma {:induction false} XorAssoc(a: nat, b: nat, c: nat)
    ensures Xor(Xor(a, b), c) == Xor(a, Xor(b, c))
    decreases a + b + c
  {
    if a > 0 && b > 0 && c > 0 {
      XorAssoc(a / 2, b / 2, c / 2);
      XorStep(a, b);
      XorStep(b, c);
      XorStep(Xor(a, b), c);
      XorStep(a, Xor(b, c));
    }
  }

  lemma {:induction false} XorCancel(a: nat, b: nat)
    ensures Xor(a, Xor(a, b)) == b
    ensures Xor(Xor(b, a), a) == b
  {
    XorAssoc(a, a, b);
    XorAssoc(b, a, a);
    XorSelf(a);
  }

  /** (a + b) + (c + d) == (a + c) + (b + d) in characteristic two. */
  lemma {:induction false} XorSwapMiddle(a: nat, b: nat, c: nat, d: nat)
    ensures Xor(Xor(a, b), Xor(c, d)) == Xor(Xor(a, c), Xor(b, d))
  {
    XorAssoc(a, b, Xor(c, d));
    XorAssoc(b, c, d);
    XorComm(b, c);
    XorAssoc(c, b, d);
    XorAssoc(a, c, Xor(b, d));
  }

  lemma {:induction false} XorZero(a: nat, b: nat)
    ensures Xor(a, b) == 0 <==> a == b
  {
    XorSelf(a);
    if Xor(a, b) == 0 {
      XorCancel(a, b);
    }
  }

  // ----- size

  lemma {:induction false} XorBound(a: nat, b: nat, n: nat)
    requires a < Pow2(n) && b < Pow2(n)
    ensures Xor(a, b) < Pow2(n)
    decreases n
  {
    if a > 0 && b > 0 {
      XorBound(a / 2, b / 2, n - 1);
    }
  }

  /** Adding a polynomial of lower degree keeps the leading term. */
  lemma {:induction false} XorKeepsDegree(a: nat, b: nat, n: nat)
    requires Pow2(n) <= a < Pow2(n + 1) && b < Pow2(n)
    ensures Pow2(n) <= Xor(a, b) < Pow2(n + 1)
    decreases n
  {
    if n > 0 && b > 0 {
      assert Pow2(n) == 2 * Pow2(n - 1) && Pow2(n + 1) == 2 * Pow2(n);
      XorKeepsDegree(a / 2, b / 2, n - 1);
      XorStep(a, b);
    }
  }

  /** Adding two polynomials of the same degree cancels the leading term. */
  lemma {:induction false} XorCancelsDegree(a: nat, b: nat, n: nat)
    requires Pow2(n) <= a < Pow2(n + 1) && Pow2(n) <= b < Pow2(n + 1)
    ensures Xor(a, b) < Pow2(n)
    decreases n
  {
    assert Pow2(n + 1) == 2 * Pow2(n);
    if n == 0 {
      assert a == 1 && b == 1;
      XorSelf(1);
    } else {
      assert Pow2(n) == 2 * Pow2(n - 1);
      XorCancelsDegree(a / 2, b / 2, n - 1);
      XorStep(a, b);
    }
  }

  lemma {:induction false} Pow2Mono(m: nat, n: nat)
    requires m <= n
    ensures Pow2(m) <= Pow2(n)
    decreases n
  {
    if m < n {
      Pow2Mono(m, n - 1);
    }
  }

  // ----- bits

  lemma {:induction false} BitXor(a: nat, b: nat, i: nat)
    ensures Bit(Xor(a, b), i) == (Bit(a, i) != Bit(b, i))
    decreases i
  {
    XorStep(a, b);
    if i > 0 {
      BitXor(a / 2, b / 2, i - 1);
    }
  }

  lemma {:induction false} BitZero(i: nat)
    ensures !Bit(0, i)
  {
    if i > 0 {
      BitZero(i - 1);
    }
  }

  lemma {:induction false} BitIsShr(a: nat, i: nat)
    ensures Bit(a, i) <==> Shr(a, i) % 2 == 1
    decreases i
  {
    if i > 0 {
      BitIsShr(a / 2, i - 1);
    }
  }

  /** The top bit of an (n+1)-bit number tells on which side of 2^n it lies. */
  lemma {:induction false} TopBit(a: nat, n: nat)
    requires a < Pow2(n + 1)
    ensures Bit(a, n) <==> a >= Pow2(n)
    decreases n
  {
    assert Pow2(n + 1) == 2 * Pow2(n);
    if n > 0 {
      TopBit(a / 2, n - 1);
    }
  }

  lemma {:induction false} BitBeyond(a: nat, n: nat, i: nat)
    requires a < Pow2(n) && n <= i
    ensures !Bit(a, i)
    decreases i
  {
    if i == 0 {
    } else if n == 0 {
      BitZero(i);
    } else {
      assert Pow2(n) == 2 * Pow2(n - 1);
      BitBeyond(a / 2, n - 1, i - 1);
    }
  }

  // ----- shifts

  lemma {:induction false} ShlXor(a: nat, b: nat, k: nat)
    ensures Shl(Xor(a, b), k) == Xor(Shl(a, k), Shl(b, k))
    decreases k
  {
    if k > 0 {
      ShlXor(a, b, k - 1);
      XorDouble(Shl(a, k - 1), Shl(b, k - 1));
    }
  }

  lemma {:induction false} ShlShl(a: nat, j: nat, k: nat)
    ensures Shl(Shl(a, j), k) == Shl(a, j + k)
    decreases k
  {
    if k > 0 {
      ShlShl(a, j, k - 1);
    }
  }

  lemma {:induction false} ShlDouble(a: nat, k: nat)
    ensures Shl(2 * a, k) == 2 * Shl(a, k)
    decreases k
  {
    if k > 0 {
      ShlDouble(a, k - 1);
    }
  }

  /** x^k times a polynomial of degree below n has degree below n + k. */
  lemma {:induction false} ShlBound(a: nat, n: nat, k: nat)
    ensures a < Pow2(n) ==> Shl(a, k) < Pow2(n + k)
    ensures a >= Pow2(n) ==> Shl(a, k) >= Pow2(n + k)
    decreases k
  {
    if k > 0 {
      ShlBound(a, n, k - 1);
      assert Pow2(n + k) == 2 * Pow2(n + k - 1);
    }
  }

  lemma {:induction false} ShlLinear(a: nat, b: nat, k: nat)
    ensures Shl(a + b, k) == Shl(a, k) + Shl(b, k)
    decreases k
  {
    if k > 0 {
      ShlLinear(a, b, k - 1);
    }
  }

  lemma {:induction false} ShrXor(a: nat, b: nat, k: nat)
    ensures Shr(Xor(a, b), k) == Xor(Shr(a, k), Shr(b, k))
    decreases k
  {
    if k > 0 {
      XorStep(a, b);
      ShrXor(a / 2, b / 2, k - 1);
    }
  }

  lemma {:induction false} ShrBound(a: nat, k: nat, n: nat)
    requires a < Pow2(n + k)
    ensures Shr(a, k) < Pow2(n)
    decreases k
  {
    if k > 0 {
      assert Pow2(n + k) == 2 * Pow2(n + k - 1);
      ShrBound(a / 2, k - 1, n);
    }
  }

  lemma {:induction false} LowXor(a: nat, b: nat, k: nat)
    ensures Low(Xor(a, b), k) == Xor(Low(a, k), Low(b, k))
    decreases k
  {
    if k > 0 {
      XorStep(a, b);
      LowXor(a / 2, b / 2, k - 1);
      XorStep(Low(a, k), Low(b, k));
    }
  }

  lemma {:induction false} LowBound(a: nat, k: nat)
    ensures Low(a, k) < Pow2(k)
    ensures a < Pow2(k) ==> Low(a, k) == a
    decreases k
  {
    if k > 0 {
      assert Pow2(k) == 2 * Pow2(k - 1);
      LowBound(a / 2, k - 1);
    }
  }

  lemma {:induction false} LowLow(a: nat, j: nat, k: nat)
    ensures Low(Low(a, k), j) == Low(a, if j <= k then j else k)
    decreases j
  {
    if j > 0 && k > 0 {
      LowLow(a / 2, j - 1, k - 1);
    } else if j > 0 {
      LowBound(0, j);
    }
  }

  lemma {:induction false} LowShl(a: nat, k: nat, n: nat)
    requires k <= n
    ensures Low(Shl(a, k), n) == Shl(Low(a, n - k), k)
    decreases k
  {
    if k > 0 {
      LowShl(a, k - 1, n - 1);
    }
  }

  /** A number is its high part shifted back, plus its low part. */
  lemma {:induction false} SplitAt(a: nat, k: nat)
    ensures a == Shl(Shr(a, k), k) + Low(a, k)
    decreases k
  {
    if k > 0 {
      SplitAt(a / 2, k - 1);
    }
  }

  lemma {:induction false} ShrAdd(a: nat, j: nat, k: nat)
    ensures Shr(Shr(a, j), k) == Shr(a, j + k)
    decreases j
  {
    if j > 0 {
      ShrAdd(a / 2, j - 1, k);
    }
  }

  lemma {:induction false} ShrLow(a: nat, k: nat, n: nat)
    requires k <= n
    ensures Shr(Low(a, n), k) == Low(Shr(a, k), n - k)
    decreases k
  {
    if k > 0 {
      ShrLow(a / 2, k - 1, n - 1);
    }
  }

  lemma {:induction false} ShrShl(a: nat, k: nat)
    ensures Shr(Shl(a, k), k) == a
    decreases k
  {
    if k > 0 {
      ShrShl(a, k - 1);
    }
  }

  /** `(a << k) | b` and `(a << k) ^ b` are both plain addition when b has at most k bits. */
  lemma {:induction false} DisjointAdd(a: nat, b: nat, k: nat)
    requires b < Pow2(k)
    ensures Or(Shl(a, k), b) == Shl(a, k) + b
    ensures Xor(Shl(a, k), b) == Shl(a, k) + b
    decreases k
  {
    if k > 0 {
      assert Pow2(k) == 2 * Pow2(k - 1);
      DisjointAdd(a, b / 2, k - 1);
    }
  }

  /** Taking one more low bit of `b` adds that bit at its place. */
  lemma {:induction false} LowNext(b: nat, i: nat)
    ensures Low(b, i + 1) == Low(b, i) + (if Bit(b, i) then Pow2(i) else 0)
    decreases i
  {
    if i > 0 {
      LowNext(b / 2, i - 1);
    }
  }

  lemma {:induction false} ShlZero(k: nat)
    ensures Shl(0, k) == 0
  {
    if k > 0 {
      ShlZero(k - 1);
    }
  }

  lemma {:induction false} Pow2EightMore(n: nat)
    ensures Pow2(n + 8) == 256 * Pow2(n)
  {
    assert Pow2(n + 1) == 2 * Pow2(n);
    assert Pow2(n + 2) == 4 * Pow2(n);
    assert Pow2(n + 3) == 8 * Pow2(n);
    assert Pow2(n + 4) == 16 * Pow2(n);
    assert Pow2(n + 5) == 32 * Pow2(n);
    assert Pow2(n + 6) == 64 * Pow2(n);
    assert Pow2(n + 7) == 128 * Pow2(n);
  }
}
