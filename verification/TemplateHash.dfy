/**
  The template-hash commitment: shift-and-XOR multiplication in GF(2^128),
  Horner evaluation of a padded field, and the six-factor product.
 */
module TemplateHash {
  import opened Sorting
  import opened Bits
  import opened Bytes
  import opened Polynomials

  lemma {:induction false} Shl8(v: nat)
    ensures Shl(v, 8) == 256 * v
  {
    assert Shl(v, 1) == 2 * v;
    assert Shl(v, 2) == 4 * v;
    assert Shl(v, 3) == 8 * v;
    assert Shl(v, 4) == 16 * v;
    assert Shl(v, 5) == 32 * v;
    assert Shl(v, 6) == 64 * v;
    assert Shl(v, 7) == 128 * v;
  }

  lemma {:induction false} Pow256IsPow2(n: nat)
    ensures Pow256(n) == Pow2(8 * n)
  {
    if n > 0 {
      Pow256IsPow2(n - 1);
      Pow2EightMore(8 * (n - 1));
    }
  }

  lemma {:induction false} LeNatConcat(s: seq<byte>, t: seq<byte>)
    ensures LeNat(s + t) == LeNat(s) + Shl(LeNat(t), 8 * |s|)
  {
    if s == [] {
      assert s + t == t;
    } else {
      assert (s + t)[1..] == s[1..] + t;
      LeNatConcat(s[1..], t);
      ShlShl(LeNat(t), 8 * |s[1..]|, 8);
      Shl8(Shl(LeNat(t), 8 * |s[1..]|));
      assert 8 * |s| == 8 * |s[1..]| + 8;
    }
  }

  lemma {:induction false} LeNatZeros(n: nat)
    ensures LeNat(seq(n, i => 0)) == 0
  {
    if n > 0 {
      assert seq(n, i => 0)[1..] == seq(n - 1, i => 0);
      LeNatZeros(n - 1);
    }
  }

  method BytesToBigIntLE(buf: seq<byte>) returns (v: nat)
    ensures v == LeNat(buf)
  {
    v := 0;
    for i := |buf| downto 0
      invariant v == LeNat(buf[i..])
    {
      Pow2Values();
      DisjointAdd(v, buf[i], 8);
      Shl8(v);
      v := Or(Shl(v, 8), buf[i]);
      assert buf[i..][1..] == buf[i + 1..];
    }
  }

  // ----- field multiplication

  /** One more bit of the multiplier adds one shifted copy of the multiplicand. */
  lemma {:induction false} ProductNextBit(a: nat, b: nat, i: nat)
    ensures Product(a, Low(b, i + 1)) ==
            if Shr(b, i) % 2 == 1 then Xor(Product(a, Low(b, i)), Shl(a, i)) else Product(a, Low(b, i))
  {
    BitIsShr(b, i);
    LowNext(b, i);
    if Bit(b, i) {
      LowBound(b, i);
      ShlOne(i);
      DisjointAdd(1, Low(b, i), i);
      XorComm(Pow2(i), Low(b, i));
      DistributeRight(a, Low(b, i), Pow2(i));
      ProductPow2(a, i);
    }
  }

  /** Clearing bit i by x^i = x^(i-128) * (x^7 + x^2 + x + 1) stays in the class. */
  lemma {:induction false} ReduceBit(r: nat, i: nat, tail: nat)
    requires DEGREE <= i && r < Pow2(i + 1) && tail == 0x87
    ensures Shr(r, i) % 2 == 1 ==>
              var s := Xor(Xor(r, Shl(1, i)), Shl(tail, i - DEGREE));
              s < Pow2(i) && Congruent(s, r)
    ensures Shr(r, i) % 2 != 1 ==> r < Pow2(i)
  {
    BitIsShr(r, i);
    TopBit(r, i);
    if Bit(r, i) {
      var k := i - DEGREE;
      ShiftedModulus(k, tail);
      XorAssoc(r, Shl(1, i), Shl(tail, k));
      ProductPow2(MODULUS, k);
      CongruentShift(r, Pow2(k));
      XorCancelsDegree(r, Shl(MODULUS, k), i);
    }
  }

  /** x^k times the modulus is x^(128+k) plus its shifted tail. */
  lemma {:induction false} ShiftedModulus(k: nat, tail: nat)
    requires tail == 0x87
    ensures Shl(MODULUS, k) == Xor(Shl(1, DEGREE + k), Shl(tail, k))
    ensures Pow2(DEGREE + k) <= Shl(MODULUS, k) < Pow2(DEGREE + k + 1)
  {
    ModulusDegree();
    ShlOne(DEGREE);
    ShlShl(1, DEGREE, k);
    ShlXor(Pow2(DEGREE), tail, k);
    ShlBound(MODULUS, DEGREE, k);
    ShlBound(MODULUS, DEGREE + 1, k);
    assert DEGREE + 1 + k == DEGREE + k + 1;
  }

  /** The two loops compute the product of the quotient ring. */
  method Gf128Mul(a: nat, b: nat) returns (result: nat)
    requires a < ORDER && b < ORDER
    ensures result == Times(a, b)
    ensures result < ORDER
  {
    result := 0;
    for i := 0 to DEGREE
      invariant result == Product(a, Low(b, i))
    {
      ProductNextBit(a, b, i);
      if Shr(b, i) % 2 == 1 {
        result := Xor(result, Shl(a, i));
      }
    }
    LowBound(b, DEGREE);
    Pow2Mono(DEGREE, DEGREE + 1);
    assert Pow2(DEGREE) == 2 * Pow2(DEGREE - 1);
    ProductBound(a, DEGREE - 1, b, DEGREE);
    CongruentRefl(result);
    for i := 2 * DEGREE - 1 downto DEGREE
      invariant result < Pow2(i)
      invariant Congruent(result, Product(a, b))
    {
      ReduceBit(result, i, 0x87);
      if Shr(result, i) % 2 == 1 {
        ghost var before := result;
        result := Xor(result, Shl(1, i));
        result := Xor(result, Shl(0x87, i - DEGREE));
        CongruentTrans(result, before, Product(a, b));
      }
    }
    TimesUnique(a, b, result);
  }

  // ----- field encoding

  ghost function Power(g: nat, k: nat): nat {
    if k == 0 then 1 else Times(g, Power(g, k - 1))
  }

  /** sum over i of chunks[i] * g^(k+i) */
  ghost function PowerSum(chunks: seq<nat>, g: nat, k: nat): nat
    decreases |chunks|
  {
    if chunks == [] then 0
    else Xor(Times(chunks[0], Power(g, k)), PowerSum(chunks[1..], g, k + 1))
  }

  predicate Elements(xs: seq<nat>) {
    forall i :: 0 <= i < |xs| ==> xs[i] < ORDER
  }

  lemma {:induction false} PowerSumShift(chunks: seq<nat>, g: nat, k: nat)
    ensures PowerSum(chunks, g, k + 1) == Times(PowerSum(chunks, g, k), g)
    decreases |chunks|
  {
    if chunks == [] {
      ProductZero(g);
      ProductZero(0);
      CongruentRefl(0);
      TimesUnique(0, g, 0);
    } else {
      PowerSumShift(chunks[1..], g, k + 1);
      var lead, rest := Times(chunks[0], Power(g, k)), PowerSum(chunks[1..], g, k + 1);
      TimesComm(g, Power(g, k));
      TimesAssoc(chunks[0], Power(g, k), g);
      TimesComm(Xor(lead, rest), g);
      TimesDistributes(g, lead, rest);
      TimesComm(g, lead);
      TimesComm(g, rest);
    }
  }

  /** Horner's step: one more low chunk. */
  lemma {:induction false} HornerStep(chunk: nat, rest: seq<nat>, g: nat)
    requires chunk < ORDER
    ensures PowerSum([chunk] + rest, g, 0) == Xor(Times(PowerSum(rest, g, 0), g), chunk)
  {
    assert ([chunk] + rest)[1..] == rest;
    PowerSumShift(rest, g, 0);
    TimesOne(chunk);
    XorComm(chunk, Times(PowerSum(rest, g, 0), g));
  }

  lemma {:induction false} PowerSumBound(chunks: seq<nat>, g: nat, k: nat)
    ensures PowerSum(chunks, g, k) < ORDER
    decreases |chunks|
  {
    if chunks != [] {
      PowerSumBound(chunks[1..], g, k + 1);
      XorBound(Times(chunks[0], Power(g, k)), PowerSum(chunks[1..], g, k + 1), DEGREE);
    }
  }

  function Padded(buf: seq<byte>): (p: seq<byte>)
    ensures |p| % 8 == 0 && |buf| <= |p| < |buf| + 8
    ensures buf <= p
  {
    var padLen := (|buf| + 7) / 8 * 8;
    buf + seq(padLen - |buf|, i => 0)
  }

  /** The 8-byte little-endian words of the zero-padded field. */
  function Chunks(buf: seq<byte>): (chunks: seq<nat>) {
    var p := Padded(buf);
    seq(|p| / 8, c requires 0 <= c < |p| / 8 => LeNat(p[8 * c..8 * c + 8]))
  }

  lemma {:induction false} ChunksAreElements(buf: seq<byte>)
    ensures Elements(Chunks(buf))
  {
    var p := Padded(buf);
    forall c | 0 <= c < |Chunks(buf)| ensures Chunks(buf)[c] < ORDER {
      WordBound(p[8 * c..8 * c + 8]);
    }
  }

  lemma {:induction false} WordBound(word: seq<byte>)
    requires |word| == 8
    ensures LeNat(word) < ORDER
  {
    LeNatBound(word);
    Pow256IsPow2(8);
    Pow2Mono(64, DEGREE);
  }

  /** A field is the polynomial of its chunks at gamma. */
  ghost function FieldElement(buf: seq<byte>, gamma: nat): nat {
    PowerSum(Chunks(buf), gamma, 0)
  }

  method ElemFromField(buf: seq<byte>, gamma: nat) returns (acc: nat)
    requires buf != [] && gamma < ORDER
    ensures acc == FieldElement(buf, gamma)
    ensures acc < ORDER
  {
    var chunks := ReadChunks(buf);
    ChunksAreElements(buf);
    acc := Horner(chunks, gamma);
  }

  /** The padded field in 8-byte words. */
  method ReadChunks(buf: seq<byte>) returns (chunks: seq<nat>)
    ensures chunks == Chunks(buf) && (buf != [] ==> chunks != [])
  {
    var padded := Padded(buf);
    var n := |padded| / 8;
    chunks := [];
    for c := 0 to n
      invariant chunks == Chunks(buf)[..c]
    {
      var word := BytesToBigIntLE(padded[8 * c..8 * c + 8]);
      chunks := chunks + [word];
    }
    assert chunks == Chunks(buf);
  }

  /** The words folded from the last to the first. */
  method Horner(chunks: seq<nat>, gamma: nat) returns (acc: nat)
    requires chunks != [] && Elements(chunks) && gamma < ORDER
    ensures acc == PowerSum(chunks, gamma, 0) && acc < ORDER
  {
    var n := |chunks|;
    acc := chunks[n - 1];
    assert chunks[n - 1..] == [acc] + [];
    HornerStep(acc, [], gamma);
    TimesZero(gamma);
    for i := n - 1 downto 0
      invariant acc == PowerSum(chunks[i..], gamma, 0)
      invariant acc < ORDER
    {
      PowerSumBound(chunks[i + 1..], gamma, 0);
      HornerStep(chunks[i], chunks[i + 1..], gamma);
      assert chunks[i..] == [chunks[i]] + chunks[i + 1..];
      var product := Gf128Mul(acc, gamma);
      acc := Xor(product, chunks[i]);
      PowerSumBound(chunks[i..], gamma, 0);
    }
    assert chunks[0..] == chunks;
  }

  lemma {:induction false} TimesZero(g: nat)
    ensures Times(0, g) == 0
  {
    ProductZero(g);
    CongruentRefl(0);
    TimesUnique(0, g, 0);
  }

  /** A field of at most eight bytes is encoded by its own little-endian value. */
  lemma {:induction false} ShortField(buf: seq<byte>, gamma: nat)
    requires 0 < |buf| <= 8
    ensures FieldElement(buf, gamma) == LeNat(buf)
  {
    OneChunk(buf);
    ChunksAreElements(buf);
    var word := Chunks(buf)[0];
    assert Chunks(buf) == [word] + [];
    HornerStep(word, [], gamma);
    TimesZero(gamma);
  }

  lemma {:induction false} OneChunk(buf: seq<byte>)
    requires 0 < |buf| <= 8
    ensures |Chunks(buf)| == 1 && Chunks(buf)[0] == LeNat(buf)
  {
    var p := Padded(buf);
    var zeros: seq<byte> := seq(8 - |buf|, i => 0);
    assert p[8 * 0..8 * 0 + 8] == p && p == buf + zeros;
    LeNatConcat(buf, zeros);
    LeNatZeros(8 - |buf|);
    ShlZero(8 * |buf|);
  }

  /** Words of 64 bits put together, the first the lowest. */
  ghost function Together(chunks: seq<nat>): nat {
    if chunks == [] then 0 else chunks[0] + Shl(Together(chunks[1..]), 64)
  }

  /** The chunks of a field hold its little-endian value. */
  lemma {:induction false} ChunksHoldValue(buf: seq<byte>)
    ensures Together(Chunks(buf)) == LeNat(buf)
  {
    var p := Padded(buf);
    var zeros: seq<byte> := seq(|p| - |buf|, i => 0);
    assert p == buf + zeros;
    LeNatConcat(buf, zeros);
    LeNatZeros(|zeros|);
    ShlZero(8 * |buf|);
    ChunksFrom(buf, 0);
    assert p[8 * 0..] == p && Chunks(buf)[0..] == Chunks(buf);
  }

  lemma {:induction false} ChunksFrom(buf: seq<byte>, c: nat)
    requires c <= |Chunks(buf)|
    ensures 8 * c <= |Padded(buf)| && Together(Chunks(buf)[c..]) == LeNat(Padded(buf)[8 * c..])
    decreases |Chunks(buf)| - c
  {
    var p, chunks := Padded(buf), Chunks(buf);
    if c < |chunks| {
      assert chunks[c..][1..] == chunks[c + 1..];
      ChunksFrom(buf, c + 1);
      LeNatConcat(p[8 * c..8 * c + 8], p[8 * (c + 1)..]);
      assert p[8 * c..] == p[8 * c..8 * c + 8] + p[8 * (c + 1)..];
    } else {
      assert p[8 * c..] == [];
    }
  }

  /** Four little-endian words as a polynomial at g, the first word its constant term. */
  ghost function Cubic(hash: seq<byte>, g: nat): nat
    requires |hash| == 32
  {
    Xor(LeNat(hash[0..8]), Xor(Times(LeNat(hash[8..16]), g), Xor(Times(LeNat(hash[16..24]), Times(g, g)),
        Times(LeNat(hash[24..32]), Times(g, Times(g, g))))))
  }

  lemma {:induction false} HashIsCubic(hash: seq<byte>, g: nat)
    requires |hash| == 32 && g < ORDER
    ensures FieldElement(hash, g) == Cubic(hash, g)
  {
    var xs := Chunks(hash);
    assert Padded(hash) == hash;
    assert |xs| == 4;
    assert xs[0] == LeNat(hash[0..8]) && xs[1] == LeNat(hash[8..16]);
    assert xs[2] == LeNat(hash[16..24]) && xs[3] == LeNat(hash[24..32]);
    WordBound(hash[0..8]);
    FourTerms(xs, g);
  }

  /** The sum from term i on. */
  ghost function SumFrom(xs: seq<nat>, g: nat, i: nat): nat
    requires i <= |xs|
  {
    PowerSum(xs[i..], g, i)
  }

  lemma {:induction false} SumTurn(xs: seq<nat>, g: nat, i: nat)
    requires i < |xs|
    ensures SumFrom(xs, g, i) == Xor(Times(xs[i], Power(g, i)), SumFrom(xs, g, i + 1))
  {
    assert xs[i..][1..] == xs[i + 1..];
  }

  lemma {:induction false} PowerNext(g: nat, k: nat)
    ensures Power(g, k + 1) == Times(g, Power(g, k))
  {
  }

  lemma {:induction false} FirstPowers(g: nat)
    requires g < ORDER
    ensures Power(g, 0) == 1 && Power(g, 1) == g && Power(g, 2) == Times(g, g) && Power(g, 3) == Times(g, Times(g, g))
  {
    PowerNext(g, 0);
    PowerNext(g, 1);
    PowerNext(g, 2);
    TimesOne(g);
  }

  lemma {:induction false} FourTerms(xs: seq<nat>, g: nat)
    requires |xs| == 4 && xs[0] < ORDER && g < ORDER
    ensures PowerSum(xs, g, 0) ==
            Xor(xs[0], Xor(Times(xs[1], g), Xor(Times(xs[2], Times(g, g)), Times(xs[3], Times(g, Times(g, g))))))
  {
    FirstPowers(g);
    TimesOne(xs[0]);
    SumTurn(xs, g, 0);
    SumTurn(xs, g, 1);
    SumTurn(xs, g, 2);
    SumTurn(xs, g, 3);
    assert xs[0..] == xs && SumFrom(xs, g, 4) == 0;
    assert Xor(Times(xs[3], Power(g, 3)), 0) == Times(xs[3], Power(g, 3));
  }

  // ----- the commitment

  ghost function ProductOf(xs: seq<nat>): nat {
    if xs == [] then 1 else Times(xs[0], ProductOf(xs[1..]))
  }

  lemma {:induction false} ProductOfAppend(xs: seq<nat>, x: nat)
    requires x < ORDER
    ensures ProductOf(xs + [x]) == Times(ProductOf(xs), x)
  {
    if xs == [] {
      assert xs + [x] == [x] && [x][1..] == [];
      TimesOne(x);
    } else {
      assert (xs + [x])[1..] == xs[1..] + [x];
      ProductOfAppend(xs[1..], x);
      TimesAssoc(xs[0], ProductOf(xs[1..]), x);
    }
  }

  /** Any factor can be taken out first. */
  lemma {:induction false} ProductOfPullOut(xs: seq<nat>, i: nat)
    requires i < |xs|
    ensures ProductOf(xs) == Times(xs[i], ProductOf(xs[..i] + xs[i + 1..]))
    decreases |xs|
  {
    if i == 0 {
      assert xs[..0] + xs[1..] == xs[1..];
    } else {
      ProductOfPullOut(xs[1..], i - 1);
      var rest := xs[..i] + xs[i + 1..];
      var inner := xs[1..][..i - 1] + xs[1..][i..];
      assert rest[0] == xs[0] && rest[1..] == inner;
      TimesAssoc(xs[0], xs[i], ProductOf(inner));
      TimesComm(xs[0], xs[i]);
      TimesAssoc(xs[i], xs[0], ProductOf(inner));
    }
  }

  /** The product of field elements does not depend on their order. */
  lemma {:induction false} ProductOfPermutation(xs: seq<nat>, ys: seq<nat>)
    requires multiset(xs) == multiset(ys)
    ensures ProductOf(xs) == ProductOf(ys)
    decreases |xs|
  {
    if xs == [] {
      assert multiset(ys) == multiset{};
      assert |ys| == |multiset(ys)| == 0;
    } else {
      var i, rest := PullOut(xs, ys);
      ProductOfPermutation(xs[1..], rest);
      ProductOfPullOut(ys, i);
    }
  }

  datatype Fields = Fields(
    nVersion: int, nLockTime: int,
    shaSequences: seq<byte>, shaOutputs: seq<byte>,
    annexPresent: bool, inputIndex: int)

  /** `setUint32(0, v >>> 0, true)`: the value wraps modulo 2^32. */
  function U32le(v: int): seq<byte> {
    LeBytes(v % 0x1_0000_0000, 4)
  }

  function RawFields(f: Fields): seq<seq<byte>> {
    [U32le(f.nVersion), U32le(f.nLockTime), f.shaSequences, f.shaOutputs,
     [if f.annexPresent then 1 else 0], U32le(f.inputIndex)]
  }

  /** beta + e_i for the six fields */
  ghost function Factors(f: Fields, beta: nat, gamma: nat): seq<nat> {
    var raw := RawFields(f);
    seq(|raw|, i requires 0 <= i < |raw| => Xor(beta, FieldElement(raw[i], gamma)))
  }

  /** The six numbers the commitment is made of, in the order of the source. */
  ghost function Elements6(f: Fields, gamma: nat): seq<nat>
    requires |f.shaSequences| == 32 && |f.shaOutputs| == 32
  {
    [f.nVersion % 0x1_0000_0000, f.nLockTime % 0x1_0000_0000, Cubic(f.shaSequences, gamma), Cubic(f.shaOutputs, gamma),
     if f.annexPresent then 1 else 0, f.inputIndex % 0x1_0000_0000]
  }

  lemma {:induction false} WordElement(v: int, gamma: nat)
    ensures FieldElement(U32le(v), gamma) == v % 0x1_0000_0000
  {
    ShortField(U32le(v), gamma);
    Bytes.Pow256Values();
    LeReadWrite(v % 0x1_0000_0000, 4);
  }

  lemma {:induction false} FlagElement(b: byte, gamma: nat)
    ensures FieldElement([b], gamma) == b
  {
    ShortField([b], gamma);
    assert [b][1..] == [];
  }

  /** The factors, written out. */
  lemma {:induction false} FactorsAre(f: Fields, beta: nat, gamma: nat)
    requires |f.shaSequences| == 32 && |f.shaOutputs| == 32 && gamma < ORDER
    ensures |Factors(f, beta, gamma)| == 6
    ensures forall i :: 0 <= i < 6 ==> Factors(f, beta, gamma)[i] == Xor(beta, Elements6(f, gamma)[i])
  {
    forall i | 0 <= i < 6 ensures FieldElement(RawFields(f)[i], gamma) == Elements6(f, gamma)[i] {
      RawElement(f, gamma, i);
    }
  }

  lemma {:induction false} RawElement(f: Fields, gamma: nat, i: nat)
    requires |f.shaSequences| == 32 && |f.shaOutputs| == 32 && gamma < ORDER && i < 6
    ensures FieldElement(RawFields(f)[i], gamma) == Elements6(f, gamma)[i]
  {
    if i < 2 {
      FirstElements(f, gamma);
    } else if i < 4 {
      HashElements(f, gamma);
    } else {
      LastElements(f, gamma);
    }
  }

  lemma {:induction false} FirstElements(f: Fields, gamma: nat)
    requires |f.shaSequences| == 32 && |f.shaOutputs| == 32
    ensures FieldElement(RawFields(f)[0], gamma) == Elements6(f, gamma)[0]
    ensures FieldElement(RawFields(f)[1], gamma) == Elements6(f, gamma)[1]
  {
    WordElement(f.nVersion, gamma);
    WordElement(f.nLockTime, gamma);
  }

  lemma {:induction false} HashElements(f: Fields, gamma: nat)
    requires |f.shaSequences| == 32 && |f.shaOutputs| == 32 && gamma < ORDER
    ensures FieldElement(RawFields(f)[2], gamma) == Elements6(f, gamma)[2]
    ensures FieldElement(RawFields(f)[3], gamma) == Elements6(f, gamma)[3]
  {
    HashIsCubic(f.shaSequences, gamma);
    HashIsCubic(f.shaOutputs, gamma);
  }

  lemma {:induction false} LastElements(f: Fields, gamma: nat)
    requires |f.shaSequences| == 32 && |f.shaOutputs| == 32
    ensures FieldElement(RawFields(f)[4], gamma) == Elements6(f, gamma)[4]
    ensures FieldElement(RawFields(f)[5], gamma) == Elements6(f, gamma)[5]
  {
    FlagElement(if f.annexPresent then 1 else 0, gamma);
    WordElement(f.inputIndex, gamma);
  }

  /** Equal factors mean equal integers modulo 2^32, equal annex flags and equal hash polynomials, and only those. */
  lemma {:induction false} FactorsIdentify(f: Fields, g: Fields, beta: nat, gamma: nat)
    requires |f.shaSequences| == 32 && |f.shaOutputs| == 32 && |g.shaSequences| == 32 && |g.shaOutputs| == 32 && gamma < ORDER
    ensures Factors(f, beta, gamma) == Factors(g, beta, gamma) <==>
              && f.nVersion % 0x1_0000_0000 == g.nVersion % 0x1_0000_0000
              && f.nLockTime % 0x1_0000_0000 == g.nLockTime % 0x1_0000_0000
              && Cubic(f.shaSequences, gamma) == Cubic(g.shaSequences, gamma)
              && Cubic(f.shaOutputs, gamma) == Cubic(g.shaOutputs, gamma)
              && f.annexPresent == g.annexPresent
              && f.inputIndex % 0x1_0000_0000 == g.inputIndex % 0x1_0000_0000
  {
    FactorsAre(f, beta, gamma);
    FactorsAre(g, beta, gamma);
    SameFactors(Factors(f, beta, gamma), Factors(g, beta, gamma), Elements6(f, gamma), Elements6(g, gamma), beta);
    SameSix(f, g, gamma);
  }

  lemma {:induction false} SameSix(f: Fields, g: Fields, gamma: nat)
    requires |f.shaSequences| == 32 && |f.shaOutputs| == 32 && |g.shaSequences| == 32 && |g.shaOutputs| == 32
    ensures Elements6(f, gamma) == Elements6(g, gamma) <==>
              && f.nVersion % 0x1_0000_0000 == g.nVersion % 0x1_0000_0000
              && f.nLockTime % 0x1_0000_0000 == g.nLockTime % 0x1_0000_0000
              && Cubic(f.shaSequences, gamma) == Cubic(g.shaSequences, gamma)
              && Cubic(f.shaOutputs, gamma) == Cubic(g.shaOutputs, gamma)
              && f.annexPresent == g.annexPresent
              && f.inputIndex % 0x1_0000_0000 == g.inputIndex % 0x1_0000_0000
  {
    var d, e := Elements6(f, gamma), Elements6(g, gamma);
    assert d == e <==> d[0] == e[0] && d[1] == e[1] && d[2] == e[2] && d[3] == e[3] && d[4] == e[4] && d[5] == e[5];
  }

  lemma {:induction false} SameFactors(s: seq<nat>, t: seq<nat>, d: seq<nat>, e: seq<nat>, beta: nat)
    requires |s| == |t| == |d| == |e|
    requires forall i :: 0 <= i < |s| ==> s[i] == Xor(beta, d[i]) && t[i] == Xor(beta, e[i])
    ensures s == t <==> d == e
  {
    if s == t {
      forall i | 0 <= i < |d| ensures d[i] == e[i] {
        XorCancel(beta, d[i]);
        XorCancel(beta, e[i]);
        assert s[i] == t[i];
      }
    }
  }

  datatype Outcome = Commitment(bytes: seq<byte>) | Rejected

  /**
    The commitment is the product of the six factors, written little-endian in
    the first 16 of 32 bytes; a digest of the wrong length is refused.
   */
  method ComputeTemplateHashCommitment(f: Fields, beta: nat, gamma: nat) returns (out: Outcome)
    requires beta < ORDER && gamma < ORDER
    ensures out.Rejected? <==> |f.shaSequences| != 32 || |f.shaOutputs| != 32
    ensures out.Commitment? ==>
              && |out.bytes| == 32
              && (var e := Elements6(f, gamma);
                  LeNat(out.bytes[..16]) ==
                  Times(Xor(beta, e[0]), Times(Xor(beta, e[1]), Times(Xor(beta, e[2]), Times(Xor(beta, e[3]),
                        Times(Xor(beta, e[4]), Xor(beta, e[5])))))))
              && forall i :: 16 <= i < 32 ==> out.bytes[i] == 0
  {
    if |f.shaSequences| != 32 || |f.shaOutputs| != 32 {
      return Rejected;
    }
    var raw := RawFields(f);
    assert forall j :: 0 <= j < |raw| ==> raw[j] != [];
    var elems: seq<nat> := [];
    for i := 0 to |raw|
      invariant |elems| == i
      invariant forall j :: 0 <= j < i ==> elems[j] == FieldElement(raw[j], gamma) && elems[j] < ORDER
    {
      var e := ElemFromField(raw[i], gamma);
      elems := elems + [e];
    }
    ghost var factors := Factors(f, beta, gamma);
    var p := MultiplyFactors(elems, beta);
    assert factors == seq(|elems|, i requires 0 <= i < |elems| => Xor(beta, elems[i]));
    CommitmentIs(f, beta, gamma);
    var bytes := PackCommitment(p);
    out := Commitment(bytes);
  }

  /** Two little-endian halves, then sixteen zero bytes. */
  method PackCommitment(p: nat) returns (bytes: seq<byte>)
    requires p < ORDER
    ensures |bytes| == 32 && LeNat(bytes[..16]) == p && forall i :: 16 <= i < 32 ==> bytes[i] == 0
  {
    var lo, hi := Low(p, 64), Shr(p, 64);
    var zeros: seq<byte> := seq(16, i => 0);
    var head := LeBytes(lo, 8) + LeBytes(hi, 8);
    HalvesRoundTrip(p);
    bytes := head + zeros;
    assert bytes[..16] == head;
  }

  /** The product of the factors, written out. */
  lemma {:induction false} CommitmentIs(f: Fields, beta: nat, gamma: nat)
    requires |f.shaSequences| == 32 && |f.shaOutputs| == 32 && beta < ORDER && gamma < ORDER
    ensures var e := Elements6(f, gamma);
            ProductOf(Factors(f, beta, gamma)) ==
            Times(Xor(beta, e[0]), Times(Xor(beta, e[1]), Times(Xor(beta, e[2]), Times(Xor(beta, e[3]),
                  Times(Xor(beta, e[4]), Xor(beta, e[5]))))))
  {
    FactorsAre(f, beta, gamma);
    ElementBound(f, gamma);
    XorBound(beta, Elements6(f, gamma)[5], DEGREE);
    SixFactors(Factors(f, beta, gamma));
  }

  lemma {:induction false} ElementBound(f: Fields, gamma: nat)
    requires |f.shaSequences| == 32 && |f.shaOutputs| == 32
    ensures Elements6(f, gamma)[5] < ORDER
  {
    Bytes.Pow256Values();
    Pow256IsPow2(4);
    Pow2Mono(32, DEGREE);
  }

  ghost function ProductFrom(xs: seq<nat>, i: nat): nat
    requires i <= |xs|
  {
    ProductOf(xs[i..])
  }

  lemma {:induction false} ProductTurn(xs: seq<nat>, i: nat)
    requires i < |xs|
    ensures ProductFrom(xs, i) == Times(xs[i], ProductFrom(xs, i + 1))
  {
    assert xs[i..][1..] == xs[i + 1..];
  }

  lemma {:induction false} SixFactors(xs: seq<nat>)
    requires |xs| == 6 && xs[5] < ORDER
    ensures ProductOf(xs) == Times(xs[0], Times(xs[1], Times(xs[2], Times(xs[3], Times(xs[4], xs[5])))))
  {
    ProductTurn(xs, 0);
    ProductTurn(xs, 1);
    ProductTurn(xs, 2);
    ProductTurn(xs, 3);
    ProductTurn(xs, 4);
    ProductTurn(xs, 5);
    assert xs[0..] == xs && ProductFrom(xs, 6) == 1;
    TimesOne(xs[5]);
  }

  lemma {:induction false} FirstFactor(factors: seq<nat>)
    requires factors != [] && factors[0] < ORDER
    ensures ProductOf(factors[..1]) == factors[0]
  {
    ProductOfAppend([], factors[0]);
    TimesOne(factors[0]);
    assert factors[..1] == [] + [factors[0]];
  }

  lemma {:induction false} OneMoreFactor(factors: seq<nat>, i: nat)
    requires i < |factors| && factors[i] < ORDER
    ensures ProductOf(factors[..i + 1]) == Times(ProductOf(factors[..i]), factors[i])
  {
    ProductOfAppend(factors[..i], factors[i]);
    assert factors[..i + 1] == factors[..i] + [factors[i]];
  }

  /** `p = beta ^ e_0`, then one field multiplication per further field. */
  method MultiplyFactors(elems: seq<nat>, beta: nat) returns (p: nat)
    requires elems != [] && Elements(elems) && beta < ORDER
    ensures p == ProductOf(seq(|elems|, i requires 0 <= i < |elems| => Xor(beta, elems[i])))
    ensures p < ORDER
  {
    ghost var factors := seq(|elems|, i requires 0 <= i < |elems| => Xor(beta, elems[i]));
    p := Xor(beta, elems[0]);
    XorBound(beta, elems[0], DEGREE);
    FirstFactor(factors);
    for i := 1 to |elems|
      invariant p == ProductOf(factors[..i]) && p < ORDER
    {
      XorBound(beta, elems[i], DEGREE);
      OneMoreFactor(factors, i);
      p := Gf128Mul(p, Xor(beta, elems[i]));
    }
    assert factors[..|elems|] == factors;
  }

  /** Two little-endian 64-bit halves hold a field element exactly. */
  lemma {:induction false} HalvesRoundTrip(p: nat)
    requires p < ORDER
    ensures LeNat(LeBytes(Low(p, 64), 8) + LeBytes(Shr(p, 64), 8)) == p
  {
    var h: nat := 64;
    var lo, hi := Low(p, h), Shr(p, h);
    SplitAt(p, h);
    LowBound(p, h);
    ShrBound(p, h, h);
    Pow256IsPow2(8);
    LeReadWrite(lo, 8);
    LeReadWrite(hi, 8);
    LeNatConcat(LeBytes(lo, 8), LeBytes(hi, 8));
  }
}
