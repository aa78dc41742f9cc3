/**
  What a policy means: the truth value of a tree under a valuation of its
  conditions, and the theorem that canonicalization never changes it.
 */
module PolicyMeaning {
  import opened Sorting
  import opened Json
  import opened Options
  import opened PolicyAst
  import opened PolicyEquivalence

  /** Which conditions hold. */
  type Valuation = (string, seq<Field>) -> bool

  function Threshold(p: Option<OperatorParams>): Option<nat> {
    if p.Some? && p.value.k.Some? then SafeNat(p.value.k.value) else None
  }

  /** The weight of child i: its entry in the list, else its own weight. */
  function ChildWeight(p: Option<OperatorParams>, i: nat, own: Option<nat>): nat {
    if p.Some? && p.value.weights.Some? && i < |p.value.weights.value| then p.value.weights.value[i]
    else if own.Some? then own.value
    else 0
  }

  function WeightSum(p: Option<OperatorParams>, bs: seq<bool>, own: seq<Option<nat>>): nat
    requires |bs| == |own|
  {
    if bs == [] then 0
    else
      var i := |bs| - 1;
      WeightSum(p, bs[..i], own[..i]) + (if bs[i] then ChildWeight(p, i, own[i]) else 0)
  }

  /** The 14 operators over the truth values of the children, in order. */
  predicate Operate(op: Operator, p: Option<OperatorParams>, bs: seq<bool>, own: seq<Option<nat>>)
    requires |bs| == |own|
  {
    var holding := multiset(bs)[true];
    var k := Threshold(p);
    match op
    case And => false !in bs
    case Or => true in bs
    case Nand => false in bs
    case Nor => true !in bs
    case Xor => holding == 1
    case Majority => 2 * holding > |bs|
    case Threshold => k.Some? && holding >= k.value
    case Exactly => k.Some? && holding == k.value
    case AtMost => k.Some? && holding <= k.value
    case WeightedThreshold => k.Some? && WeightSum(p, bs, own) >= k.value
    case Not => |bs| > 0 && !bs[0]
    case Veto => |bs| > 0 && !bs[0] && false !in bs[1..]
    case Implies => |bs| > 1 && (bs[0] ==> bs[1])
    case Iff => |bs| > 1 && (bs[0] <==> bs[1])
  }

  function Eval(n: PolicyNode, v: Valuation): bool
    decreases n, 1
  {
    match n
    case Cond(kind, params, _) => v(kind, params)
    case Op(op, children, p, _) => Operate(op, p, EvalAll(children, v), OwnWeights(children))
  }

  function EvalAll(ns: seq<PolicyNode>, v: Valuation): (bs: seq<bool>)
    ensures |bs| == |ns|
    decreases ns, 0
  {
    if ns == [] then [] else [Eval(ns[0], v)] + EvalAll(ns[1..], v)
  }

  function OwnWeights(ns: seq<PolicyNode>): (ws: seq<Option<nat>>)
    ensures |ws| == |ns|
  {
    if ns == [] then [] else [ns[0].weight] + OwnWeights(ns[1..])
  }

  lemma {:induction false} EvalAllAt(ns: seq<PolicyNode>, v: Valuation, i: nat)
    requires i < |ns|
    ensures EvalAll(ns, v)[i] == Eval(ns[i], v)
    decreases ns
  {
    if i > 0 {
      EvalAllAt(ns[1..], v, i - 1);
    }
  }

  lemma {:induction false} EvalAllConcat(xs: seq<PolicyNode>, ys: seq<PolicyNode>, v: Valuation)
    ensures EvalAll(xs + ys, v) == EvalAll(xs, v) + EvalAll(ys, v)
    decreases xs
  {
    if xs == [] {
      assert xs + ys == ys;
    } else {
      assert (xs + ys)[1..] == xs[1..] + ys;
      EvalAllConcat(xs[1..], ys, v);
    }
  }

  lemma {:induction false} EvalAllAround(a: seq<PolicyNode>, c: PolicyNode, b: seq<PolicyNode>, v: Valuation)
    ensures EvalAll(a + ([c] + b), v) == EvalAll(a, v) + ([Eval(c, v)] + EvalAll(b, v))
  {
    EvalAllConcat(a, [c] + b, v);
    EvalAllConcat([c], b, v);
    assert [c][1..] == [];
    assert EvalAll([c], v) == [Eval(c, v)];
  }

  /** Reordering children reorders their values. */
  lemma {:induction false} EvalAllPermutation(xs: seq<PolicyNode>, ys: seq<PolicyNode>, v: Valuation)
    requires multiset(xs) == multiset(ys)
    ensures multiset(EvalAll(xs, v)) == multiset(EvalAll(ys, v))
    decreases |xs|
  {
    if xs == [] {
      EmptyContents(ys);
    } else {
      var i, rest := PullOut(xs, ys);
      var c, a, b := xs[0], ys[..i], ys[i + 1..];
      EvalAllPermutation(xs[1..], rest, v);
      assert ys == a + ([c] + b);
      EvalAllAround(a, c, b, v);
      EvalAllConcat(a, b, v);
      MultisetAround(EvalAll(xs[1..], v), [Eval(c, v)], EvalAll(a, v), EvalAll(b, v));
    }
  }

  lemma {:induction false} EvalAllMember(ns: seq<PolicyNode>, v: Valuation, b: bool)
    ensures b in EvalAll(ns, v) <==> exists n :: n in ns && Eval(n, v) == b
  {
    if b in EvalAll(ns, v) {
      var i :| 0 <= i < |ns| && EvalAll(ns, v)[i] == b;
      EvalAllAt(ns, v, i);
      assert ns[i] in ns;
    }
    if n :| n in ns && Eval(n, v) == b {
      var i :| 0 <= i < |ns| && ns[i] == n;
      EvalAllAt(ns, v, i);
    }
  }

  /** Splicing an AND into an AND keeps "some child fails"; an OR into an OR keeps "some child holds". */
  lemma {:induction false} FlattenKeepsDeciding(op: Operator, ns: seq<PolicyNode>, v: Valuation)
    requires Associative(op)
    ensures (op == Or) in EvalAll(Flatten(op, ns), v) <==> (op == Or) in EvalAll(ns, v)
  {
    var b := op == Or;
    FlattenMembers(op, ns);
    EvalAllMember(Flatten(op, ns), v, b);
    EvalAllMember(ns, v, b);
    if x :| x in Flatten(op, ns) && Eval(x, v) == b {
      var i :| 0 <= i < |ns| && (if ns[i].Op? && ns[i].op == op then x in ns[i].children else x == ns[i]);
      if ns[i].Op? && ns[i].op == op {
        EvalAllMember(ns[i].children, v, b);
      }
      assert ns[i] in ns && Eval(ns[i], v) == b;
    }
    if n :| n in ns && Eval(n, v) == b {
      var i :| 0 <= i < |ns| && ns[i] == n;
      if n.Op? && n.op == op {
        EvalAllMember(n.children, v, b);
        var x :| x in n.children && Eval(x, v) == b;
        assert x in Flatten(op, ns);
      } else {
        assert n in Flatten(op, ns);
      }
    }
  }

  lemma {:induction false} SameMemberValues(xs: seq<PolicyNode>, ys: seq<PolicyNode>, v: Valuation, b: bool)
    requires forall x :: x in xs <==> x in ys
    ensures b in EvalAll(xs, v) <==> b in EvalAll(ys, v)
  {
    EvalAllMember(xs, v, b);
    EvalAllMember(ys, v, b);
  }

  /** Flattening, sorting and deduplicating the children leaves the operator's value alone. */
  lemma {:induction false} ArrangeKeepsValue(op: Operator, p: Option<OperatorParams>, ns: seq<PolicyNode>, v: Valuation)
    ensures Operate(op, p, EvalAll(Arrange(op, ns), v), OwnWeights(Arrange(op, ns))) ==
            Operate(op, p, EvalAll(ns, v), OwnWeights(ns))
  {
    var rs := Arrange(op, ns);
    if DuplicateInsensitive(op) {
      ArrangeKeepsDeciding(op, ns, v);
      DecidedAlike(op, p, EvalAll(rs, v), OwnWeights(rs), EvalAll(ns, v), OwnWeights(ns));
    } else {
      ArrangeKeepsCounts(op, ns, v);
      if Commutative(op) {
        CountedAlike(op, p, EvalAll(rs, v), OwnWeights(rs), EvalAll(ns, v), OwnWeights(ns));
      }
    }
  }

  lemma {:induction false} DecidedAlike(op: Operator, p: Option<OperatorParams>, bs: seq<bool>, own: seq<Option<nat>>,
                            cs: seq<bool>, own': seq<Option<nat>>)
    requires DuplicateInsensitive(op) && |bs| == |own| && |cs| == |own'|
    requires var b := op == Or || op == Nor; b in bs <==> b in cs
    ensures Operate(op, p, bs, own) == Operate(op, p, cs, own')
  {
  }

  lemma {:induction false} CountedAlike(op: Operator, p: Option<OperatorParams>, bs: seq<bool>, own: seq<Option<nat>>,
                            cs: seq<bool>, own': seq<Option<nat>>)
    requires Commutative(op) && !DuplicateInsensitive(op) && |bs| == |own| && |cs| == |own'|
    requires multiset(bs) == multiset(cs) && |bs| == |cs|
    ensures Operate(op, p, bs, own) == Operate(op, p, cs, own')
  {
  }

  /** AND, OR, NAND and NOR ask whether a deciding value occurs. */
  lemma {:induction false} ArrangeKeepsDeciding(op: Operator, ns: seq<PolicyNode>, v: Valuation)
    requires DuplicateInsensitive(op)
    ensures var b := op == Or || op == Nor; b in EvalAll(Arrange(op, ns), v) <==> b in EvalAll(ns, v)
  {
    var b := op == Or || op == Nor;
    ArrangeSpec(op, ns);
    SameMemberValues(Arrange(op, ns), Flattened(op, ns), v, b);
    if Associative(op) {
      FlattenKeepsDeciding(op, ns, v);
    }
  }

  /** The other commutative operators count; the rest keep their children as they are. */
  lemma {:induction false} ArrangeKeepsCounts(op: Operator, ns: seq<PolicyNode>, v: Valuation)
    requires !DuplicateInsensitive(op)
    ensures !Commutative(op) ==> Arrange(op, ns) == ns
    ensures |Arrange(op, ns)| == |ns|
    ensures multiset(EvalAll(Arrange(op, ns), v)) == multiset(EvalAll(ns, v))
  {
    ArrangeSpec(op, ns);
    if Commutative(op) {
      EvalAllPermutation(Arrange(op, ns), ns, v);
      assert |multiset(EvalAll(Arrange(op, ns), v))| == |Arrange(op, ns)| && |multiset(EvalAll(ns, v))| == |ns|;
    }
  }

  /** Canonicalization preserves meaning. */
  lemma {:induction false} CanonKeepsMeaning(n: PolicyNode, v: Valuation)
    ensures Eval(Canon(n), v) == Eval(n, v)
    decreases n, 1
  {
    if n.Op? {
      CanonAllKeepsMeaning(n.children, v);
      ArrangeKeepsValue(n.op, n.operatorParams, CanonAll(n.children), v);
    }
  }

  lemma {:induction false} CanonAllKeepsMeaning(ns: seq<PolicyNode>, v: Valuation)
    ensures EvalAll(CanonAll(ns), v) == EvalAll(ns, v)
    ensures OwnWeights(CanonAll(ns)) == OwnWeights(ns)
    decreases ns, 0
  {
    if ns != [] {
      CanonKeepsMeaning(ns[0], v);
      CanonAllKeepsMeaning(ns[1..], v);
      assert CanonAll(ns)[1..] == CanonAll(ns[1..]);
    }
  }

  /** Structurally equivalent policies mean the same. */
  lemma {:induction false} EquivalentSameMeaning(x: PolicyNode, y: PolicyNode, v: Valuation)
    requires Equivalent(x, y)
    ensures Eval(x, v) == Eval(y, v)
  {
    CanonDecidesEquivalence(x, y);
    CanonKeepsMeaning(x, v);
    CanonKeepsMeaning(y, v);
  }

  /**
    Dedup must stop at the four operators it is limited to: dropping a copy
    changes the value of every other commutative operator.
   */
  lemma {:induction false} CopyMattersXor(a: PolicyNode, v: Valuation)
    requires Eval(a, v)
    ensures !Eval(Op(Xor, [a] + [a], None, None), v) && Eval(Op(Xor, [a], None, None), v)
  {
    EvalAllShort(a, v);
    EvalAllConcat([a], [a], v);
    assert multiset([true])[true] == 1;
    assert multiset([true] + [true])[true] == 2;
  }

  lemma {:induction false} CopyMattersMajority(a: PolicyNode, b: PolicyNode, v: Valuation)
    requires Eval(a, v) && !Eval(b, v)
    ensures Eval(Op(Majority, [a] + [b] + [a], None, None), v) && !Eval(Op(Majority, [a] + [b], None, None), v)
  {
    TwoOfThree(a, b, v);
  }

  lemma {:induction false} TwoOfThree(a: PolicyNode, b: PolicyNode, v: Valuation)
    requires Eval(a, v) && !Eval(b, v)
    ensures |EvalAll([a] + [b], v)| == 2 && multiset(EvalAll([a] + [b], v))[true] == 1
    ensures |EvalAll([a] + [b] + [a], v)| == 3 && multiset(EvalAll([a] + [b] + [a], v))[true] == 2
  {
    EvalAllShort(a, v);
    EvalAllShort(b, v);
    EvalAllConcat([a], [b], v);
    EvalAllConcat([a] + [b], [a], v);
    assert multiset([true] + [false])[true] == 1;
    assert multiset([true] + [false] + [true])[true] == 2;
  }

  lemma {:induction false} CopyMattersCounted(op: Operator, a: PolicyNode, b: PolicyNode, v: Valuation)
    requires op == PolicyAst.Threshold || op == Exactly || op == AtMost
    requires Eval(a, v) && !Eval(b, v)
    ensures var k := Some(OperatorParams(Some(Number(Decimal(if op == AtMost then 1 else 2))), None));
            Eval(Op(op, [a] + [b] + [a], k, None), v) != Eval(Op(op, [a] + [b], k, None), v)
  {
    SafeNatDecimal(if op == AtMost then 1 else 2);
    TwoOfThree(a, b, v);
  }

  lemma {:induction false} EvalAllShort(a: PolicyNode, v: Valuation)
    ensures EvalAll([a], v) == [Eval(a, v)]
  {
    assert [a][1..] == [];
  }
}
