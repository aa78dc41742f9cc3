/**
  The operators told by which children hold.
 */
module PolicyMeaningFacts {
  import opened Json
  import opened Options
  import opened PolicyAst
  import opened PolicyMeaning

  /** The children that hold. */
  function Holding(bs: seq<bool>): set<nat> {
    set i: nat | i < |bs| && bs[i]
  }

  lemma {:induction false} HoldingIs(bs: seq<bool>)
    ensures |Holding(bs)| == multiset(bs)[true] <= |bs|
    ensures multiset(bs)[false] == |bs| - |Holding(bs)|
  {
    if bs == [] {
      assert Holding(bs) == {};
    } else {
      var n := |bs| - 1;
      var front := bs[..n];
      HoldingIs(front);
      assert bs == front + [bs[n]];
      assert Holding(bs) == Holding(front) + (if bs[n] then {n} else {});
    }
  }

  /** The operators that count: of n children, c hold. */
  lemma {:induction false} CountingOperators(op: Operator, p: Option<OperatorParams>, bs: seq<bool>, own: seq<Option<nat>>)
    requires |bs| == |own|
    ensures var n, c, holds := |bs|, |Holding(bs)|, Operate(op, p, bs, own);
            && (op == And ==> (holds <==> c == n)) && (op == Nand ==> (holds <==> c < n))
            && (op == Or ==> (holds <==> c > 0)) && (op == Nor ==> (holds <==> c == 0))
            && (op == Operator.Xor ==> (holds <==> c == 1)) && (op == Majority ==> (holds <==> c > n - c))
  {
    HoldingIs(bs);
  }

  /** The operators with a k: a k that is no number satisfies none of them. */
  lemma {:induction false} ThresholdOperators(op: Operator, k: Json, weights: Option<seq<nat>>, bs: seq<bool>, own: seq<Option<nat>>)
    requires |bs| == |own| && (op == Operator.Threshold || op == Exactly || op == AtMost)
    ensures var c, holds := |Holding(bs)|, Operate(op, Some(OperatorParams(Some(k), weights)), bs, own);
            && (SafeNat(k).None? ==> !holds)
            && (forall m :: SafeNat(k) == Some(m) ==>
                 && (op == Operator.Threshold ==> (holds <==> c >= m)) && (op == Exactly ==> (holds <==> c == m))
                 && (op == AtMost ==> (holds <==> c <= m)))
            && !Operate(op, None, bs, own) && !Operate(op, Some(OperatorParams(None, weights)), bs, own)
  {
    HoldingIs(bs);
  }

  /** The operators whose children have places. */
  lemma {:induction false} PlacedOperators(p: Option<OperatorParams>, x: bool, y: bool, v: Option<nat>, w: Option<nat>)
    ensures Operate(Not, p, [x], [v]) == !x
    ensures Operate(Implies, p, [x, y], [v, w]) == (!x || y)
    ensures Operate(Iff, p, [x, y], [v, w]) == (x == y)
    ensures Operate(Veto, p, [x], [v]) == !x && Operate(Veto, p, [x, y], [v, w]) == (!x && y)
  {
    assert [x][1..] == [] && [x, y][1..] == [y];
  }

  /** The weight of a child: its entry in the list, else its own, else nothing. */
  lemma {:induction false} OneChildWeighs(p: Option<OperatorParams>, bs: seq<bool>, own: seq<Option<nat>>, i: nat)
    requires |bs| == |own| && i < |bs| && forall j :: 0 <= j < |bs| ==> (bs[j] <==> j == i)
    ensures WeightSum(p, bs, own) ==
            match p
            case Some(OperatorParams(_, Some(ws))) => if i < |ws| then ws[i] else (match own[i] case Some(w) => w case None => 0)
            case _ => (match own[i] case Some(w) => w case None => 0)
  {
    var n := |bs| - 1;
    if i < n {
      OneChildWeighs(p, bs[..n], own[..n], i);
    } else {
      NoneWeighs(p, bs[..n], own[..n]);
    }
  }

  lemma {:induction false} NoneWeighs(p: Option<OperatorParams>, bs: seq<bool>, own: seq<Option<nat>>)
    requires |bs| == |own| && forall j :: 0 <= j < |bs| ==> !bs[j]
    ensures WeightSum(p, bs, own) == 0
  {
    if bs != [] {
      NoneWeighs(p, bs[..|bs| - 1], own[..|bs| - 1]);
    }
  }

  /** Weights add up: of children held by one of two disjoint selections, the sum of both. */
  lemma {:induction false} WeightsAdd(p: Option<OperatorParams>, xs: seq<bool>, ys: seq<bool>, both: seq<bool>, own: seq<Option<nat>>)
    requires |xs| == |ys| == |both| == |own|
    requires forall j :: 0 <= j < |xs| ==> !(xs[j] && ys[j]) && (both[j] <==> xs[j] || ys[j])
    ensures WeightSum(p, both, own) == WeightSum(p, xs, own) + WeightSum(p, ys, own)
  {
    if xs != [] {
      var n := |xs| - 1;
      WeightsAdd(p, xs[..n], ys[..n], both[..n], own[..n]);
    }
  }

  /** A weighted threshold asks for a sum of at least k. */
  lemma {:induction false} WeightedOperator(k: Json, weights: Option<seq<nat>>, bs: seq<bool>, own: seq<Option<nat>>)
    requires |bs| == |own|
    ensures var p := Some(OperatorParams(Some(k), weights));
            Operate(WeightedThreshold, p, bs, own) <==> exists m :: SafeNat(k) == Some(m) && WeightSum(p, bs, own) >= m
  {
  }
}
