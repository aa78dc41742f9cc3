/**
  Structural equivalence of policies, generated by three rewrites anywhere in the
  tree, and the theorem that canonicalization decides it.
 */
module PolicyEquivalence {
  import opened Sorting
  import opened Json
  import opened Options
  import opened PolicyAst

  /** Reorder the children of a commutative operator. */
  ghost predicate Permutes(x: PolicyNode, y: PolicyNode) {
    x.Op? && y.Op? && Commutative(x.op) && y == x.(children := y.children) &&
    multiset(x.children) == multiset(y.children)
  }

  /** Splice the children of an AND under AND (or OR under OR) into the parent. */
  ghost predicate Merges(x: PolicyNode, y: PolicyNode) {
    x.Op? && y.Op? && Associative(x.op) && y == x.(children := y.children) &&
    exists i :: 0 <= i < |x.children| && x.children[i].Op? && x.children[i].op == x.op &&
                y.children == x.children[..i] + x.children[i].children + x.children[i + 1..]
  }

  /** Drop a repeated child of AND, OR, NAND or NOR. */
  ghost predicate DropsCopy(x: PolicyNode, y: PolicyNode) {
    x.Op? && y.Op? && DuplicateInsensitive(x.op) && y == x.(children := y.children) &&
    exists i, j :: 0 <= i < j < |x.children| && x.children[i] == x.children[j] &&
                   y.children == x.children[..j] + x.children[j + 1..]
  }

  /** One rewrite, at the root or inside one child. */
  ghost predicate Step(x: PolicyNode, y: PolicyNode)
    decreases x
  {
    Permutes(x, y) || Merges(x, y) || DropsCopy(x, y) ||
    (x.Op? && y.Op? && |x.children| == |y.children| &&
     exists i :: 0 <= i < |x.children| && Step(x.children[i], y.children[i]) &&
                 y == x.(children := x.children[i := y.children[i]]))
  }

  ghost predicate Link(x: PolicyNode, y: PolicyNode) {
    Step(x, y) || Step(y, x)
  }

  ghost function LinkRelation(): (PolicyNode, PolicyNode) -> bool {
    (x: PolicyNode, y: PolicyNode) => Link(x, y)
  }

  /** Neighbours are related. */
  ghost predicate Linked<T>(related: (T, T) -> bool, p: seq<T>) {
    forall i :: 0 <= i < |p| - 1 ==> related(p[i], p[i + 1])
  }

  ghost predicate Path(p: seq<PolicyNode>, x: PolicyNode, y: PolicyNode) {
    p != [] && p[0] == x && p[|p| - 1] == y && Linked(LinkRelation(), p)
  }

  /** The congruence generated by the rewrites. */
  ghost predicate Equivalent(x: PolicyNode, y: PolicyNode) {
    exists p :: Path(p, x, y)
  }

  // ----- an equivalence relation and a congruence

  lemma {:induction false} EquivalentRefl(x: PolicyNode)
    ensures Equivalent(x, x)
  {
    assert Path([x], x, x);
  }

  lemma {:induction false} EquivalentStep(x: PolicyNode, y: PolicyNode)
    requires Step(x, y)
    ensures Equivalent(x, y)
  {
    assert Link(x, y);
    assert Path([x, y], x, y);
  }

  lemma {:induction false} LinkedJoin<T>(related: (T, T) -> bool, p: seq<T>, q: seq<T>)
    requires p != [] && q != [] && p[|p| - 1] == q[0] && Linked(related, p) && Linked(related, q)
    ensures Linked(related, p + q[1..])
  {
    var r := p + q[1..];
    forall i | 0 <= i < |r| - 1 ensures related(r[i], r[i + 1]) {
      if i < |p| - 1 {
        assert related(p[i], p[i + 1]);
      } else {
        var j := i - (|p| - 1);
        assert r[i] == q[j] && r[i + 1] == q[j + 1];
        assert related(q[j], q[j + 1]);
      }
    }
  }

  lemma {:induction false} LinkedReverse<T(!new)>(related: (T, T) -> bool, p: seq<T>) returns (r: seq<T>)
    requires Linked(related, p) && forall x, y :: related(x, y) ==> related(y, x)
    ensures |r| == |p| && Linked(related, r)
    ensures p != [] ==> r[0] == p[|p| - 1] && r[|r| - 1] == p[0]
  {
    r := seq(|p|, i requires 0 <= i < |p| => p[|p| - 1 - i]);
    forall i | 0 <= i < |r| - 1 ensures related(r[i], r[i + 1]) {
      var j := |p| - 2 - i;
      assert r[i] == p[j + 1] && r[i + 1] == p[j];
      assert related(p[j], p[j + 1]);
    }
  }

  lemma {:induction false} EquivalentTrans(x: PolicyNode, y: PolicyNode, z: PolicyNode)
    requires Equivalent(x, y) && Equivalent(y, z)
    ensures Equivalent(x, z)
  {
    var p :| Path(p, x, y);
    var q :| Path(q, y, z);
    LinkedJoin(LinkRelation(), p, q);
    assert Path(p + q[1..], x, z);
  }

  lemma {:induction false} EquivalentSym(x: PolicyNode, y: PolicyNode)
    requires Equivalent(x, y)
    ensures Equivalent(y, x)
  {
    var p :| Path(p, x, y);
    var r := LinkedReverse(LinkRelation(), p);
    assert Path(r, y, x);
  }

  lemma {:induction false} StepInChild(x: PolicyNode, i: nat, c: PolicyNode, d: PolicyNode)
    requires x.Op? && i < |x.children| && Link(c, d)
    ensures Link(x.(children := x.children[i := c]), x.(children := x.children[i := d]))
  {
    var a, b := x.(children := x.children[i := c]), x.(children := x.children[i := d]);
    assert a.children[i] == c && b.children[i] == d;
    assert b.children == a.children[i := d] && a.children == b.children[i := c];
    assert b == a.(children := a.children[i := b.children[i]]);
    assert a == b.(children := b.children[i := a.children[i]]);
  }

  lemma {:induction false} EquivalentInChild(x: PolicyNode, i: nat, d: PolicyNode)
    requires x.Op? && i < |x.children| && Equivalent(x.children[i], d)
    ensures Equivalent(x, x.(children := x.children[i := d]))
  {
    var p :| Path(p, x.children[i], d);
    var r := seq(|p|, k requires 0 <= k < |p| => x.(children := x.children[i := p[k]]));
    forall k | 0 <= k < |r| - 1 ensures LinkRelation()(r[k], r[k + 1]) {
      assert LinkRelation()(p[k], p[k + 1]);
      StepInChild(x, i, p[k], p[k + 1]);
    }
    assert x.children[i := x.children[i]] == x.children;
    assert Path(r, x, x.(children := x.children[i := d]));
  }

  lemma {:induction false} EquivalentChildren(x: PolicyNode, ds: seq<PolicyNode>, n: nat)
    requires x.Op? && |ds| == |x.children| && n <= |ds|
    requires forall i :: 0 <= i < |ds| ==> Equivalent(x.children[i], ds[i])
    ensures Equivalent(x, x.(children := ds[..n] + x.children[n..]))
    decreases n
  {
    if n == 0 {
      assert ds[..0] + x.children[0..] == x.children;
      EquivalentRefl(x);
    } else {
      EquivalentChildren(x, ds, n - 1);
      var y := x.(children := ds[..n - 1] + x.children[n - 1..]);
      OneMoreChild(x.children, ds, n - 1);
      EquivalentInChild(y, n - 1, ds[n - 1]);
      EquivalentTrans(x, y, x.(children := ds[..n] + x.children[n..]));
    }
  }

  lemma {:induction false} OneMoreChild(cs: seq<PolicyNode>, ds: seq<PolicyNode>, i: nat)
    requires |ds| == |cs| && i < |ds|
    ensures var mixed := ds[..i] + cs[i..];
            mixed[i] == cs[i] && mixed[i := ds[i]] == ds[..i + 1] + cs[i + 1..]
  {
  }

  // ----- canonicalization is reached by rewrites

  lemma {:induction false} EquivalentFlatten(x: PolicyNode, done: seq<PolicyNode>, todo: seq<PolicyNode>)
    requires x.Op? && Associative(x.op) && x.children == done + todo
    ensures Equivalent(x, x.(children := done + Flatten(x.op, todo)))
    decreases |todo|
  {
    if todo == [] {
      assert done + Flatten(x.op, todo) == x.children;
      EquivalentRefl(x);
    } else {
      var head := Spliced(x.op, todo[0]);
      var y := x.(children := done + head + todo[1..]);
      EquivalentSplice(x, done, todo);
      EquivalentFlatten(y, done + head, todo[1..]);
      assert done + head + Flatten(x.op, todo[1..]) == done + Flatten(x.op, todo);
      EquivalentTrans(x, y, x.(children := done + Flatten(x.op, todo)));
    }
  }

  lemma {:induction false} EquivalentSplice(x: PolicyNode, done: seq<PolicyNode>, todo: seq<PolicyNode>)
    requires x.Op? && Associative(x.op) && x.children == done + todo && todo != []
    ensures Equivalent(x, x.(children := done + Spliced(x.op, todo[0]) + todo[1..]))
  {
    var c := todo[0];
    var y := x.(children := done + Spliced(x.op, c) + todo[1..]);
    assert x.children[|done|] == c && x.children[..|done|] == done && x.children[|done| + 1..] == todo[1..];
    if c.Op? && c.op == x.op {
      assert Merges(x, y);
      EquivalentStep(x, y);
    } else {
      assert y.children == x.children;
      EquivalentRefl(x);
    }
  }

  function Spliced(op: Operator, c: PolicyNode): seq<PolicyNode> {
    if c.Op? && c.op == op then c.children else [c]
  }

  lemma {:induction false} EquivalentDropCopy(x: PolicyNode, done: seq<PolicyNode>, c: PolicyNode, rest: seq<PolicyNode>)
    requires x.Op? && DuplicateInsensitive(x.op) && x.children == done + ([c, c] + rest)
    ensures Equivalent(x, x.(children := done + ([c] + rest)))
  {
    var y := x.(children := done + ([c] + rest));
    var j := |done| + 1;
    assert x.children[j - 1] == c && x.children[j] == c;
    assert x.children[..j] == done + [c] && x.children[j + 1..] == rest;
    assert y.children == x.children[..j] + x.children[j + 1..];
    assert DropsCopy(x, y);
    EquivalentStep(x, y);
  }

  lemma {:induction false} EquivalentDedup(x: PolicyNode, done: seq<PolicyNode>, todo: seq<PolicyNode>)
    requires x.Op? && DuplicateInsensitive(x.op) && x.children == done + todo
    ensures Equivalent(x, x.(children := done + Dedup(NodeKey, todo)))
    decreases |todo|
  {
    if |todo| <= 1 {
      EquivalentRefl(x);
    } else if NodeKey(todo[0]) == NodeKey(todo[1]) {
      var c, rest := todo[0], todo[2..];
      assert todo == [c, c] + rest by { NodeKeyInjective(todo[0], todo[1]); }
      EquivalentDropCopy(x, done, c, rest);
      var y := x.(children := done + ([c] + rest));
      EquivalentDedup(y, done, [c] + rest);
      EquivalentTrans(x, y, x.(children := done + Dedup(NodeKey, todo)));
    } else {
      Shifted(done, todo[0], todo[1..]);
      Shifted(done, todo[0], Dedup(NodeKey, todo[1..]));
      assert todo == [todo[0]] + todo[1..];
      EquivalentDedup(x, done + [todo[0]], todo[1..]);
    }
  }

  lemma {:induction false} Shifted(done: seq<PolicyNode>, c: PolicyNode, rest: seq<PolicyNode>)
    ensures done + [c] + rest == done + ([c] + rest)
  {
  }

  lemma {:induction false} EquivalentFlattened(x: PolicyNode)
    requires x.Op?
    ensures Equivalent(x, x.(children := Flattened(x.op, x.children)))
  {
    if Associative(x.op) {
      assert x.children == [] + x.children;
      EquivalentFlatten(x, [], x.children);
      assert [] + Flatten(x.op, x.children) == Flatten(x.op, x.children);
    } else {
      EquivalentRefl(x);
    }
  }

  lemma {:induction false} EquivalentSorted(x: PolicyNode)
    requires x.Op? && Commutative(x.op)
    ensures Equivalent(x, x.(children := Sort(NodeKey, x.children)))
  {
    SortContents(NodeKey, x.children);
    var y := x.(children := Sort(NodeKey, x.children));
    assert Permutes(x, y);
    EquivalentStep(x, y);
  }

  lemma {:induction false} EquivalentDeduped(x: PolicyNode)
    requires x.Op? && DuplicateInsensitive(x.op)
    ensures Equivalent(x, x.(children := Dedup(NodeKey, x.children)))
  {
    assert x.children == [] + x.children;
    EquivalentDedup(x, [], x.children);
    assert [] + Dedup(NodeKey, x.children) == Dedup(NodeKey, x.children);
  }

  lemma {:induction false} EquivalentArrange(x: PolicyNode)
    requires x.Op?
    ensures Equivalent(x, x.(children := Arrange(x.op, x.children)))
  {
    var y := x.(children := Flattened(x.op, x.children));
    EquivalentFlattened(x);
    if Commutative(x.op) {
      EquivalentSorted(y);
      var z := y.(children := Sort(NodeKey, y.children));
      EquivalentTrans(x, y, z);
      if DuplicateInsensitive(x.op) {
        EquivalentDeduped(z);
        EquivalentTrans(x, z, z.(children := Dedup(NodeKey, z.children)));
      }
    }
  }

  /** Every policy is equivalent to its canonical form. */
  lemma {:induction false} EquivalentCanon(x: PolicyNode)
    ensures Equivalent(x, Canon(x))
  {
    if x.Op? {
      var cs := CanonAll(x.children);
      forall i | 0 <= i < |cs| ensures Equivalent(x.children[i], cs[i]) {
        EquivalentCanon(x.children[i]);
      }
      EquivalentChildren(x, cs, |cs|);
      assert cs[..|cs|] + x.children[|cs|..] == cs;
      var y := x.(children := cs);
      EquivalentArrange(y);
      EquivalentTrans(x, y, Canon(x));
    } else {
      EquivalentRefl(x);
    }
  }

  // ----- rewrites do not change the canonical form

  lemma {:induction false} CanonAllConcat(xs: seq<PolicyNode>, ys: seq<PolicyNode>)
    ensures CanonAll(xs + ys) == CanonAll(xs) + CanonAll(ys)
  {
    if xs == [] {
      assert xs + ys == ys;
    } else {
      assert (xs + ys)[1..] == xs[1..] + ys;
      CanonAllConcat(xs[1..], ys);
    }
  }

  lemma {:induction false} CanonAllAround(a: seq<PolicyNode>, c: PolicyNode, b: seq<PolicyNode>)
    ensures CanonAll(a + ([c] + b)) == CanonAll(a) + ([Canon(c)] + CanonAll(b))
  {
    CanonAllConcat(a, [c] + b);
    CanonAllConcat([c], b);
    assert CanonAll([c]) == [Canon(c)];
  }

  lemma {:induction false} FlattenAround(op: Operator, a: seq<PolicyNode>, c: PolicyNode, b: seq<PolicyNode>)
    ensures Flatten(op, a + ([c] + b)) == Flatten(op, a) + (Spliced(op, c) + Flatten(op, b))
  {
    FlattenConcat(op, a, [c] + b);
    FlattenConcat(op, [c], b);
    assert [c][1..] == [];
    assert Flatten(op, [c]) == Spliced(op, c) + [];
  }

  /** The same element put into two rearranged sequences. */
  lemma {:induction false} MultisetAround<T>(xs: seq<T>, c: seq<T>, a: seq<T>, b: seq<T>)
    requires multiset(xs) == multiset(a + b)
    ensures multiset(c + xs) == multiset(a + (c + b))
  {
    assert multiset(a + (c + b)) == multiset(a) + multiset(c) + multiset(b);
  }

  lemma {:induction false} FlattenConcat(op: Operator, xs: seq<PolicyNode>, ys: seq<PolicyNode>)
    ensures Flatten(op, xs + ys) == Flatten(op, xs) + Flatten(op, ys)
    decreases |xs|
  {
    if xs == [] {
      assert xs + ys == ys;
    } else {
      assert (xs + ys)[1..] == xs[1..] + ys;
      FlattenConcat(op, xs[1..], ys);
    }
  }

  lemma {:induction false} EmptyContents<T>(xs: seq<T>)
    requires multiset(xs) == multiset{}
    ensures xs == []
  {
    assert |multiset(xs)| == |xs|;
  }

  predicate Maps<T, U(==)>(f: T -> U, xs: seq<T>, us: seq<U>) {
    |us| == |xs| && forall i :: 0 <= i < |xs| ==> us[i] == f(xs[i])
  }

  /** The images of rearranged elements are rearranged images. */
  lemma {:induction false} MappedPermutation<T(!new), U>(f: T -> U, xs: seq<T>, us: seq<U>, ys: seq<T>, vs: seq<U>)
    requires Maps(f, xs, us) && Maps(f, ys, vs) && multiset(xs) == multiset(ys)
    ensures multiset(us) == multiset(vs)
    decreases |xs|
  {
    if xs == [] {
      EmptyContents(ys);
    } else {
      var i, rest := PullOut(xs, ys);
      var a, b := vs[..i], vs[i + 1..];
      MappedPermutation(f, xs[1..], us[1..], rest, a + b);
      MultisetAround(us[1..], [us[0]], a, b);
      assert us == [us[0]] + us[1..] && vs == a + ([vs[i]] + b);
    }
  }

  lemma {:induction false} CanonAllPermutation(xs: seq<PolicyNode>, ys: seq<PolicyNode>)
    requires multiset(xs) == multiset(ys)
    ensures multiset(CanonAll(xs)) == multiset(CanonAll(ys))
  {
    MappedPermutation((n: PolicyNode) => Canon(n), xs, CanonAll(xs), ys, CanonAll(ys));
  }

  lemma {:induction false} FlattenPermutation(op: Operator, xs: seq<PolicyNode>, ys: seq<PolicyNode>)
    requires multiset(xs) == multiset(ys)
    ensures multiset(Flatten(op, xs)) == multiset(Flatten(op, ys))
    decreases |xs|
  {
    if xs == [] {
      EmptyContents(ys);
    } else {
      var i, rest := PullOut(xs, ys);
      var c, a, b := xs[0], ys[..i], ys[i + 1..];
      FlattenPermutation(op, xs[1..], rest);
      assert ys == a + ([c] + b);
      FlattenAround(op, a, c, b);
      FlattenConcat(op, a, b);
      MultisetAround(Flatten(op, xs[1..]), Spliced(op, c), Flatten(op, a), Flatten(op, b));
    }
  }

  lemma {:induction false} ArrangePermutation(op: Operator, xs: seq<PolicyNode>, ys: seq<PolicyNode>)
    requires Commutative(op) && multiset(xs) == multiset(ys)
    ensures Arrange(op, xs) == Arrange(op, ys)
  {
    KeyIsInjective();
    if Associative(op) {
      FlattenPermutation(op, xs, ys);
    }
    SortPermutation(NodeKey, Flattened(op, xs), Flattened(op, ys));
  }

  /** Where repetition carries no meaning only the set of flattened children counts. */
  lemma {:induction false} ArrangeSet(op: Operator, xs: seq<PolicyNode>, ys: seq<PolicyNode>)
    requires DuplicateInsensitive(op)
    requires forall x :: x in Flattened(op, xs) <==> x in Flattened(op, ys)
    ensures Arrange(op, xs) == Arrange(op, ys)
  {
    KeyIsInjective();
    SortDedupSet(NodeKey, Flattened(op, xs), Flattened(op, ys));
  }

  lemma {:induction false} CanonPermutes(x: PolicyNode, y: PolicyNode)
    requires Permutes(x, y)
    ensures Canon(x) == Canon(y)
  {
    CanonAllPermutation(x.children, y.children);
    ArrangePermutation(x.op, CanonAll(x.children), CanonAll(y.children));
  }

  lemma {:induction false} CanonMerges(x: PolicyNode, y: PolicyNode)
    requires Merges(x, y)
    ensures Canon(x) == Canon(y)
  {
    var i :| 0 <= i < |x.children| && x.children[i].Op? && x.children[i].op == x.op &&
             y.children == x.children[..i] + x.children[i].children + x.children[i + 1..];
    var c, a, b := x.children[i], x.children[..i], x.children[i + 1..];
    assert x.children == a + ([c] + b);
    CanonAllAround(a, c, b);
    CanonAllConcat(a + c.children, b);
    CanonAllConcat(a, c.children);
    MergedArrange(x.op, CanonAll(a), c, CanonAll(b));
  }

  lemma {:induction false} MergedArrange(op: Operator, a: seq<PolicyNode>, c: PolicyNode, b: seq<PolicyNode>)
    requires Associative(op) && c.Op? && c.op == op
    ensures Arrange(op, a + ([Canon(c)] + b)) == Arrange(op, a + CanonAll(c.children) + b)
  {
    var ds := CanonAll(c.children);
    FlattenAround(op, a, Canon(c), b);
    FlattenConcat(op, a + ds, b);
    FlattenConcat(op, a, ds);
    ArrangeSpec(op, ds);
    assert Spliced(op, Canon(c)) == Arrange(op, ds);
    ArrangeSet(op, a + ([Canon(c)] + b), a + ds + b);
  }

  lemma {:induction false} CanonDropsCopy(x: PolicyNode, y: PolicyNode)
    requires DropsCopy(x, y)
    ensures Canon(x) == Canon(y)
  {
    var i, j :| 0 <= i < j < |x.children| && x.children[i] == x.children[j] &&
                y.children == x.children[..j] + x.children[j + 1..];
    AroundCopy(x.children, j);
    CopyArrange(x.op, x.children[..j], x.children[j], x.children[j + 1..], i);
  }

  lemma {:induction false} AroundCopy(xs: seq<PolicyNode>, j: nat)
    requires j < |xs|
    ensures xs == xs[..j] + ([xs[j]] + xs[j + 1..])
  {
  }

  lemma {:induction false} CopyArrange(op: Operator, a: seq<PolicyNode>, c: PolicyNode, b: seq<PolicyNode>, i: nat)
    requires DuplicateInsensitive(op) && i < |a| && a[i] == c
    ensures Arrange(op, CanonAll(a + ([c] + b))) == Arrange(op, CanonAll(a + b))
  {
    CanonAllAround(a, c, b);
    CanonAllConcat(a, b);
    SameFlattened(op, CanonAll(a), Canon(c), CanonAll(b), i);
    ArrangeSet(op, CanonAll(a) + ([Canon(c)] + CanonAll(b)), CanonAll(a) + CanonAll(b));
  }

  lemma {:induction false} SameFlattened(op: Operator, a: seq<PolicyNode>, c: PolicyNode, b: seq<PolicyNode>, i: nat)
    requires i < |a| && a[i] == c
    ensures forall x :: x in Flattened(op, a + ([c] + b)) <==> x in Flattened(op, a + b)
  {
    if Associative(op) {
      FlattenAround(op, a, c, b);
      FlattenConcat(op, a, b);
      assert a == a[..i] + ([c] + a[i + 1..]);
      FlattenAround(op, a[..i], c, a[i + 1..]);
    }
  }

  lemma {:induction false} CanonInChild(x: PolicyNode, i: nat, d: PolicyNode)
    requires x.Op? && i < |x.children| && Canon(x.children[i]) == Canon(d)
    ensures Canon(x) == Canon(x.(children := x.children[i := d]))
  {
    var ds := x.children[i := d];
    forall k | 0 <= k < |ds| ensures CanonAll(ds)[k] == CanonAll(x.children)[k] {
    }
    assert CanonAll(ds) == CanonAll(x.children);
  }

  lemma {:induction false} CanonStep(x: PolicyNode, y: PolicyNode)
    requires Step(x, y)
    ensures Canon(x) == Canon(y)
    decreases x
  {
    if Permutes(x, y) {
      CanonPermutes(x, y);
    } else if Merges(x, y) {
      CanonMerges(x, y);
    } else if DropsCopy(x, y) {
      CanonDropsCopy(x, y);
    } else {
      var i :| 0 <= i < |x.children| && Step(x.children[i], y.children[i]) &&
               y == x.(children := x.children[i := y.children[i]]);
      CanonStep(x.children[i], y.children[i]);
      CanonInChild(x, i, y.children[i]);
    }
  }

  lemma {:induction false} CanonPath(p: seq<PolicyNode>, x: PolicyNode, y: PolicyNode)
    requires Path(p, x, y)
    ensures Canon(x) == Canon(y)
    decreases |p|
  {
    if |p| > 1 {
      assert Link(p[0], p[1]);
      if Step(p[0], p[1]) {
        CanonStep(p[0], p[1]);
      } else {
        CanonStep(p[1], p[0]);
      }
      forall i | 0 <= i < |p[1..]| - 1 ensures Link(p[1..][i], p[1..][i + 1]) {
        assert Link(p[i + 1], p[i + 2]);
      }
      CanonPath(p[1..], p[1], y);
    }
  }

  /** Canonicalization decides structural equivalence. */
  lemma {:induction false} CanonDecidesEquivalence(x: PolicyNode, y: PolicyNode)
    ensures Equivalent(x, y) <==> Canon(x) == Canon(y)
  {
    if Equivalent(x, y) {
      var p :| Path(p, x, y);
      CanonPath(p, x, y);
    }
    if Canon(x) == Canon(y) {
      EquivalentCanon(x);
      EquivalentCanon(y);
      EquivalentSym(y, Canon(y));
      EquivalentTrans(x, Canon(x), y);
    }
  }
}
