/**
  The policy tree and its structural canonicalization: flatten nested AND/OR,
  sort the children of commutative operators by their text, drop duplicates
  where they carry no meaning.

  JavaScript objects are maps with an insertion order. The trees of this module stand for
  maps: their objects hold their entries sorted, so a node's text is its canonical text.
  `PolicyOrder` has the trees with insertion order kept and the key that sorts it away,
  and proves that forgetting the order turns one canonicalization into the other.
 */
module PolicyAst {
  import opened Sorting
  import opened Json
  import opened Options

  datatype Operator =
    | And | Or | Not | Implies | Iff
    | Threshold | WeightedThreshold | Majority
    | Exactly | AtMost | Veto | Nor | Nand | Xor

  /** `k` holds whatever the deprecated `threshold` field held when it was promoted. */
  datatype OperatorParams = OperatorParams(k: Option<Json>, weights: Option<seq<nat>>)

  datatype PolicyNode =
    | Op(op: Operator, children: seq<PolicyNode>, operatorParams: Option<OperatorParams>, weight: Option<nat>)
    | Cond(conditionType: string, conditionParams: seq<Field>, weight: Option<nat>)

  predicate Associative(op: Operator) {
    op == And || op == Or
  }

  predicate Commutative(op: Operator) {
    op == And || op == Or || op == Xor || op == Nand || op == Nor || op == Majority ||
    op == Threshold || op == Exactly || op == AtMost
  }

  predicate DuplicateInsensitive(op: Operator) {
    op == And || op == Or || op == Nand || op == Nor
  }

  predicate Unary(op: Operator) {
    op == Not || op == Veto
  }

  function OperatorName(op: Operator): string {
    match op
    case And => "AND" case Or => "OR" case Not => "NOT" case Implies => "IMPLIES" case Iff => "IFF"
    case Threshold => "THRESHOLD" case WeightedThreshold => "WEIGHTED_THRESHOLD" case Majority => "MAJORITY"
    case Exactly => "EXACTLY" case AtMost => "AT_MOST" case Veto => "VETO"
    case Nor => "NOR" case Nand => "NAND" case Xor => "XOR"
  }

  lemma {:induction false} OperatorNameInjective(a: Operator, b: Operator)
    requires OperatorName(a) == OperatorName(b)
    ensures a == b
  {
    assert |OperatorName(a)| == |OperatorName(b)|;
    assert OperatorName(a)[0] == OperatorName(b)[0];
    assert OperatorName(a)[1] == OperatorName(b)[1];
    assert |OperatorName(a)| > 2 ==> OperatorName(a)[2] == OperatorName(b)[2];
  }

  // ----- the sort key

  function WeightField(weight: Option<nat>): seq<Field> {
    match weight
    case None => []
    case Some(w) => [Field("weight", Number(Decimal(w)))]
  }

  function NatsJson(ws: seq<nat>): (r: seq<Json>)
    ensures |r| == |ws|
  {
    if ws == [] then [] else [Number(Decimal(ws[0]))] + NatsJson(ws[1..])
  }

  function ParamsFields(p: OperatorParams): seq<Field> {
    (match p.k case None => [] case Some(k) => [Field("k", k)]) +
    (match p.weights case None => [] case Some(ws) => [Field("weights", Arr(NatsJson(ws)))])
  }

  function ParamsField(p: Option<OperatorParams>): seq<Field> {
    match p
    case None => []
    case Some(params) => [Field("operatorParams", Obj(ParamsFields(params)))]
  }

  /** The node as a JSON object with its keys in sorted order. */
  function ToJson(n: PolicyNode): Json
    decreases n, 1
  {
    match n
    case Op(op, children, params, weight) =>
      Obj([Field("children", Arr(ToJsonAll(children))), Field("operator", Str(OperatorName(op)))] +
          (ParamsField(params) + ([Field("type", Str("operator"))] + WeightField(weight))))
    case Cond(kind, params, weight) =>
      Obj([Field("conditionParams", Obj(params)), Field("conditionType", Str(kind))] +
          ([Field("type", Str("condition"))] + WeightField(weight)))
  }

  function ToJsonAll(ns: seq<PolicyNode>): (r: seq<Json>)
    ensures |r| == |ns|
    decreases ns, 0
  {
    if ns == [] then [] else [ToJson(ns[0])] + ToJsonAll(ns[1..])
  }

  function NodeKey(n: PolicyNode): string {
    match n.weight
    case None => Render(ToJson(n))
    case Some(w) => Decimal(w) + ("|" + Render(ToJson(n)))
  }

  lemma {:induction false} WeightFieldInjective(v: Option<nat>, w: Option<nat>)
    requires WeightField(v) == WeightField(w)
    ensures v == w
  {
    assert |WeightField(v)| == |WeightField(w)|;
    if v.Some? {
      assert WeightField(v)[0] == WeightField(w)[0];
      DecimalInjective(v.value, w.value);
    }
  }

  lemma {:induction false} NatsJsonInjective(v: seq<nat>, w: seq<nat>)
    requires NatsJson(v) == NatsJson(w)
    ensures v == w
  {
    assert |v| == |NatsJson(v)| == |w|;
    if v != [] {
      assert NatsJson(v)[0] == NatsJson(w)[0];
      DecimalInjective(v[0], w[0]);
      assert NatsJson(v)[1..] == NatsJson(v[1..]) && NatsJson(w)[1..] == NatsJson(w[1..]);
      NatsJsonInjective(v[1..], w[1..]);
    }
  }

  lemma {:induction false} ParamsFieldsInjective(p: OperatorParams, q: OperatorParams)
    requires ParamsFields(p) == ParamsFields(q)
    ensures p == q
  {
    var a, b := ParamsFields(p), ParamsFields(q);
    assert |a| == |b|;
    assert p.k.Some? ==> a[0] == Field("k", p.k.value);
    assert q.k.Some? ==> b[0] == Field("k", q.k.value);
    assert p.weights.Some? ==> a[|a| - 1] == Field("weights", Arr(NatsJson(p.weights.value)));
    assert q.weights.Some? ==> b[|b| - 1] == Field("weights", Arr(NatsJson(q.weights.value)));
    if p.weights.Some? && q.weights.Some? {
      NatsJsonInjective(p.weights.value, q.weights.value);
    }
  }

  lemma {:induction false} ToJsonInjective(a: PolicyNode, b: PolicyNode)
    requires ToJson(a) == ToJson(b)
    ensures a == b
    decreases a, 1
  {
    var f, g := ToJson(a).fields, ToJson(b).fields;
    assert f[0] == g[0] && f[1] == g[1];
    if a.Op? {
      ToJsonAllInjective(a.children, b.children);
      OperatorNameInjective(a.op, b.op);
      var s, t := f[2..], g[2..];
      assert s == ParamsField(a.operatorParams) + ([Field("type", Str("operator"))] + WeightField(a.weight));
      assert t == ParamsField(b.operatorParams) + ([Field("type", Str("operator"))] + WeightField(b.weight));
      assert s[0] == t[0];
      if a.operatorParams.Some? {
        ParamsFieldsInjective(a.operatorParams.value, b.operatorParams.value);
        assert s[2..] == WeightField(a.weight) && t[2..] == WeightField(b.weight);
      } else {
        assert s[1..] == WeightField(a.weight) && t[1..] == WeightField(b.weight);
      }
      WeightFieldInjective(a.weight, b.weight);
    } else {
      assert f[3..] == WeightField(a.weight) && g[3..] == WeightField(b.weight);
      WeightFieldInjective(a.weight, b.weight);
    }
  }

  lemma {:induction false} ToJsonAllInjective(a: seq<PolicyNode>, b: seq<PolicyNode>)
    requires ToJsonAll(a) == ToJsonAll(b)
    ensures a == b
    decreases a, 0
  {
    assert |a| == |ToJsonAll(a)| == |b|;
    if a != [] {
      assert ToJsonAll(a)[0] == ToJsonAll(b)[0];
      ToJsonInjective(a[0], b[0]);
      assert ToJsonAll(a)[1..] == ToJsonAll(a[1..]) && ToJsonAll(b)[1..] == ToJsonAll(b[1..]);
      ToJsonAllInjective(a[1..], b[1..]);
    }
  }

  /** A key opens with a digit exactly when the node carries a weight. */
  lemma {:induction false} KeyStart(n: PolicyNode)
    ensures NodeKey(n)[0] == '{' <==> n.weight.None?
  {
    assert Render(ToJson(n))[0] == '{';
    if n.weight.Some? {
      assert NodeKey(n)[0] == Decimal(n.weight.value)[0];
    }
  }

  lemma {:induction false} StripWeight(v: nat, w: nat, r: string, s: string)
    requires Decimal(v) + ("|" + r) == Decimal(w) + ("|" + s)
    ensures r == s
  {
    ReadNumber(Decimal(v), Decimal(w), "|" + r, "|" + s);
    DropPrefix("|", r, s);
  }

  /** The sort and dedupe key identifies exactly the identical nodes. */
  lemma {:induction false} NodeKeyInjective(a: PolicyNode, b: PolicyNode)
    ensures NodeKey(a) == NodeKey(b) <==> a == b
  {
    if NodeKey(a) == NodeKey(b) {
      KeyStart(a);
      KeyStart(b);
      if a.weight.Some? {
        StripWeight(a.weight.value, b.weight.value, Render(ToJson(a)), Render(ToJson(b)));
      }
      RenderInjective(ToJson(a), ToJson(b));
      ToJsonInjective(a, b);
    }
  }

  lemma {:induction false} KeyIsInjective()
    ensures InjectiveKey(NodeKey)
  {
    forall a, b | NodeKey(a) == NodeKey(b) ensures a == b {
      NodeKeyInjective(a, b);
    }
  }

  // ----- canonicalization of a checked tree, by any key

  function Flatten(op: Operator, ns: seq<PolicyNode>): seq<PolicyNode> {
    if ns == [] then []
    else (if ns[0].Op? && ns[0].op == op then ns[0].children else [ns[0]]) + Flatten(op, ns[1..])
  }

  function Flattened(op: Operator, ns: seq<PolicyNode>): seq<PolicyNode> {
    if Associative(op) then Flatten(op, ns) else ns
  }

  /** What happens to the canonical children of one node. */
  function ArrangeBy(key: PolicyNode -> string, op: Operator, ns: seq<PolicyNode>): seq<PolicyNode> {
    var sorted := if Commutative(op) then Sort(key, Flattened(op, ns)) else Flattened(op, ns);
    if DuplicateInsensitive(op) then Dedup(key, sorted) else sorted
  }

  function Arrange(op: Operator, ns: seq<PolicyNode>): seq<PolicyNode> {
    ArrangeBy(NodeKey, op, ns)
  }

  function Canon(n: PolicyNode): (r: PolicyNode)
    ensures r.Op? <==> n.Op?
    ensures n.Op? ==> r.op == n.op && r.operatorParams == n.operatorParams
    ensures r.weight == n.weight
    decreases n, 1
  {
    match n
    case Op(op, children, params, weight) => Op(op, Arrange(op, CanonAll(children)), params, weight)
    case Cond(_, _, _) => n
  }

  function CanonAll(ns: seq<PolicyNode>): (r: seq<PolicyNode>)
    ensures |r| == |ns|
    ensures forall i :: 0 <= i < |ns| ==> r[i] == Canon(ns[i])
    decreases ns, 0
  {
    if ns == [] then [] else [Canon(ns[0])] + CanonAll(ns[1..])
  }

  /** No AND directly under AND, no OR directly under OR. */
  predicate Flat(op: Operator, ns: seq<PolicyNode>) {
    Associative(op) ==> forall i :: 0 <= i < |ns| ==> !(ns[i].Op? && ns[i].op == op)
  }

  /** The shape every canonical tree has. */
  ghost predicate CanonicalBy(key: PolicyNode -> string, n: PolicyNode)
    decreases n
  {
    n.Op? ==>
      && (forall i :: 0 <= i < |n.children| ==> CanonicalBy(key, n.children[i]))
      && Flat(n.op, n.children)
      && (Commutative(n.op) ==> SortedBy(key, n.children))
      && (DuplicateInsensitive(n.op) ==> StrictBy(key, n.children))
  }

  ghost predicate Canonical(n: PolicyNode) {
    CanonicalBy(NodeKey, n)
  }

  lemma {:induction false} FlattenMembers(op: Operator, ns: seq<PolicyNode>)
    ensures forall x :: x in Flatten(op, ns) <==>
              exists i :: 0 <= i < |ns| && (if ns[i].Op? && ns[i].op == op then x in ns[i].children else x == ns[i])
  {
    if ns != [] {
      FlattenMembers(op, ns[1..]);
      var rest := Flatten(op, ns[1..]);
      var head := if ns[0].Op? && ns[0].op == op then ns[0].children else [ns[0]];
      forall x ensures x in Flatten(op, ns) <==>
                exists i :: 0 <= i < |ns| && (if ns[i].Op? && ns[i].op == op then x in ns[i].children else x == ns[i])
      {
        assert x in Flatten(op, ns) <==> x in head || x in rest;
        if x in rest {
          var i :| 0 <= i < |ns[1..]| && (if ns[1..][i].Op? && ns[1..][i].op == op then x in ns[1..][i].children else x == ns[1..][i]);
          assert ns[i + 1] == ns[1..][i];
        }
        if i :| 0 <= i < |ns| && (if ns[i].Op? && ns[i].op == op then x in ns[i].children else x == ns[i]) {
          if i > 0 {
            assert ns[1..][i - 1] == ns[i];
          }
        }
      }
    }
  }

  /** Arranging keeps the set of flattened children, and the order it promises. */
  lemma {:induction false} ArrangeSpec(op: Operator, ns: seq<PolicyNode>)
    ensures forall x :: x in Arrange(op, ns) <==> x in Flattened(op, ns)
    ensures Commutative(op) ==> SortedBy(NodeKey, Arrange(op, ns))
    ensures DuplicateInsensitive(op) ==> StrictBy(NodeKey, Arrange(op, ns))
    ensures !DuplicateInsensitive(op) ==> multiset(Arrange(op, ns)) == multiset(Flattened(op, ns))
    ensures !Commutative(op) ==> Arrange(op, ns) == ns
  {
    KeyIsInjective();
    var flat := Flattened(op, ns);
    if DuplicateInsensitive(op) {
      SortDedupSpec(NodeKey, flat);
      StrictIsSorted(NodeKey, Arrange(op, ns));
    } else if Commutative(op) {
      SortContents(NodeKey, flat);
      SortSorted(NodeKey, flat);
      SameMembers(Sort(NodeKey, flat), flat);
    }
  }

  /** Arranged children are flattened children in the promised order, whatever the key. */
  lemma {:induction false} ArrangedOrder(key: PolicyNode -> string, op: Operator, ns: seq<PolicyNode>)
    ensures forall x :: x in ArrangeBy(key, op, ns) ==> x in Flattened(op, ns)
    ensures Commutative(op) ==> SortedBy(key, ArrangeBy(key, op, ns))
    ensures DuplicateInsensitive(op) ==> StrictBy(key, ArrangeBy(key, op, ns))
  {
    var flat := Flattened(op, ns);
    if Commutative(op) {
      SortContents(key, flat);
      SortSorted(key, flat);
      SameMembers(Sort(key, flat), flat);
    }
    if DuplicateInsensitive(op) {
      DedupFrom(key, Sort(key, flat));
      DedupStrict(key, Sort(key, flat));
      StrictIsSorted(key, ArrangeBy(key, op, ns));
    }
  }

  /** A flattened child of canonical nodes is canonical, and not of the merged operator. */
  lemma {:induction false} FlattenedCanonical(key: PolicyNode -> string, op: Operator, cs: seq<PolicyNode>, x: PolicyNode)
    requires (forall i :: 0 <= i < |cs| ==> CanonicalBy(key, cs[i])) && x in Flattened(op, cs)
    ensures CanonicalBy(key, x)
    ensures Associative(op) ==> !(x.Op? && x.op == op)
  {
    if Associative(op) {
      FlattenMembers(op, cs);
      var j :| 0 <= j < |cs| && (if cs[j].Op? && cs[j].op == op then x in cs[j].children else x == cs[j]);
      if cs[j].Op? && cs[j].op == op {
        var k :| 0 <= k < |cs[j].children| && cs[j].children[k] == x;
      }
    } else {
      var j :| 0 <= j < |cs| && cs[j] == x;
    }
  }

  lemma {:induction false} ArrangedCanonical(key: PolicyNode -> string, op: Operator, cs: seq<PolicyNode>,
                            p: Option<OperatorParams>, w: Option<nat>)
    requires forall i :: 0 <= i < |cs| ==> CanonicalBy(key, cs[i])
    ensures CanonicalBy(key, Op(op, ArrangeBy(key, op, cs), p, w))
  {
    ArrangedOrder(key, op, cs);
    var rs := ArrangeBy(key, op, cs);
    forall i | 0 <= i < |rs|
      ensures CanonicalBy(key, rs[i])
      ensures Associative(op) ==> !(rs[i].Op? && rs[i].op == op)
    {
      assert rs[i] in rs;
      FlattenedCanonical(key, op, cs, rs[i]);
    }
  }

  lemma {:induction false} CanonIsCanonical(n: PolicyNode)
    ensures Canonical(Canon(n))
  {
    if n.Op? {
      var cs := CanonAll(n.children);
      forall i | 0 <= i < |cs| ensures Canonical(cs[i]) {
        CanonIsCanonical(n.children[i]);
      }
      ArrangedCanonical(NodeKey, n.op, cs, n.operatorParams, n.weight);
    }
  }

  lemma {:induction false} FlattenFlat(op: Operator, ns: seq<PolicyNode>)
    requires forall i :: 0 <= i < |ns| ==> !(ns[i].Op? && ns[i].op == op)
    ensures Flatten(op, ns) == ns
  {
    if ns != [] {
      FlattenFlat(op, ns[1..]);
    }
  }

  /** The children of a canonical node are arranged already. */
  lemma {:induction false} AlreadyArranged(key: PolicyNode -> string, n: PolicyNode)
    requires n.Op? && CanonicalBy(key, n)
    ensures ArrangeBy(key, n.op, n.children) == n.children
  {
    if Associative(n.op) {
      FlattenFlat(n.op, n.children);
    }
    if Commutative(n.op) {
      SortFixpoint(key, n.children);
    }
    if DuplicateInsensitive(n.op) {
      DedupFixpoint(key, n.children);
    }
  }

  /** Canonical trees are exactly the fixpoints. */
  lemma {:induction false} CanonFixpoint(n: PolicyNode)
    ensures Canonical(n) <==> Canon(n) == n
  {
    if Canonical(n) && n.Op? {
      var cs := CanonAll(n.children);
      forall i | 0 <= i < |cs| ensures cs[i] == n.children[i] {
        CanonFixpoint(n.children[i]);
      }
      assert cs == n.children;
      AlreadyArranged(NodeKey, n);
    }
    CanonIsCanonical(n);
  }

  lemma {:induction false} CanonIdempotent(n: PolicyNode)
    ensures Canon(Canon(n)) == Canon(n)
  {
    CanonIsCanonical(n);
    CanonFixpoint(Canon(n));
  }
}
