/**
  The canonicalizer with insertion order kept: objects hold their entries in the order they
  were given, and the sort and dedupe key is the node's canonical text, which sorts the
  entries away. Forgetting the order turns this canonicalizer into the one on maps.
 */
module PolicyOrder {
  import opened Sorting
  import opened Json
  import opened Options
  import opened PolicyAst
  import opened PolicyEquivalence
  import opened PolicyMeaning
  import opened PolicyInput

  /** `nodeSortKey` */
  function SourceKey(n: PolicyNode): string {
    match n.weight
    case None => CanonicalJson(ToJson(n))
    case Some(w) => Decimal(w) + ("|" + CanonicalJson(ToJson(n)))
  }

  /** `canonicalizeNode`, entry order included. */
  function SourceCanonicalize(raw: RawNode): Result<PolicyNode>
    decreases raw, 1
  {
    match raw
    case NotANode => Err(Invalid)
    case RawCond(kind, params, weight, _) => ReadCondition(kind, params, weight)
    case RawOp(name, rawChildren, _, _, _, _) =>
      var op := ParseOperator(name);
      if op.None? then Err(VersionError)
      else if rawChildren == [] then Err(Invalid)
      else if Unary(op.value) && |rawChildren| != 1 then Err(Invalid)
      else
        var children := SourceCanonicalizeAll(rawChildren);
        if children.Err? then Err(children.error)
        else FinishOperator(op.value, ArrangeBy(SourceKey, op.value, children.value), raw)
  }

  function SourceCanonicalizeAll(raws: seq<RawNode>): Result<seq<PolicyNode>>
    decreases raws, 0
  {
    if raws == [] then Ok([])
    else
      var head := SourceCanonicalize(raws[0]);
      if head.Err? then Err(head.error)
      else
        var tail := SourceCanonicalizeAll(raws[1..]);
        if tail.Err? then tail else Ok([head.value] + tail.value)
  }

  // ----- forgetting the order

  function Plain(n: PolicyNode): (r: PolicyNode)
    ensures r.Op? <==> n.Op?
    ensures n.Op? ==> r.op == n.op && |r.children| == |n.children|
    ensures r.weight == n.weight
    decreases n, 1
  {
    match n
    case Cond(kind, params, w) => Cond(kind, Norm(Obj(params)).fields, w)
    case Op(op, children, p, w) => Op(op, PlainAll(children), PlainParams(p), w)
  }

  function PlainAll(ns: seq<PolicyNode>): (r: seq<PolicyNode>)
    ensures |r| == |ns|
    ensures forall i :: 0 <= i < |ns| ==> r[i] == Plain(ns[i])
    decreases ns, 0
  {
    if ns == [] then [] else [Plain(ns[0])] + PlainAll(ns[1..])
  }

  lemma {:induction false} PlainConcat(a: seq<PolicyNode>, b: seq<PolicyNode>)
    ensures PlainAll(a + b) == PlainAll(a) + PlainAll(b)
  {
  }

  // ----- the canonical text of a node

  lemma {:induction false} ChainSorted(fields: seq<Field>)
    requires Ascending(fields)
    ensures SortedBy(KeyOf, fields)
  {
    forall i, j | 0 <= i < j < |fields| ensures !Less(fields[j].key, fields[i].key) {
      ChainLess(fields, i, j);
      if Less(fields[j].key, fields[i].key) {
        LessTransitive(fields[i].key, fields[j].key, fields[i].key);
        LessIrreflexive(fields[i].key);
      }
    }
  }

  lemma {:induction false} ChainLess(fields: seq<Field>, i: nat, j: nat)
    requires Ascending(fields) && i < j < |fields|
    ensures Less(fields[i].key, fields[j].key)
    decreases j
  {
    if i < j - 1 {
      ChainLess(fields, i, j - 1);
      LessTransitive(fields[i].key, fields[j - 1].key, fields[j].key);
    }
  }

  predicate Ascending(fields: seq<Field>) {
    forall i :: 0 <= i < |fields| - 1 ==> Less(fields[i].key, fields[i + 1].key)
  }

  lemma {:induction false} AscendingCons(f: Field, rest: seq<Field>)
    requires Ascending(rest) && (rest != [] ==> Less(f.key, rest[0].key))
    ensures Ascending([f] + rest)
  {
  }

  /** An object with ascending keys is normalized entry by entry. */
  lemma {:induction false} AscendingNorm(fields: seq<Field>)
    requires Ascending(fields)
    ensures Norm(Obj(fields)) == Obj(NormFields(fields))
  {
    ChainSorted(NormFields(fields));
    SortFixpoint(KeyOf, NormFields(fields));
  }

  lemma {:induction false} NormFieldsCons(f: Field, rest: seq<Field>)
    ensures NormFields([f] + rest) == [Field(f.key, Norm(f.value))] + NormFields(rest)
  {
    assert ([f] + rest)[1..] == rest;
  }

  lemma {:induction false} NatsNormal(ws: seq<nat>)
    ensures NormItems(NatsJson(ws)) == NatsJson(ws)
  {
    if ws != [] {
      NatsNormal(ws[1..]);
      assert NatsJson(ws)[1..] == NatsJson(ws[1..]);
    }
  }

  lemma {:induction false} LessFirst(a: string, b: string)
    requires a != "" && b != "" && a[0] < b[0]
    ensures Less(a, b)
  {
  }

  lemma {:induction false} LessExtension(a: string, b: string)
    requires b != ""
    ensures Less(a, a + b)
  {
    if a != "" {
      assert (a + b)[1..] == a[1..] + b;
      LessExtension(a[1..], b);
    }
  }

  lemma {:induction false} LessAfter(p: string, a: string, b: string)
    requires Less(a, b)
    ensures Less(p + a, p + b)
  {
    if p == "" {
      assert p + a == a && p + b == b;
    } else {
      assert (p + a)[1..] == p[1..] + a && (p + b)[1..] == p[1..] + b;
      LessAfter(p[1..], a, b);
    }
  }

  lemma {:induction false} OperatorKeyOrder()
    ensures Less("children", "operator") && Less("operator", "type") && Less("operatorParams", "type")
    ensures Less("operator", "operatorParams")
  {
    LessFirst("children", "operator");
    LessFirst("operator", "type");
    LessFirst("operatorParams", "type");
    LessExtension("operator", "Params");
    assert "operator" + "Params" == "operatorParams";
  }

  lemma {:induction false} ConditionKeyOrder()
    ensures Less("conditionParams", "conditionType") && Less("conditionType", "type")
  {
    LessFirst("conditionType", "type");
    LessFirst("Params", "Type");
    LessAfter("condition", "Params", "Type");
    assert "condition" + "Params" == "conditionParams";
    assert "condition" + "Type" == "conditionType";
  }

  lemma {:induction false} CommonKeyOrder()
    ensures Less("type", "weight") && Less("k", "weights")
  {
    LessFirst("type", "weight");
    LessFirst("k", "weights");
  }

  lemma {:induction false} ParamsText(p: OperatorParams)
    ensures Norm(Obj(ParamsFields(p))) == Obj(ParamsFields(OperatorParams(NormOption(p.k), p.weights)))
  {
    CommonKeyOrder();
    var ws: seq<Field> := match p.weights case None => [] case Some(ws) => [Field("weights", Arr(NatsJson(ws)))];
    if p.weights.Some? {
      NatsNormal(p.weights.value);
      assert ws[1..] == [];
    }
    assert Ascending(ws) && NormFields(ws) == ws;
    match p.k {
      case None => assert ParamsFields(p) == ws;
      case Some(k) =>
        AscendingCons(Field("k", k), ws);
        NormFieldsCons(Field("k", k), ws);
    }
    AscendingNorm(ParamsFields(p));
  }

  /** The last entries of every node. */
  lemma {:induction false} TypeAndWeight(kind: string, weight: Option<nat>)
    ensures var tail := [Field("type", Str(kind))] + WeightField(weight);
            Ascending(tail) && NormFields(tail) == tail && tail[0].key == "type"
  {
    CommonKeyOrder();
    var w := WeightField(weight);
    assert w != [] ==> w[1..] == [];
    assert Ascending(w) && NormFields(w) == w;
    AscendingCons(Field("type", Str(kind)), w);
    NormFieldsCons(Field("type", Str(kind)), w);
  }

  /** Two entries before ascending ones. */
  lemma {:induction false} TwoThen(f: Field, g: Field, rest: seq<Field>)
    requires rest != [] && Ascending(rest) && Less(f.key, g.key) && Less(g.key, rest[0].key)
    ensures Norm(Obj([f, g] + rest)) ==
            Obj([Field(f.key, Norm(f.value)), Field(g.key, Norm(g.value))] + NormFields(rest))
  {
    var most, f', g' := [g] + rest, Field(f.key, Norm(f.value)), Field(g.key, Norm(g.value));
    AscendingCons(g, rest);
    AscendingCons(f, most);
    AscendingNorm([f] + most);
    NormFieldsCons(g, rest);
    NormFieldsCons(f, most);
    TwoFirst(f, g, rest);
    TwoFirst(f', g', NormFields(rest));
  }

  lemma {:induction false} TwoFirst(f: Field, g: Field, rest: seq<Field>)
    ensures [f] + ([g] + rest) == [f, g] + rest
  {
  }

  lemma {:induction false} ConditionText(n: PolicyNode)
    requires n.Cond?
    ensures Norm(ToJson(n)) == ToJson(Plain(n))
  {
    TypeAndWeight("condition", n.weight);
    ConditionKeyOrder();
    TwoThen(Field("conditionParams", Obj(n.conditionParams)), Field("conditionType", Str(n.conditionType)),
            [Field("type", Str("condition"))] + WeightField(n.weight));
  }

  lemma {:induction false} ParamsThenType(params: Option<OperatorParams>, tail: seq<Field>)
    requires tail != [] && tail[0].key == "type" && Ascending(tail) && NormFields(tail) == tail
    ensures var rest := ParamsField(params) + tail;
            && rest != [] && Ascending(rest) && Less("operator", rest[0].key)
            && NormFields(rest) == ParamsField(PlainParams(params)) + tail
  {
    OperatorKeyOrder();
    if params.Some? {
      var f := Field("operatorParams", Obj(ParamsFields(params.value)));
      ParamsText(params.value);
      AscendingCons(f, tail);
      NormFieldsCons(f, tail);
    } else {
      assert ParamsField(params) + tail == tail;
    }
  }

  /** Sorting the entries everywhere in a node's object gives the object of the plain node. */
  lemma {:induction false} NodeText(n: PolicyNode)
    ensures Norm(ToJson(n)) == ToJson(Plain(n))
    decreases n, 1
  {
    if n.Cond? {
      ConditionText(n);
    } else {
      NodeTexts(n.children);
      TypeAndWeight("operator", n.weight);
      var tail := [Field("type", Str("operator"))] + WeightField(n.weight);
      ParamsThenType(n.operatorParams, tail);
      OperatorKeyOrder();
      TwoThen(Field("children", Arr(ToJsonAll(n.children))), Field("operator", Str(OperatorName(n.op))),
              ParamsField(n.operatorParams) + tail);
    }
  }

  lemma {:induction false} NodeTexts(ns: seq<PolicyNode>)
    ensures NormItems(ToJsonAll(ns)) == ToJsonAll(PlainAll(ns))
    decreases ns, 0
  {
    if ns != [] {
      NodeText(ns[0]);
      NodeTexts(ns[1..]);
      assert ToJsonAll(ns)[1..] == ToJsonAll(ns[1..]);
      assert PlainAll(ns)[1..] == PlainAll(ns[1..]);
    }
  }

  /** The key of a node is the key of the plain node. */
  lemma {:induction false} KeyForgets(n: PolicyNode)
    ensures SourceKey(n) == NodeKey(Plain(n))
  {
    NodeText(n);
  }

  /** Keys are equal exactly for nodes that differ in entry order at most. */
  lemma {:induction false} KeyIdentifies(a: PolicyNode, b: PolicyNode)
    ensures SourceKey(a) == SourceKey(b) <==> Plain(a) == Plain(b)
  {
    KeyForgets(a);
    KeyForgets(b);
    NodeKeyInjective(Plain(a), Plain(b));
  }

  /** That is, for nodes equal with objects read as maps. */
  lemma {:induction false} KeyDecidesMeaning(a: PolicyNode, b: PolicyNode)
    requires WellFormed(ToJson(a)) && WellFormed(ToJson(b))
    ensures SourceKey(a) == SourceKey(b) <==> Meaning(ToJson(a)) == Meaning(ToJson(b))
  {
    KeyIdentifies(a, b);
    NodeText(a);
    NodeText(b);
    CanonicalTextDecidesValue(ToJson(a), ToJson(b));
    if Meaning(ToJson(a)) == Meaning(ToJson(b)) {
      RenderInjective(Norm(ToJson(a)), Norm(ToJson(b)));
      ToJsonInjective(Plain(a), Plain(b));
    }
  }

  /** Under AND two conditions that differ in entry order are one; the first stays, in its own order. */
  lemma {:induction false} ReorderedCopyGoes(op: Operator, kind: string, ps: seq<Field>, qs: seq<Field>, w: Option<nat>)
    requires DuplicateInsensitive(op) && WellFormed(Obj(ps)) && WellFormed(Obj(qs)) && Meaning(Obj(ps)) == Meaning(Obj(qs))
    ensures ArrangeBy(SourceKey, op, [Cond(kind, ps, w), Cond(kind, qs, w)]) == [Cond(kind, ps, w)]
  {
    var a, b := Cond(kind, ps, w), Cond(kind, qs, w);
    NormUnique(Obj(ps), Obj(qs));
    assert Plain(a) == Plain(b);
    KeyIdentifies(a, b);
    FlattenFlat(op, [a, b]);
    TwoAlike(SourceKey, a, b);
  }

  lemma {:induction false} TwoAlike<T(!new)>(key: T -> string, a: T, b: T)
    requires key(a) == key(b)
    ensures Dedup(key, Sort(key, [a, b])) == [a]
  {
    LessIrreflexive(key(a));
    assert [a, b][1..] == [b] && [b][1..] == [];
    assert Sort(key, [b]) == [b];
    assert Sort(key, [a, b]) == Insert(key, a, [b]) == [a, b];
    assert [a] + [a, b][2..] == [a];
    assert Dedup(key, [a]) == [a];
  }

  // ----- canonicalizing, then forgetting, is forgetting, then canonicalizing

  lemma {:induction false} FlattenPlain(op: Operator, ns: seq<PolicyNode>)
    ensures PlainAll(Flatten(op, ns)) == Flatten(op, PlainAll(ns))
  {
    if ns != [] {
      var head := if ns[0].Op? && ns[0].op == op then ns[0].children else [ns[0]];
      FlattenPlain(op, ns[1..]);
      PlainConcat(head, Flatten(op, ns[1..]));
      assert PlainAll([ns[0]]) == [Plain(ns[0])];
      assert PlainAll(ns)[1..] == PlainAll(ns[1..]);
    }
  }

  lemma {:induction false} InsertPlain(x: PolicyNode, xs: seq<PolicyNode>)
    ensures PlainAll(Insert(SourceKey, x, xs)) == Insert(NodeKey, Plain(x), PlainAll(xs))
  {
    KeyForgets(x);
    if xs != [] {
      KeyForgets(xs[0]);
      assert PlainAll(xs)[1..] == PlainAll(xs[1..]);
      if Less(SourceKey(xs[0]), SourceKey(x)) {
        InsertPlain(x, xs[1..]);
        PlainConcat([xs[0]], Insert(SourceKey, x, xs[1..]));
      } else {
        PlainConcat([x], xs);
      }
    }
  }

  lemma {:induction false} SortPlain(xs: seq<PolicyNode>)
    ensures PlainAll(Sort(SourceKey, xs)) == Sort(NodeKey, PlainAll(xs))
  {
    if xs != [] {
      assert PlainAll(xs)[1..] == PlainAll(xs[1..]);
      SortPlain(xs[1..]);
      InsertPlain(xs[0], Sort(SourceKey, xs[1..]));
    }
  }

  lemma {:induction false} DedupPlain(xs: seq<PolicyNode>)
    ensures PlainAll(Dedup(SourceKey, xs)) == Dedup(NodeKey, PlainAll(xs))
    decreases |xs|
  {
    if |xs| > 1 {
      KeyForgets(xs[0]);
      KeyForgets(xs[1]);
      if SourceKey(xs[0]) == SourceKey(xs[1]) {
        DedupPlain([xs[0]] + xs[2..]);
        assert PlainAll([xs[0]] + xs[2..]) == [Plain(xs[0])] + PlainAll(xs)[2..];
      } else {
        DedupPlain(xs[1..]);
        PlainConcat([xs[0]], Dedup(SourceKey, xs[1..]));
        assert PlainAll(xs)[1..] == PlainAll(xs[1..]);
      }
    }
  }

  lemma {:induction false} ArrangePlain(op: Operator, ns: seq<PolicyNode>)
    ensures PlainAll(ArrangeBy(SourceKey, op, ns)) == Arrange(op, PlainAll(ns))
  {
    FlattenPlain(op, ns);
    var flat := Flattened(op, ns);
    assert PlainAll(flat) == Flattened(op, PlainAll(ns));
    SortPlain(flat);
    DedupPlain(if Commutative(op) then Sort(SourceKey, flat) else flat);
  }

  function PlainResult(r: Result<PolicyNode>): Result<PolicyNode> {
    match r case Ok(n) => Ok(Plain(n)) case Err(e) => Err(e)
  }

  /** With its order forgotten, the result is that of the canonicalizer on maps; so are the failures. */
  lemma {:induction false} OrderIsForgotten(raw: RawNode)
    ensures PlainResult(SourceCanonicalize(raw)) == Canonicalize(raw)
    decreases raw, 1
  {
    if raw.RawOp? {
      OrdersAreForgotten(raw.children);
      var op, cs := ParseOperator(raw.operator), SourceCanonicalizeAll(raw.children);
      if op.Some? && cs.Ok? {
        FinishPlain(op.value, cs.value, raw);
      }
    }
  }

  lemma {:induction false} FinishPlain(op: Operator, cs: seq<PolicyNode>, raw: RawNode)
    requires raw.RawOp?
    ensures PlainResult(FinishOperator(op, ArrangeBy(SourceKey, op, cs), raw)) ==
            ReadAsMaps(FinishOperator(op, Arrange(op, PlainAll(cs)), raw))
  {
    ArrangePlain(op, cs);
  }

  lemma {:induction false} OrdersAreForgotten(raws: seq<RawNode>)
    ensures CanonicalizeAll(raws) ==
            (match SourceCanonicalizeAll(raws) case Ok(ns) => Ok(PlainAll(ns)) case Err(e) => Err(e))
    decreases raws, 0
  {
    if raws != [] {
      OrderIsForgotten(raws[0]);
      OrdersAreForgotten(raws[1..]);
      if SourceCanonicalize(raws[0]).Ok? && SourceCanonicalizeAll(raws[1..]).Ok? {
        PlainConcat([SourceCanonicalize(raws[0]).value], SourceCanonicalizeAll(raws[1..]).value);
      }
    }
  }

  // ----- how texts open

  /** Texts of nodes without a weight open with their first key, `children` or `conditionParams`. */
  lemma {:induction false} KeyOpens(n: PolicyNode)
    requires n.weight.None?
    ensures var key := NodeKey(n);
            |key| > 3 && key[0] == '{' && key[1] == '"' && key[2] == 'c' && key[3] == (if n.Op? then 'h' else 'o')
  {
    var fields := ToJson(n).fields;
    assert fields[0].key == if n.Op? then "children" else "conditionParams";
    ObjectOpens(fields);
  }

  lemma {:induction false} ObjectOpens(fields: seq<Field>)
    requires fields != [] && |fields[0].key| > 1 && Letter(fields[0].key[0]) && Letter(fields[0].key[1])
    ensures var text := Render(Obj(fields));
            |text| > 3 && text[0] == '{' && text[1] == '"' && text[2] == fields[0].key[0] && text[3] == fields[0].key[1]
  {
    var first := fields[0].key;
    var rest := ":" + (Render(fields[0].value) + RenderFields(fields[1..], false));
    assert Render(Obj(fields)) == "{" + ("" + (Quote(first) + rest));
    QuoteOpens(first);
  }

  predicate Letter(c: char) {
    'a' <= c <= 'z'
  }

  lemma {:induction false} QuoteOpens(s: string)
    requires |s| > 1 && Letter(s[0]) && Letter(s[1])
    ensures |Quote(s)| > 2 && Quote(s)[0] == '"' && Quote(s)[1] == s[0] && Quote(s)[2] == s[1]
  {
    assert Escape(s[0]) == [s[0]] && Escape(s[1]) == [s[1]];
    var t := s[1..];
    assert EscapeAll(s) == [s[0]] + EscapeAll(t) && EscapeAll(t) == [t[0]] + EscapeAll(t[1..]);
  }

  lemma {:induction false} LessFourth(a: string, b: string)
    requires |a| > 3 && |b| > 3 && a[0] == b[0] && a[1] == b[1] && a[2] == b[2] && a[3] < b[3]
    ensures Less(a, b)
  {
    var s, t := a[1..], b[1..];
    assert s[0] == a[1] && s[1] == a[2] && s[2] == a[3] && t[0] == b[1] && t[1] == b[2] && t[2] == b[3];
    LessThird(s, t);
  }

  lemma {:induction false} LessThird(a: string, b: string)
    requires |a| > 2 && |b| > 2 && a[0] == b[0] && a[1] == b[1] && a[2] < b[2]
    ensures Less(a, b)
  {
    assert a[1..][0] == a[1] && b[1..][0] == b[1];
    assert a[1..][1..][0] == a[2] && b[1..][1..][0] == b[2];
    assert Less(a[1..][1..], b[1..][1..]);
    assert Less(a[1..], b[1..]);
  }

  // ----- what carries over

  /** The canonical texts of two results are equal exactly when the inputs read as equivalent trees. */
  lemma {:induction false} TextDecidesEquivalence(x: RawNode, y: RawNode)
    requires SourceCanonicalize(x).Ok? && SourceCanonicalize(y).Ok?
    ensures Read(x).Ok? && Read(y).Ok?
    ensures SourceKey(SourceCanonicalize(x).value) == SourceKey(SourceCanonicalize(y).value) <==>
            Equivalent(Read(x).value, Read(y).value)
  {
    OrderIsForgotten(x);
    OrderIsForgotten(y);
    KeyIdentifies(SourceCanonicalize(x).value, SourceCanonicalize(y).value);
    CanonicalizeDecidesEquivalence(x, y);
  }

  /** The result means what the input meant. */
  lemma {:induction false} ResultKeepsMeaning(raw: RawNode, v: Valuation)
    requires SourceCanonicalize(raw).Ok?
    ensures Read(raw).Ok?
    ensures Eval(Plain(SourceCanonicalize(raw).value), v) == Eval(Read(raw).value, v)
  {
    OrderIsForgotten(raw);
    CanonicalizeIsReadThenCanon(raw);
    CanonKeepsMeaning(Read(raw).value, v);
  }

  /** The result has the canonical shape, by the key the source sorts with. */
  lemma {:induction false} ResultIsCanonical(raw: RawNode)
    requires SourceCanonicalize(raw).Ok?
    ensures CanonicalBy(SourceKey, SourceCanonicalize(raw).value)
    decreases raw, 1
  {
    if raw.RawOp? {
      ResultsAreCanonical(raw.children);
      var op, cs, r := ParseOperator(raw.operator).value, SourceCanonicalizeAll(raw.children).value, SourceCanonicalize(raw).value;
      ArrangedCanonical(SourceKey, op, cs, r.operatorParams, r.weight);
    }
  }

  lemma {:induction false} ResultsAreCanonical(raws: seq<RawNode>)
    requires SourceCanonicalizeAll(raws).Ok?
    ensures var ns := SourceCanonicalizeAll(raws).value; forall i :: 0 <= i < |ns| ==> CanonicalBy(SourceKey, ns[i])
    decreases raws, 0
  {
    if raws != [] {
      ResultIsCanonical(raws[0]);
      ResultsAreCanonical(raws[1..]);
    }
  }

  /**
    An own `__proto__` parameter is lost on the way in, so no text or digest covers it: the
    input is taken for the one without that entry, and the parameters come out as they went
    in exactly when there was no such entry.
   */
  lemma {:induction false} ProtoIsLost(kind: string, fields: seq<Field>, weight: Option<Json>, d: Option<Json>)
    requires SourceCanonicalize(RawCond(kind, Some(Obj(fields)), weight, d)).Ok?
    ensures var r := SourceCanonicalize(RawCond(kind, Some(Obj(fields)), weight, d));
            && r == SourceCanonicalize(RawCond(kind, Some(Obj(Assignable(fields))), weight, d))
            && (r.value.conditionParams == fields <==> NoProto(fields))
  {
    AssignableIff(fields);
    AssignableIff(Assignable(fields));
  }

  // ----- a second pass

  /** The checks of the canonicalizer, `k` apart. */
  ghost predicate PassesChecks(n: PolicyNode)
    decreases n
  {
    && (n.weight.Some? ==> n.weight.value <= MAX_SAFE_INTEGER)
    && (match n
        case Cond(kind, params, _) => kind != "" && NoProto(params)
        case Op(op, children, params, _) =>
          && children != []
          && (Unary(op) ==> |children| == 1)
          && ParamsSafe(params)
          && forall i :: 0 <= i < |children| ==> PassesChecks(children[i]))
  }

  lemma {:induction false} PlainChecks(n: PolicyNode)
    requires Checked(Plain(n))
    ensures PassesChecks(n)
  {
    if n.Op? {
      forall i | 0 <= i < |n.children| ensures PassesChecks(n.children[i]) {
        assert Plain(n).children[i] == Plain(n.children[i]);
        PlainChecks(n.children[i]);
      }
    } else {
      NormNoProto(n.conditionParams);
    }
  }

  lemma {:induction false} PlainKs(n: PolicyNode)
    ensures AllKSafe(Plain(n)) <==> AllKSafe(n)
  {
    if n.Op? {
      forall i | 0 <= i < |n.children| ensures AllKSafe(Plain(n).children[i]) <==> AllKSafe(n.children[i]) {
        PlainKs(n.children[i]);
      }
      assert KSafe(PlainParams(n.operatorParams)) <==> KSafe(n.operatorParams);
    }
  }

  /** A canonical tree goes through unchanged, or has a `k` that the checks refuse. */
  lemma {:induction false} CanonicalPassesThrough(n: PolicyNode)
    requires PassesChecks(n) && CanonicalBy(SourceKey, n)
    ensures SourceCanonicalize(Embed(n)) == if AllKSafe(n) then Ok(n) else Err(Invalid)
    decreases n, 1
  {
    if n.weight.Some? {
      SafeNatDecimal(n.weight.value);
    }
    assert ReadWeight(WeightJson(n.weight)) == Ok(n.weight);
    if n.Op? {
      ParseOperatorName(n.op);
      CanonicalsPassThrough(n.children);
      AlreadyArranged(SourceKey, n);
      if n.operatorParams.Some? {
        ParamsRoundTrip(n.operatorParams.value);
      }
    } else {
      AssignableIff(n.conditionParams);
    }
  }

  lemma {:induction false} CanonicalsPassThrough(ns: seq<PolicyNode>)
    requires forall i :: 0 <= i < |ns| ==> PassesChecks(ns[i]) && CanonicalBy(SourceKey, ns[i])
    ensures SourceCanonicalizeAll(EmbedAll(ns)) == if EachKSafe(ns) then Ok(ns) else Err(Invalid)
    decreases ns, 0
  {
    if ns != [] {
      CanonicalPassesThrough(ns[0]);
      CanonicalsPassThrough(ns[1..]);
      KSafeTail(ns);
      FirstRaw(ns);
      assert ns == [ns[0]] + ns[1..];
    }
  }

  /** One turn of the loop over embedded children. */
  lemma {:induction false} FirstRaw(ns: seq<PolicyNode>)
    requires ns != []
    ensures SourceCanonicalizeAll(EmbedAll(ns)) ==
            var head, tail := SourceCanonicalize(Embed(ns[0])), SourceCanonicalizeAll(EmbedAll(ns[1..]));
            if head.Err? then Err(head.error) else if tail.Err? then tail else Ok([head.value] + tail.value)
  {
    var raws := EmbedAll(ns);
    assert raws[0] == Embed(ns[0]) && raws[1..] == EmbedAll(ns[1..]);
  }

  lemma {:induction false} KSafeTail(ns: seq<PolicyNode>)
    requires ns != []
    ensures EachKSafe(ns) <==> AllKSafe(ns[0]) && EachKSafe(ns[1..])
  {
    assert forall i :: 1 <= i < |ns| ==> ns[i] == ns[1..][i - 1];
  }

  /** The fixpoints are the canonical trees whose every `k` is valid, entry order and all. */
  lemma {:induction false} FixpointIff(n: PolicyNode)
    requires PassesChecks(n)
    ensures SourceCanonicalize(Embed(n)) == Ok(n) <==> CanonicalBy(SourceKey, n) && AllKSafe(n)
  {
    if CanonicalBy(SourceKey, n) {
      CanonicalPassesThrough(n);
    }
    if SourceCanonicalize(Embed(n)) == Ok(n) {
      ResultIsCanonical(Embed(n));
    }
  }

  /** A second pass gives the first result again, to the letter, exactly when every surviving threshold was valid. */
  lemma {:induction false} SecondPassIff(raw: RawNode)
    requires RawWellFormed(raw) && SourceCanonicalize(raw).Ok?
    ensures var once := SourceCanonicalize(raw);
            SourceCanonicalize(Embed(once.value)) == if ThresholdsValid(raw, None) then once else Err(Invalid)
  {
    var n := SourceCanonicalize(raw).value;
    OrderIsForgotten(raw);
    CheckedResult(raw);
    PlainChecks(n);
    PlainKs(n);
    ResultIsCanonical(raw);
    CanonicalPassesThrough(n);
  }

  /** A negative threshold is promoted on the first pass and refused on the second. */
  lemma {:induction false} NegativeThresholdNotIdempotent()
    ensures var raw := RawOp("THRESHOLD", [RawCond("A", None, None, None)], None, Some(Number("-1")), None, None);
            SourceCanonicalize(raw).Ok? && SourceCanonicalize(Embed(SourceCanonicalize(raw).value)) == Err(Invalid)
  {
    var c := RawCond("A", None, None, None);
    var raw := RawOp("THRESHOLD", [c], None, Some(Number("-1")), None, None);
    assert SourceCanonicalize(c) == Ok(Cond("A", [], None));
    assert [c][1..] == [];
    assert SourceCanonicalizeAll([c]).Ok?;
    assert NormalizeParams(None, Some(Number("-1"))).Ok?;
    assert SourceCanonicalize(raw).Ok?;
    assert "-1"[0] == '-';
    assert SafeNat(Number("-1")).None?;
    assert !ThresholdsValid(raw, None);
    SecondPassIff(raw);
  }
}
