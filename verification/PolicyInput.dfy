/**
  From parsed JSON to the canonical tree: the checks of the canonicalizer, the
  promotion of the deprecated `threshold`, and when a second pass is the identity.
 */
module PolicyInput {
  import opened Sorting
  import opened Json
  import opened Options
  import opened PolicyAst
  import opened PolicyEquivalence

  /**
    The fields the canonicalizer looks up in an input object; every other key is
    ignored. A `children` that is missing or no array reads as the empty list,
    which is refused in the same way.
   */
  datatype RawNode =
    | RawOp(operator: string, children: seq<RawNode>, operatorParams: Option<Json>,
            threshold: Option<Json>, weight: Option<Json>, description: Option<Json>)
    | RawCond(conditionType: string, conditionParams: Option<Json>,
              weight: Option<Json>, description: Option<Json>)
    | NotANode

  datatype Failure = VersionError | Invalid

  datatype Result<T> = Ok(value: T) | Err(error: Failure)

  function ParseOperator(name: string): (r: Option<Operator>)
    ensures r.Some? ==> OperatorName(r.value) == name
  {
    if name == "AND" then Some(And) else if name == "OR" then Some(Or) else if name == "NOT" then Some(Not)
    else if name == "IMPLIES" then Some(Implies) else if name == "IFF" then Some(Iff)
    else if name == "THRESHOLD" then Some(PolicyAst.Threshold)
    else if name == "WEIGHTED_THRESHOLD" then Some(WeightedThreshold)
    else if name == "MAJORITY" then Some(Majority) else if name == "EXACTLY" then Some(Exactly)
    else if name == "AT_MOST" then Some(AtMost) else if name == "VETO" then Some(Veto)
    else if name == "NOR" then Some(Nor) else if name == "NAND" then Some(Nand)
    else if name == "XOR" then Some(Xor) else None
  }

  lemma {:induction false} ParseOperatorName(op: Operator)
    ensures ParseOperator(OperatorName(op)) == Some(op)
  {
  }

  // ----- operator parameters

  function IndexFields(items: seq<Json>): seq<Field> {
    seq(|items|, i requires 0 <= i < |items| => Field(Decimal(i), items[i]))
  }

  /** `params ? { ...params } : undefined` on an arbitrary JSON value. */
  function Spread(v: Option<Json>): Option<seq<Field>> {
    match v
    case None => None
    case Some(Null) => None
    case Some(Bool(b)) => if b then Some([]) else None
    case Some(Number(text)) => if text == "0" then None else Some([])
    case Some(Str(s)) => if s == "" then None else Some(seq(|s|, i requires 0 <= i < |s| => Field(Decimal(i), Str([s[i]]))))
    case Some(Arr(items)) => Some(IndexFields(items))
    case Some(Obj(fields)) => Some(fields)
  }

  function Lookup(fields: seq<Field>, key: string): Option<Json> {
    if fields == [] then None
    else if fields[0].key == key then Some(fields[0].value)
    else Lookup(fields[1..], key)
  }

  function SafeNats(items: seq<Json>): (r: Option<seq<nat>>)
    ensures r.Some? ==> items == NatsJson(r.value) && SafeAll(r.value)
  {
    if items == [] then Some([])
    else
      var head, tail := SafeNat(items[0]), SafeNats(items[1..]);
      if head.Some? && tail.Some? then
        var ws := [head.value] + tail.value;
        assert ws[1..] == tail.value;
        assert items == [items[0]] + items[1..];
        Some(ws)
      else None
  }

  predicate SafeAll(ws: seq<nat>) {
    forall i :: 0 <= i < |ws| ==> ws[i] <= MAX_SAFE_INTEGER
  }

  /** Objects stand for maps here: their entries are held sorted. */
  function NormOption(v: Option<Json>): Option<Json> {
    match v
    case None => None
    case Some(j) => Some(Norm(j))
  }

  /** `normalizeOperatorParams`: validate, then promote a deprecated threshold unchecked. */
  function NormalizeParams(raw: Option<Json>, threshold: Option<Json>): Result<Option<OperatorParams>> {
    var fields := Spread(raw);
    if fields.None? then
      Ok(if threshold.None? then None else Some(OperatorParams(threshold, None)))
    else
      var k, weights := Lookup(fields.value, "k"), Lookup(fields.value, "weights");
      if k.Some? && SafeNat(k.value).None? then Err(Invalid)
      else if weights.Some? && !(weights.value.Arr? && SafeNats(weights.value.items).Some?) then Err(Invalid)
      else if exists i :: 0 <= i < |fields.value| && fields.value[i].key !in ["k", "weights"] then Err(Invalid)
      else if k.Some? && threshold.Some? && k != threshold then Err(Invalid)
      else Ok(Some(OperatorParams(if k.Some? then k else threshold,
                                  if weights.Some? then SafeNats(weights.value.items) else None)))
  }

  function ReadWeight(weight: Option<Json>): Result<Option<nat>> {
    match weight
    case None => Ok(None)
    case Some(w) => var n := SafeNat(w); if n.Some? then Ok(n) else Err(Invalid)
  }

  /** What assigning the entries to an empty object leaves in it. */
  function Assignable(fields: seq<Field>): (r: seq<Field>)
    ensures forall f :: f in r <==> f in fields && f.key != PROTO
  {
    if fields == [] then []
    else (if fields[0].key == PROTO then [] else [fields[0]]) + Assignable(fields[1..])
  }

  predicate NoProto(fields: seq<Field>) {
    forall i :: 0 <= i < |fields| ==> fields[i].key != PROTO
  }

  /** Assigning keeps the entries exactly when none of them is the prototype's. */
  lemma {:induction false} AssignableIff(fields: seq<Field>)
    ensures Assignable(fields) == fields <==> NoProto(fields)
    ensures NoProto(Assignable(fields))
    ensures |Assignable(fields)| <= |fields|
  {
    if fields != [] {
      AssignableIff(fields[1..]);
      assert fields == [fields[0]] + fields[1..];
    }
  }

  lemma {:induction false} AssignableWellFormed(fields: seq<Field>)
    requires WellFormed(Obj(fields))
    ensures WellFormed(Obj(Assignable(fields)))
  {
    var r := Assignable(fields);
    forall i | 0 <= i < |r| ensures WellFormed(r[i].value) {
      assert r[i] in r;
    }
    AssignableDistinct(fields);
  }

  lemma {:induction false} AssignableDistinct(fields: seq<Field>)
    requires DistinctKeys(fields)
    ensures DistinctKeys(Assignable(fields))
  {
    if fields != [] {
      AssignableDistinct(fields[1..]);
      var rest := Assignable(fields[1..]);
      forall j | 0 <= j < |rest| ensures rest[j].key != fields[0].key {
        assert rest[j] in rest;
      }
    }
  }

  /** Normalizing an object keeps its keys. */
  lemma {:induction false} NormNoProto(fields: seq<Field>)
    ensures NoProto(Norm(Obj(fields)).fields) <==> NoProto(fields)
  {
    var xs := NormFields(fields);
    var ys := Sort(KeyOf, xs);
    SortContents(KeyOf, xs);
    SameMembers(ys, xs);
    if NoProto(ys) {
      forall i | 0 <= i < |fields| ensures fields[i].key != PROTO {
        assert xs[i] in ys;
      }
    }
    if NoProto(fields) {
      forall j | 0 <= j < |ys| ensures ys[j].key != PROTO {
        assert ys[j] in xs;
      }
    }
  }

  function ReadConditionParams(params: Option<Json>): Result<seq<Field>> {
    match params
    case None => Ok([])
    case Some(Obj(fields)) => Ok(Assignable(fields))
    case Some(_) => Err(Invalid)
  }

  function ReadCondition(kind: string, params: Option<Json>, weight: Option<Json>): Result<PolicyNode> {
    if kind == "" then Err(Invalid)
    else
      var ps := ReadConditionParams(params);
      if ps.Err? then Err(ps.error)
      else
        var w := ReadWeight(weight);
        if w.Err? then Err(w.error) else Ok(Cond(kind, ps.value, w.value))
  }

  function FinishOperator(op: Operator, children: seq<PolicyNode>, raw: RawNode): Result<PolicyNode>
    requires raw.RawOp?
  {
    var params := NormalizeParams(raw.operatorParams, raw.threshold);
    if params.Err? then Err(params.error)
    else
      var w := ReadWeight(raw.weight);
      if w.Err? then Err(w.error) else Ok(Op(op, children, params.value, w.value))
  }

  /** The node with its own objects read as maps. */
  function ReadAsMaps(r: Result<PolicyNode>): Result<PolicyNode> {
    match r
    case Err(e) => Err(e)
    case Ok(Cond(kind, params, w)) => Ok(Cond(kind, Norm(Obj(params)).fields, w))
    case Ok(Op(op, children, p, w)) => Ok(Op(op, children, PlainParams(p), w))
  }

  function PlainParams(p: Option<OperatorParams>): Option<OperatorParams> {
    match p
    case None => None
    case Some(q) => Some(OperatorParams(NormOption(q.k), q.weights))
  }

  /** `canonicalizeNode`: check, canonicalize the children, arrange them, normalize the parameters. */
  function Canonicalize(raw: RawNode): Result<PolicyNode>
    decreases raw, 1
  {
    match raw
    case NotANode => Err(Invalid)
    case RawCond(kind, params, weight, _) => ReadAsMaps(ReadCondition(kind, params, weight))
    case RawOp(name, rawChildren, _, _, _, _) =>
      var op := ParseOperator(name);
      if op.None? then Err(VersionError)
      else if rawChildren == [] then Err(Invalid)
      else if Unary(op.value) && |rawChildren| != 1 then Err(Invalid)
      else
        var children := CanonicalizeAll(rawChildren);
        if children.Err? then Err(children.error)
        else ReadAsMaps(FinishOperator(op.value, Arrange(op.value, children.value), raw))
  }

  function CanonicalizeAll(raws: seq<RawNode>): Result<seq<PolicyNode>>
    decreases raws, 0
  {
    if raws == [] then Ok([])
    else
      var head := Canonicalize(raws[0]);
      if head.Err? then Err(head.error)
      else
        var tail := CanonicalizeAll(raws[1..]);
        if tail.Err? then tail else Ok([head.value] + tail.value)
  }

  // ----- the same input read as a tree, nothing rearranged

  function Read(raw: RawNode): Result<PolicyNode>
    decreases raw, 1
  {
    match raw
    case NotANode => Err(Invalid)
    case RawCond(kind, params, weight, _) => ReadAsMaps(ReadCondition(kind, params, weight))
    case RawOp(name, rawChildren, _, _, _, _) =>
      var op := ParseOperator(name);
      if op.None? then Err(VersionError)
      else if rawChildren == [] then Err(Invalid)
      else if Unary(op.value) && |rawChildren| != 1 then Err(Invalid)
      else
        var children := ReadAll(rawChildren);
        if children.Err? then Err(children.error)
        else ReadAsMaps(FinishOperator(op.value, children.value, raw))
  }

  function ReadAll(raws: seq<RawNode>): (r: Result<seq<PolicyNode>>)
    ensures r.Ok? ==> |r.value| == |raws|
    decreases raws, 0
  {
    if raws == [] then Ok([])
    else
      var head := Read(raws[0]);
      if head.Err? then Err(head.error)
      else
        var tail := ReadAll(raws[1..]);
        if tail.Err? then tail else Ok([head.value] + tail.value)
  }

  /** The one-pass canonicalizer is reading followed by `Canon`, failures included. */
  lemma {:induction false} CanonicalizeIsReadThenCanon(raw: RawNode)
    ensures Canonicalize(raw) == (match Read(raw) case Ok(n) => Ok(Canon(n)) case Err(e) => Err(e))
    decreases raw, 1
  {
    if raw.RawOp? {
      CanonicalizeAllIsRead(raw.children);
    }
  }

  lemma {:induction false} CanonicalizeAllIsRead(raws: seq<RawNode>)
    ensures CanonicalizeAll(raws) == (match ReadAll(raws) case Ok(ns) => Ok(CanonAll(ns)) case Err(e) => Err(e))
    decreases raws, 0
  {
    if raws != [] {
      CanonicalizeIsReadThenCanon(raws[0]);
      CanonicalizeAllIsRead(raws[1..]);
      if Read(raws[0]).Ok? && ReadAll(raws[1..]).Ok? {
        var a, b := Read(raws[0]).value, ReadAll(raws[1..]).value;
        assert ([a] + b)[1..] == b;
      }
    }
  }

  /** Two accepted inputs have one canonical form exactly when they read as equivalent trees. */
  lemma {:induction false} CanonicalizeDecidesEquivalence(x: RawNode, y: RawNode)
    requires Canonicalize(x).Ok? && Canonicalize(y).Ok?
    ensures Read(x).Ok? && Read(y).Ok?
    ensures Canonicalize(x) == Canonicalize(y) <==> Equivalent(Read(x).value, Read(y).value)
  {
    CanonicalizeIsReadThenCanon(x);
    CanonicalizeIsReadThenCanon(y);
    CanonDecidesEquivalence(Read(x).value, Read(y).value);
  }

  /** Descriptions never matter, and a threshold may stand beside or instead of an equal `k`. */
  lemma {:induction false} DeprecatedSpellings(name: string, children: seq<RawNode>, weight: Option<Json>, k: Json,
                            d: Option<Json>, d': Option<Json>)
    requires SafeNat(k).Some?
    ensures var inParams := Canonicalize(RawOp(name, children, Some(Obj([Field("k", k)])), None, weight, d));
            && Canonicalize(RawOp(name, children, None, Some(k), weight, d')) == inParams
            && Canonicalize(RawOp(name, children, Some(Obj([Field("k", k)])), Some(k), weight, d')) == inParams
  {
    var fields := [Field("k", k)];
    assert fields[1..] == [];
    assert Lookup(fields, "k") == Some(k) && Lookup(fields, "weights") == None;
    var p := Some(Obj(fields));
    assert NormalizeParams(p, None) == Ok(Some(OperatorParams(Some(k), None)));
    assert NormalizeParams(p, Some(k)) == Ok(Some(OperatorParams(Some(k), None)));
    assert NormalizeParams(None, Some(k)) == Ok(Some(OperatorParams(Some(k), None)));
  }

  // ----- feeding the canonical tree back in

  function WeightJson(weight: Option<nat>): Option<Json> {
    match weight
    case None => None
    case Some(w) => Some(Number(Decimal(w)))
  }

  function Embed(n: PolicyNode): RawNode
    decreases n, 1
  {
    match n
    case Cond(kind, params, weight) => RawCond(kind, Some(Obj(params)), WeightJson(weight), None)
    case Op(op, children, params, weight) =>
      RawOp(OperatorName(op), EmbedAll(children),
            (match params case None => None case Some(p) => Some(Obj(ParamsFields(p)))),
            None, WeightJson(weight), None)
  }

  function EmbedAll(ns: seq<PolicyNode>): (r: seq<RawNode>)
    ensures |r| == |ns|
    decreases ns, 0
  {
    if ns == [] then [] else [Embed(ns[0])] + EmbedAll(ns[1..])
  }

  predicate ParamsSafe(p: Option<OperatorParams>) {
    p.Some? && p.value.weights.Some? ==> SafeAll(p.value.weights.value)
  }

  predicate KSafe(p: Option<OperatorParams>) {
    p.Some? && p.value.k.Some? ==> SafeNat(p.value.k.value).Some?
  }

  /** What the checks guarantee of every tree they let through. */
  ghost predicate Checked(n: PolicyNode)
    decreases n
  {
    && (n.weight.Some? ==> n.weight.value <= MAX_SAFE_INTEGER)
    && (match n
        case Cond(kind, params, _) =>
          kind != "" && NoProto(params) && WellFormed(Obj(params)) && Norm(Obj(params)) == Obj(params)
        case Op(op, children, params, _) =>
          && children != []
          && (Unary(op) ==> |children| == 1)
          && ParamsSafe(params)
          && (params.Some? ==> params.value.k == NormOption(params.value.k))
          && forall i :: 0 <= i < |children| ==> Checked(children[i]))
  }

  /** Every `k` in the tree is a non-negative safe integer. */
  ghost predicate AllKSafe(n: PolicyNode)
    decreases n
  {
    n.Op? ==> KSafe(n.operatorParams) && forall i :: 0 <= i < |n.children| ==> AllKSafe(n.children[i])
  }

  /** JSON objects in the input have each key once. */
  ghost predicate RawWellFormed(raw: RawNode)
    decreases raw
  {
    match raw
    case NotANode => true
    case RawCond(_, params, _, _) => params.Some? ==> WellFormed(params.value)
    case RawOp(_, children, _, threshold, _, _) =>
      && (threshold.Some? ==> WellFormed(threshold.value))
      && forall i :: 0 <= i < |children| ==> RawWellFormed(children[i])
  }

  lemma {:induction false} ReadIsChecked(raw: RawNode)
    requires RawWellFormed(raw) && Read(raw).Ok?
    ensures Checked(Read(raw).value)
    decreases raw, 1
  {
    match raw {
      case NotANode =>
      case RawCond(kind, params, weight, _) =>
        if params.Some? {
          var kept := Assignable(params.value.fields);
          AssignableIff(params.value.fields);
          AssignableWellFormed(params.value.fields);
          NormNoProto(kept);
          NormKeepsMeaning(Obj(kept));
          NormIdempotent(Obj(kept));
        } else {
          assert Norm(Obj([])) == Obj([]);
        }
      case RawOp(name, children, _, threshold, _, _) =>
        ReadAllChecked(children);
        if threshold.Some? {
          NormIdempotent(threshold.value);
        }
    }
  }

  lemma {:induction false} ReadAllChecked(raws: seq<RawNode>)
    requires (forall i :: 0 <= i < |raws| ==> RawWellFormed(raws[i])) && ReadAll(raws).Ok?
    ensures forall i :: 0 <= i < |raws| ==> Checked(ReadAll(raws).value[i])
    decreases raws, 0
  {
    if raws != [] {
      ReadIsChecked(raws[0]);
      ReadAllChecked(raws[1..]);
    }
  }

  lemma {:induction false} ParamsRoundTrip(p: OperatorParams)
    requires ParamsSafe(Some(p))
    ensures NormalizeParams(Some(Obj(ParamsFields(p))), None) ==
            if KSafe(Some(p)) then Ok(Some(p)) else Err(Invalid)
  {
    var fields := ParamsFields(p);
    ParamsLookup(p);
    assert forall i :: 0 <= i < |fields| ==> fields[i].key in ["k", "weights"];
    if p.weights.Some? {
      SafeNatsRoundTrip(p.weights.value);
    }
  }

  lemma {:induction false} ParamsLookup(p: OperatorParams)
    ensures Lookup(ParamsFields(p), "k") == p.k
    ensures Lookup(ParamsFields(p), "weights") ==
            (match p.weights case None => None case Some(ws) => Some(Arr(NatsJson(ws))))
  {
    var fields := ParamsFields(p);
    if |fields| > 0 {
      assert Lookup(fields, "k") == if fields[0].key == "k" then Some(fields[0].value) else Lookup(fields[1..], "k");
      assert fields[1..] == [] || fields[1..][1..] == [];
    }
  }

  lemma {:induction false} SafeNatsRoundTrip(ws: seq<nat>)
    requires SafeAll(ws)
    ensures SafeNats(NatsJson(ws)) == Some(ws)
  {
    if ws != [] {
      SafeNatDecimal(ws[0]);
      SafeNatsRoundTrip(ws[1..]);
      var js := NatsJson(ws);
      assert js[0] == Number(Decimal(ws[0])) && js[1..] == NatsJson(ws[1..]);
      assert SafeNats(js) == Some([ws[0]] + ws[1..]);
      assert ws == [ws[0]] + ws[1..];
    }
  }

  /** Reading a checked tree back gives the tree, exactly when every `k` is valid. */
  lemma {:induction false} ReadEmbed(n: PolicyNode)
    requires Checked(n)
    ensures Read(Embed(n)) == if AllKSafe(n) then Ok(n) else Err(Invalid)
    decreases n, 1
  {
    if n.weight.Some? {
      SafeNatDecimal(n.weight.value);
    }
    assert ReadWeight(WeightJson(n.weight)) == Ok(n.weight);
    if n.Op? {
      ParseOperatorName(n.op);
      ReadEmbedAll(n.children);
      if n.operatorParams.Some? {
        ParamsRoundTrip(n.operatorParams.value);
      }
    } else {
      AssignableIff(n.conditionParams);
    }
  }

  ghost predicate EachKSafe(ns: seq<PolicyNode>) {
    forall i :: 0 <= i < |ns| ==> AllKSafe(ns[i])
  }

  ghost predicate EachChecked(ns: seq<PolicyNode>) {
    forall i :: 0 <= i < |ns| ==> Checked(ns[i])
  }

  lemma {:induction false} ReadEmbedAll(ns: seq<PolicyNode>)
    requires EachChecked(ns)
    ensures ReadAll(EmbedAll(ns)) == if EachKSafe(ns) then Ok(ns) else Err(Invalid)
    decreases ns, 0
  {
    if ns != [] {
      ReadEmbed(ns[0]);
      EachTail(ns);
      ReadEmbedAll(ns[1..]);
      ReadFirst(ns);
      assert ns == [ns[0]] + ns[1..];
    }
  }

  lemma {:induction false} ReadFirst(ns: seq<PolicyNode>)
    requires ns != []
    ensures ReadAll(EmbedAll(ns)) ==
            var head, tail := Read(Embed(ns[0])), ReadAll(EmbedAll(ns[1..]));
            if head.Err? then Err(head.error) else if tail.Err? then tail else Ok([head.value] + tail.value)
  {
    var raws := EmbedAll(ns);
    assert raws[0] == Embed(ns[0]) && raws[1..] == EmbedAll(ns[1..]);
  }

  lemma {:induction false} EachTail(ns: seq<PolicyNode>)
    requires ns != [] && EachChecked(ns)
    ensures EachChecked(ns[1..])
    ensures EachKSafe(ns) <==> AllKSafe(ns[0]) && EachKSafe(ns[1..])
  {
    if AllKSafe(ns[0]) && EachKSafe(ns[1..]) {
      forall i | 0 <= i < |ns| ensures AllKSafe(ns[i]) {
        if i > 0 {
          assert ns[i] == ns[1..][i - 1];
        }
      }
    }
  }

  /** A property of nodes that survives taking members from a checked child list. */
  lemma {:induction false} CanonIsChecked(n: PolicyNode)
    requires Checked(n)
    ensures Checked(Canon(n))
    decreases n, 1
  {
    if n.Op? {
      var cs := CanonAll(n.children);
      forall i | 0 <= i < |cs| ensures Checked(cs[i]) {
        CanonIsChecked(n.children[i]);
      }
      ArrangeMembers(n.op, cs);
      forall x | x in Arrange(n.op, cs) ensures Checked(x) {
        FromMember(n.op, cs, x);
      }
      ArrangeNonEmpty(n.op, cs);
    }
  }

  /** Where an arranged child comes from. */
  predicate ComesFrom(op: Operator, c: PolicyNode, x: PolicyNode) {
    if Associative(op) && c.Op? && c.op == op then x in c.children else x == c
  }

  lemma {:induction false} ArrangeMembers(op: Operator, ns: seq<PolicyNode>)
    ensures forall x :: x in Arrange(op, ns) <==> exists i :: 0 <= i < |ns| && ComesFrom(op, ns[i], x)
  {
    ArrangeSpec(op, ns);
    if Associative(op) {
      FlattenMembers(op, ns);
      forall x ensures x in Arrange(op, ns) <==> exists i :: 0 <= i < |ns| && ComesFrom(op, ns[i], x) {
        if x in Flatten(op, ns) {
          var i :| 0 <= i < |ns| && (if ns[i].Op? && ns[i].op == op then x in ns[i].children else x == ns[i]);
          assert ComesFrom(op, ns[i], x);
        }
      }
    } else {
      forall x ensures x in Arrange(op, ns) <==> exists i :: 0 <= i < |ns| && ComesFrom(op, ns[i], x) {
        if x in ns {
          var i :| 0 <= i < |ns| && ns[i] == x;
          assert ComesFrom(op, ns[i], x);
        }
      }
    }
  }

  lemma {:induction false} FromMember(op: Operator, ns: seq<PolicyNode>, x: PolicyNode)
    requires forall i :: 0 <= i < |ns| ==> Checked(ns[i])
    requires x in Arrange(op, ns)
    ensures Checked(x)
  {
    ArrangeMembers(op, ns);
    var i :| 0 <= i < |ns| && ComesFrom(op, ns[i], x);
    if x != ns[i] {
      var j :| 0 <= j < |ns[i].children| && ns[i].children[j] == x;
    }
  }

  lemma {:induction false} ArrangeNonEmpty(op: Operator, ns: seq<PolicyNode>)
    requires ns != [] && forall i :: 0 <= i < |ns| ==> Checked(ns[i])
    ensures Arrange(op, ns) != []
    ensures Unary(op) ==> Arrange(op, ns) == ns
  {
    ArrangeMembers(op, ns);
    var x := if Associative(op) && ns[0].Op? && ns[0].op == op then ns[0].children[0] else ns[0];
    assert ComesFrom(op, ns[0], x);
    assert x in Arrange(op, ns);
  }

  // ----- idempotence, and exactly when it fails

  /**
    Every deprecated threshold that outlives the flattening is a non-negative
    safe integer. A node merged into a parent of its own operator loses its
    parameters, so its threshold does not count.
   */
  ghost predicate ThresholdsValid(raw: RawNode, parent: Option<string>)
    decreases raw
  {
    match raw
    case NotANode => true
    case RawCond(_, _, _, _) => true
    case RawOp(name, children, _, threshold, _, _) =>
      && (Merged(name, parent) || threshold.None? || SafeNat(threshold.value).Some?)
      && forall i :: 0 <= i < |children| ==> ThresholdsValid(children[i], Some(name))
  }

  predicate Merged(name: string, parent: Option<string>) {
    parent == Some(name) && (name == "AND" || name == "OR")
  }

  /** The same condition on the tree that was read. */
  ghost predicate SurvivingKSafe(n: PolicyNode, parent: Option<string>)
    decreases n
  {
    n.Op? ==>
      && (Merged(OperatorName(n.op), parent) || KSafe(n.operatorParams))
      && forall i :: 0 <= i < |n.children| ==> SurvivingKSafe(n.children[i], Some(OperatorName(n.op)))
  }

  lemma {:induction false} ThresholdsAreKs(raw: RawNode, parent: Option<string>)
    requires Read(raw).Ok?
    ensures ThresholdsValid(raw, parent) <==> SurvivingKSafe(Read(raw).value, parent)
    decreases raw, 1
  {
    if raw.RawOp? {
      ThresholdsAreKsAll(raw.children, Some(raw.operator));
      OperatorRead(raw);
    }
  }

  lemma {:induction false} OperatorRead(raw: RawNode)
    requires raw.RawOp? && Read(raw).Ok?
    ensures ReadAll(raw.children).Ok?
    ensures var n := Read(raw).value;
            && n.Op? && OperatorName(n.op) == raw.operator
            && n.children == ReadAll(raw.children).value && |n.children| == |raw.children|
            && (KSafe(n.operatorParams) <==> raw.threshold.None? || SafeNat(raw.threshold.value).Some?)
  {
  }

  lemma {:induction false} ThresholdsAreKsAll(raws: seq<RawNode>, parent: Option<string>)
    requires ReadAll(raws).Ok?
    ensures forall i :: 0 <= i < |raws| ==> (ThresholdsValid(raws[i], parent) <==> SurvivingKSafe(ReadAll(raws).value[i], parent))
    decreases raws, 0
  {
    if raws != [] {
      ThresholdsAreKs(raws[0], parent);
      ThresholdsAreKsAll(raws[1..], parent);
    }
  }

  lemma {:induction false} AssociativeNames(op: Operator, parent: Operator)
    ensures Merged(OperatorName(op), Some(OperatorName(parent))) <==> (Associative(parent) && op == parent)
  {
    if OperatorName(op) == OperatorName(parent) {
      OperatorNameInjective(op, parent);
    }
  }

  ghost predicate EachSurvives(ns: seq<PolicyNode>, parent: Option<string>) {
    forall i :: 0 <= i < |ns| ==> SurvivingKSafe(ns[i], parent)
  }

  /** Every node that c contributes to a parent `op` is fine. */
  ghost predicate ContributesSafe(op: Operator, c: PolicyNode) {
    forall x :: ComesFrom(op, c, x) ==> AllKSafe(x)
  }

  lemma {:induction false} SurvivingAt(c: PolicyNode, parent: Option<string>)
    requires c.Op?
    ensures SurvivingKSafe(c, parent) <==>
            (Merged(OperatorName(c.op), parent) || KSafe(c.operatorParams)) && EachSurvives(c.children, Some(OperatorName(c.op)))
  {
  }

  lemma {:induction false} AllKSafeAt(c: PolicyNode)
    requires c.Op?
    ensures AllKSafe(c) <==> KSafe(c.operatorParams) && EachKSafe(c.children)
  {
  }

  /** After canonicalization exactly the surviving parameters remain. */
  lemma {:induction false} CanonKs(n: PolicyNode)
    ensures AllKSafe(Canon(n)) <==> SurvivingKSafe(n, None)
    ensures n.Op? ==> (EachKSafe(Canon(n).children) <==> EachSurvives(n.children, Some(OperatorName(n.op))))
    decreases n
  {
    if n.Op? {
      var cs, name := CanonAll(n.children), Some(OperatorName(n.op));
      forall i | 0 <= i < |cs| ensures ContributesSafe(n.op, cs[i]) <==> SurvivingKSafe(n.children[i], name) {
        CanonKs(n.children[i]);
        CanonChildKs(n.op, n.children[i]);
      }
      MembersKs(n.op, cs, n.children, name);
      SurvivingAt(n, None);
      AllKSafeAt(Canon(n));
    }
  }

  lemma {:induction false} CanonChildKs(op: Operator, c: PolicyNode)
    requires AllKSafe(Canon(c)) <==> SurvivingKSafe(c, None)
    requires c.Op? ==> (EachKSafe(Canon(c).children) <==> EachSurvives(c.children, Some(OperatorName(c.op))))
    ensures ContributesSafe(op, Canon(c)) <==> SurvivingKSafe(c, Some(OperatorName(op)))
  {
    if !c.Op? {
      ContributesItself(op, Canon(c));
    } else {
      AssociativeNames(c.op, op);
      SurvivingAt(c, Some(OperatorName(op)));
      SurvivingAt(c, None);
      if Associative(op) && c.op == op {
        ContributesChildren(op, Canon(c));
      } else {
        ContributesItself(op, Canon(c));
      }
    }
  }

  lemma {:induction false} ContributesChildren(op: Operator, r: PolicyNode)
    requires Associative(op) && r.Op? && r.op == op
    ensures ContributesSafe(op, r) <==> EachKSafe(r.children)
  {
    if ContributesSafe(op, r) {
      forall i | 0 <= i < |r.children| ensures AllKSafe(r.children[i]) {
        assert ComesFrom(op, r, r.children[i]);
      }
    }
  }

  lemma {:induction false} ContributesItself(op: Operator, r: PolicyNode)
    requires !(Associative(op) && r.Op? && r.op == op)
    ensures ContributesSafe(op, r) <==> AllKSafe(r)
  {
    assert ComesFrom(op, r, r);
  }

  lemma {:induction false} MembersKs(op: Operator, cs: seq<PolicyNode>, ns: seq<PolicyNode>, name: Option<string>)
    requires |cs| == |ns|
    requires forall i :: 0 <= i < |cs| ==> (ContributesSafe(op, cs[i]) <==> SurvivingKSafe(ns[i], name))
    ensures EachKSafe(Arrange(op, cs)) <==> EachSurvives(ns, name)
  {
    var rs := Arrange(op, cs);
    ArrangeMembers(op, cs);
    if EachKSafe(rs) {
      forall i | 0 <= i < |ns| ensures SurvivingKSafe(ns[i], name) {
        forall x | ComesFrom(op, cs[i], x) ensures AllKSafe(x) {
          assert x in rs;
          var j :| 0 <= j < |rs| && rs[j] == x;
        }
        assert ContributesSafe(op, cs[i]);
      }
    }
    if EachSurvives(ns, name) {
      forall j | 0 <= j < |rs| ensures AllKSafe(rs[j]) {
        assert rs[j] in rs;
        var i :| 0 <= i < |cs| && ComesFrom(op, cs[i], rs[j]);
        assert SurvivingKSafe(ns[i], name);
      }
    }
  }

  /** A result passes the checks, and its every `k` is valid exactly when every surviving threshold was. */
  lemma {:induction false} CheckedResult(raw: RawNode)
    requires RawWellFormed(raw) && Canonicalize(raw).Ok?
    ensures Checked(Canonicalize(raw).value)
    ensures AllKSafe(Canonicalize(raw).value) <==> ThresholdsValid(raw, None)
  {
    CanonicalizeIsReadThenCanon(raw);
    ReadIsChecked(raw);
    CanonIsChecked(Read(raw).value);
    ThresholdsAreKs(raw, None);
    CanonKs(Read(raw).value);
  }

  /**
    Canonicalizing the canonical tree again gives it back exactly when every
    surviving deprecated threshold was valid; otherwise the second pass fails.
   */
  lemma {:induction false} IdempotentIff(raw: RawNode)
    requires RawWellFormed(raw) && Canonicalize(raw).Ok?
    ensures ThresholdsValid(raw, None) <==> Canonicalize(Embed(Canonicalize(raw).value)) == Canonicalize(raw)
    ensures !ThresholdsValid(raw, None) ==> Canonicalize(Embed(Canonicalize(raw).value)).Err?
  {
    CheckedResult(raw);
    CanonicalizeIsReadThenCanon(raw);
    var r := Canonicalize(raw).value;
    ReadEmbed(r);
    CanonicalizeIsReadThenCanon(Embed(r));
    CanonIdempotent(Read(raw).value);
  }
}
