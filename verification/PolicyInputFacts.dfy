/**
  What the canonicalizer takes and what it refuses, told from the fields of the input.
 */
module PolicyInputFacts {
  import opened Json
  import opened Options
  import opened PolicyAst
  import opened PolicyInput
  import opened PolicyOrder

  /** A non-negative safe integer. */
  ghost predicate SafeInt(v: Json) {
    exists n: nat :: v == Number(Decimal(n)) && n <= 9007199254740991
  }

  lemma {:induction false} SafeIntIs(v: Json)
    ensures SafeNat(v).Some? <==> SafeInt(v)
    ensures SafeNat(v).Some? ==> v == Number(Decimal(SafeNat(v).value))
  {
    if SafeInt(v) {
      var n: nat :| v == Number(Decimal(n)) && n <= 9007199254740991;
      SafeNatDecimal(n);
    }
    if SafeNat(v).Some? {
      assert v == Number(Decimal(SafeNat(v).value));
    }
  }

  ghost predicate AllSafe(items: seq<Json>) {
    forall i :: 0 <= i < |items| ==> SafeInt(items[i])
  }

  lemma {:induction false} SafeNatsIs(items: seq<Json>)
    ensures SafeNats(items).Some? <==> AllSafe(items)
    ensures SafeNats(items).Some? ==>
              var ws := SafeNats(items).value; |ws| == |items| && forall i :: 0 <= i < |ws| ==> items[i] == Number(Decimal(ws[i]))
  {
    if items != [] {
      SafeIntIs(items[0]);
      SafeNatsIs(items[1..]);
      assert forall i :: 1 <= i < |items| ==> items[i] == items[1..][i - 1];
    }
  }

  /** An entry the parameter object of an operator may have, beside a deprecated threshold. */
  ghost predicate ParamEntry(f: Field, threshold: Option<Json>) {
    || (f.key == "k" && SafeInt(f.value) && (threshold.None? || threshold == Some(f.value)))
    || (f.key == "weights" && f.value.Arr? && AllSafe(f.value.items))
  }

  ghost predicate ParamEntries(fields: seq<Field>, threshold: Option<Json>) {
    forall i :: 0 <= i < |fields| ==> ParamEntry(fields[i], threshold)
  }

  lemma {:induction false} LookupIs(fields: seq<Field>, key: string)
    ensures Lookup(fields, key).Some? ==> Field(key, Lookup(fields, key).value) in fields
    ensures Lookup(fields, key).None? ==> forall i :: 0 <= i < |fields| ==> fields[i].key != key
    ensures DistinctKeys(fields) ==> forall v :: Field(key, v) in fields ==> Lookup(fields, key) == Some(v)
  {
    if fields != [] {
      LookupIs(fields[1..], key);
      assert fields == [fields[0]] + fields[1..];
      if DistinctKeys(fields) && fields[0].key == key {
        forall v | Field(key, v) in fields ensures fields[0].value == v {
          var i :| 0 <= i < |fields| && fields[i] == Field(key, v);
        }
      }
    }
  }

  /** The parameters that come out: the given `k` or else the threshold, and the given weights. */
  ghost predicate ParamsOf(fields: seq<Field>, threshold: Option<Json>, p: OperatorParams) {
    && (forall v :: Field("k", v) in fields ==> p.k == Some(v))
    && ((forall v :: Field("k", v) !in fields) ==> p.k == threshold)
    && (forall items :: Field("weights", Arr(items)) in fields ==>
          p.weights.Some? && |p.weights.value| == |items|
          && forall i :: 0 <= i < |items| ==> items[i] == Number(Decimal(p.weights.value[i])))
    && ((forall v :: Field("weights", v) !in fields) ==> p.weights.None?)
  }

  lemma {:induction false} ObjectAccepted(fields: seq<Field>, threshold: Option<Json>)
    requires DistinctKeys(fields)
    ensures NormalizeParams(Some(Obj(fields)), threshold).Ok? <==> ParamEntries(fields, threshold)
  {
    var k, weights := Lookup(fields, "k"), Lookup(fields, "weights");
    LookupIs(fields, "k");
    LookupIs(fields, "weights");
    if k.Some? {
      SafeIntIs(k.value);
    }
    if weights.Some? && weights.value.Arr? {
      SafeNatsIs(weights.value.items);
    }
    if NormalizeParams(Some(Obj(fields)), threshold).Ok? {
      forall i | 0 <= i < |fields| ensures ParamEntry(fields[i], threshold) {
        assert fields[i] in fields;
        assert fields[i] == Field(fields[i].key, fields[i].value);
        assert fields[i].key in ["k", "weights"];
      }
    }
    if ParamEntries(fields, threshold) {
      forall i | 0 <= i < |fields| ensures fields[i].key in ["k", "weights"] {
        assert ParamEntry(fields[i], threshold);
      }
      EntriesFit(fields, threshold);
    }
  }

  lemma {:induction false} EntriesFit(fields: seq<Field>, threshold: Option<Json>)
    requires ParamEntries(fields, threshold)
    ensures forall v :: Field("k", v) in fields ==> SafeInt(v) && (threshold.None? || threshold == Some(v))
    ensures forall v :: Field("weights", v) in fields ==> v.Arr? && AllSafe(v.items)
  {
    forall v | Field("k", v) in fields ensures SafeInt(v) && (threshold.None? || threshold == Some(v)) {
      var i :| 0 <= i < |fields| && fields[i] == Field("k", v);
      assert ParamEntry(fields[i], threshold);
    }
    forall v | Field("weights", v) in fields ensures v.Arr? && AllSafe(v.items) {
      var i :| 0 <= i < |fields| && fields[i] == Field("weights", v);
      assert ParamEntry(fields[i], threshold);
    }
  }

  lemma {:induction false} ObjectGives(fields: seq<Field>, threshold: Option<Json>)
    requires DistinctKeys(fields) && NormalizeParams(Some(Obj(fields)), threshold).Ok?
    ensures NormalizeParams(Some(Obj(fields)), threshold).value.Some?
    ensures ParamsOf(fields, threshold, NormalizeParams(Some(Obj(fields)), threshold).value.value)
  {
    var k, weights := Lookup(fields, "k"), Lookup(fields, "weights");
    LookupIs(fields, "k");
    LookupIs(fields, "weights");
    if weights.Some? {
      SafeNatsIs(weights.value.items);
    }
  }

  /** The names of the operators. */
  predicate OperatorNamed(name: string) {
    name == "AND" || name == "OR" || name == "NOT" || name == "IMPLIES" || name == "IFF" || name == "THRESHOLD" ||
    name == "WEIGHTED_THRESHOLD" || name == "MAJORITY" || name == "EXACTLY" || name == "AT_MOST" || name == "VETO" ||
    name == "NOR" || name == "NAND" || name == "XOR"
  }

  /** What each name stands for. */
  lemma {:induction false} NamesStandFor(name: string)
    ensures ParseOperator(name).Some? <==> OperatorNamed(name)
    ensures ParseOperator("AND") == Some(And) && ParseOperator("OR") == Some(Or) && ParseOperator("NOT") == Some(Not)
    ensures ParseOperator("IMPLIES") == Some(Implies) && ParseOperator("IFF") == Some(Iff)
    ensures ParseOperator("THRESHOLD") == Some(Threshold) && ParseOperator("WEIGHTED_THRESHOLD") == Some(WeightedThreshold)
    ensures ParseOperator("MAJORITY") == Some(Majority) && ParseOperator("EXACTLY") == Some(Exactly)
    ensures ParseOperator("AT_MOST") == Some(AtMost) && ParseOperator("VETO") == Some(Veto)
    ensures ParseOperator("NOR") == Some(Nor) && ParseOperator("NAND") == Some(Nand) && ParseOperator("XOR") == Some(Xor)
  {
    ParseOperatorName(And);
    ParseOperatorName(Or);
    ParseOperatorName(Not);
    ParseOperatorName(Implies);
    ParseOperatorName(Iff);
    ParseOperatorName(Threshold);
    ParseOperatorName(WeightedThreshold);
    ParseOperatorName(Majority);
    ParseOperatorName(Exactly);
    ParseOperatorName(AtMost);
    ParseOperatorName(Veto);
    ParseOperatorName(Nor);
    ParseOperatorName(Nand);
    ParseOperatorName(Xor);
  }

  lemma {:induction false} UnaryNames(name: string)
    requires ParseOperator(name).Some?
    ensures Unary(ParseOperator(name).value) <==> name == "NOT" || name == "VETO"
  {
    UnaryByName(ParseOperator(name).value);
  }

  lemma {:induction false} UnaryByName(op: Operator)
    ensures Unary(op) <==> OperatorName(op) == "NOT" || OperatorName(op) == "VETO"
  {
    if OperatorName(op) == "NOT" {
      OperatorNameInjective(op, Not);
    }
    if OperatorName(op) == "VETO" {
      OperatorNameInjective(op, Veto);
    }
  }

  lemma {:induction false} AllChildrenOk(raws: seq<RawNode>)
    ensures CanonicalizeAll(raws).Ok? <==> forall i :: 0 <= i < |raws| ==> Canonicalize(raws[i]).Ok?
  {
    if raws != [] {
      AllChildrenOk(raws[1..]);
      assert forall i :: 1 <= i < |raws| ==> raws[i] == raws[1..][i - 1];
    }
  }

  /** An operator parameter field that is absent, or an object with each key once. */
  predicate ObjectOrNone(params: Option<Json>) {
    params.Some? ==> params.value.Obj? && DistinctKeys(params.value.fields)
  }

  ghost predicate WeightFits(weight: Option<Json>) {
    weight.Some? ==> SafeInt(weight.value)
  }

  lemma {:induction false} WeightIs(weight: Option<Json>)
    ensures ReadWeight(weight).Ok? <==> WeightFits(weight)
    ensures ReadWeight(weight).Ok? ==>
              match ReadWeight(weight).value
              case None => weight.None?
              case Some(n) => weight == Some(Number(Decimal(n)))
  {
    if weight.Some? {
      SafeIntIs(weight.value);
    }
  }

  /** The parameters an operator accepts. */
  ghost predicate ParamsFit(params: Option<Json>, threshold: Option<Json>)
    requires ObjectOrNone(params)
  {
    params.Some? ==> ParamEntries(params.value.fields, threshold)
  }

  lemma {:induction false} ParamsFitIff(params: Option<Json>, threshold: Option<Json>)
    requires ObjectOrNone(params)
    ensures NormalizeParams(params, threshold).Ok? <==> ParamsFit(params, threshold)
  {
    if params.Some? {
      ObjectAccepted(params.value.fields, threshold);
    }
  }

  /**
    An operator node is accepted exactly if its operator is known, it has children (one for
    NOT and VETO) that are all accepted, every entry of its parameter object is a `k` that is
    a safe integer and equal to a threshold beside it, or a list of safe integers as weights,
    and its weight is a safe integer.
   */
  lemma {:induction false} OperatorAcceptedIff(raw: RawNode)
    requires raw.RawOp? && ObjectOrNone(raw.operatorParams)
    ensures Canonicalize(raw).Ok? <==>
              && OperatorNamed(raw.operator) && raw.children != []
              && (raw.operator == "NOT" || raw.operator == "VETO" ==> |raw.children| == 1)
              && (forall i :: 0 <= i < |raw.children| ==> Canonicalize(raw.children[i]).Ok?)
              && ParamsFit(raw.operatorParams, raw.threshold) && WeightFits(raw.weight)
    ensures SourceCanonicalize(raw).Ok? <==> Canonicalize(raw).Ok?
    ensures !OperatorNamed(raw.operator) ==> Canonicalize(raw) == Err(VersionError)
  {
    NamesStandFor(raw.operator);
    if ParseOperator(raw.operator).Some? {
      UnaryNames(raw.operator);
    }
    AllChildrenOk(raw.children);
    ParamsFitIff(raw.operatorParams, raw.threshold);
    WeightIs(raw.weight);
    OrderIsForgotten(raw);
  }

  /** A `k` and a different threshold are refused. */
  lemma {:induction false} ContradictionRefused(raw: RawNode, fields: seq<Field>, k: Json, t: Json)
    requires raw.RawOp? && raw.operatorParams == Some(Obj(fields)) && DistinctKeys(fields)
    requires Field("k", k) in fields && raw.threshold == Some(t) && k != t
    ensures Canonicalize(raw).Err? && SourceCanonicalize(raw).Err?
  {
    OperatorAcceptedIff(raw);
    var i :| 0 <= i < |fields| && fields[i] == Field("k", k);
    assert !ParamEntry(fields[i], raw.threshold);
  }

  /** What an accepted operator node comes out with, entry order kept. */
  lemma {:induction false} OperatorComesOut(raw: RawNode)
    requires raw.RawOp? && ObjectOrNone(raw.operatorParams) && SourceCanonicalize(raw).Ok?
    ensures var r := SourceCanonicalize(raw).value;
            && r.Op? && ParseOperator(raw.operator) == Some(r.op)
            && (match raw.weight case None => r.weight.None? case Some(w) => r.weight.Some? && w == Number(Decimal(r.weight.value)))
            && (match raw.operatorParams
                case None =>
                  r.operatorParams == (if raw.threshold.None? then None else Some(OperatorParams(raw.threshold, None)))
                case Some(o) => r.operatorParams.Some? && ParamsOf(o.fields, raw.threshold, r.operatorParams.value))
  {
    WeightIs(raw.weight);
    if raw.operatorParams.Some? {
      ObjectGives(raw.operatorParams.value.fields, raw.threshold);
    }
  }

  /** The same on maps: `k` is the given one, or the threshold with its entries sorted. */
  lemma {:induction false} OperatorComesOutSorted(raw: RawNode)
    requires raw.RawOp? && ObjectOrNone(raw.operatorParams) && Canonicalize(raw).Ok?
    ensures SourceCanonicalize(raw).Ok? && Canonicalize(raw).value == Plain(SourceCanonicalize(raw).value)
    ensures var r := Canonicalize(raw).value;
            && r.Op? && ParseOperator(raw.operator) == Some(r.op)
            && (raw.operatorParams.None? && raw.threshold.Some? ==>
                  r.operatorParams == Some(OperatorParams(Some(Norm(raw.threshold.value)), None)))
            && (raw.operatorParams.Some? ==>
                  forall v :: Field("k", v) in raw.operatorParams.value.fields ==>
                    r.operatorParams.Some? && r.operatorParams.value.k == Some(v))
  {
    OrderIsForgotten(raw);
    OperatorComesOut(raw);
    if raw.operatorParams.Some? {
      var fields := raw.operatorParams.value.fields;
      OperatorAcceptedIff(raw);
      EntriesFit(fields, raw.threshold);
      forall v | Field("k", v) in fields ensures Norm(v) == v {
        assert SafeInt(v);
      }
    }
  }

  /** Parameter fields of other types: false values are no parameters, scalars and the empty list an empty object, and the rest is refused. */
  lemma {:induction false} OddParameterFields(raw: RawNode, v: Json)
    requires raw.RawOp?
    ensures v == Null || v == Bool(false) || v == Number("0") || v == Str("") ==>
              Canonicalize(raw.(operatorParams := Some(v))) == Canonicalize(raw.(operatorParams := None))
    ensures v == Bool(true) || (v.Number? && v != Number("0")) || v == Arr([]) ==>
              Canonicalize(raw.(operatorParams := Some(v))) == Canonicalize(raw.(operatorParams := Some(Obj([]))))
    ensures (v.Str? && v.s != "") || (v.Arr? && v.items != []) ==> Canonicalize(raw.(operatorParams := Some(v))).Err?
  {
    var fields := Spread(Some(v));
    if (v.Str? && v.s != "") || (v.Arr? && v.items != []) {
      assert fields.value[0].key == Decimal(0) == "0";
      assert fields.value[0].key !in ["k", "weights"];
    }
  }

  /** A condition node is accepted exactly if it has a type, an object or nothing as parameters, and a fitting weight. */
  lemma {:induction false} ConditionAcceptedIff(raw: RawNode)
    requires raw.RawCond?
    ensures Canonicalize(raw).Ok? <==>
              raw.conditionType != "" && (raw.conditionParams.Some? ==> raw.conditionParams.value.Obj?) && WeightFits(raw.weight)
    ensures SourceCanonicalize(raw).Ok? <==> Canonicalize(raw).Ok?
    ensures SourceCanonicalize(raw).Ok? ==>
              var r := SourceCanonicalize(raw).value;
              && r.Cond? && r.conditionType == raw.conditionType
              && (match raw.weight case None => r.weight.None? case Some(w) => r.weight.Some? && w == Number(Decimal(r.weight.value)))
              && (forall f :: f in r.conditionParams <==>
                    raw.conditionParams.Some? && f in raw.conditionParams.value.fields && f.key != "__proto__")
  {
    WeightIs(raw.weight);
  }
}
