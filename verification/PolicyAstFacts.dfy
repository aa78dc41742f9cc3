/**
  What canonicalization does for each operator, and the texts it sorts by.
 */
module PolicyAstFacts {
  import opened Sorting
  import opened Json
  import opened Options
  import opened PolicyAst
  import opened PolicyEquivalence
  import opened PolicyInput
  import opened PolicyOrder
  import opened PolicyMeaning

  // ----- operator by operator

  /** AND, OR, XOR, NAND, NOR, MAJORITY, THRESHOLD, EXACTLY and AT_MOST forget the order of their children. */
  lemma {:induction false} OrderForgotten(op: Operator, xs: seq<PolicyNode>, ys: seq<PolicyNode>, p: Option<OperatorParams>, w: Option<nat>)
    requires op == And || op == Or || op == Operator.Xor || op == Nand || op == Nor || op == Majority ||
             op == Operator.Threshold || op == Exactly || op == AtMost
    requires multiset(xs) == multiset(ys)
    ensures Canon(Op(op, xs, p, w)) == Canon(Op(op, ys, p, w))
  {
    CanonAllPermutation(xs, ys);
    ArrangePermutation(op, CanonAll(xs), CanonAll(ys));
  }

  /** NOT, IMPLIES, IFF, WEIGHTED_THRESHOLD and VETO keep their children where they are. */
  lemma {:induction false} OrderKept(op: Operator, xs: seq<PolicyNode>, p: Option<OperatorParams>, w: Option<nat>)
    requires op == Not || op == Implies || op == Iff || op == WeightedThreshold || op == Veto
    ensures Canon(Op(op, xs, p, w)) == Op(op, CanonAll(xs), p, w)
  {
  }

  /** AND, OR, NAND and NOR forget how often a child occurs. */
  lemma {:induction false} CopiesForgotten(op: Operator, xs: seq<PolicyNode>, ys: seq<PolicyNode>, p: Option<OperatorParams>,
                                           w: Option<nat>)
    requires op == And || op == Or || op == Nand || op == Nor
    requires forall x :: x in xs <==> x in ys
    ensures Canon(Op(op, xs, p, w)) == Canon(Op(op, ys, p, w))
  {
    SameCanons(xs, ys);
    SameCanons(ys, xs);
    var cs, ds := CanonAll(xs), CanonAll(ys);
    ArrangeMembers(op, cs);
    ArrangeMembers(op, ds);
    forall x ensures x in Arrange(op, cs) <==> x in Arrange(op, ds) {
      if i :| 0 <= i < |cs| && ComesFrom(op, cs[i], x) {
        assert cs[i] in ds;
        var j :| 0 <= j < |ds| && ds[j] == cs[i];
        assert ComesFrom(op, ds[j], x);
      }
      if i :| 0 <= i < |ds| && ComesFrom(op, ds[i], x) {
        assert ds[i] in cs;
        var j :| 0 <= j < |cs| && cs[j] == ds[i];
        assert ComesFrom(op, cs[j], x);
      }
    }
    ArrangeSpec(op, cs);
    ArrangeSpec(op, ds);
    StrictUnique(NodeKey, Arrange(op, cs), Arrange(op, ds));
  }

  lemma {:induction false} SameCanons(xs: seq<PolicyNode>, ys: seq<PolicyNode>)
    requires forall x :: x in xs ==> x in ys
    ensures forall i :: 0 <= i < |xs| ==> CanonAll(xs)[i] in CanonAll(ys)
  {
    forall i | 0 <= i < |xs| ensures CanonAll(xs)[i] in CanonAll(ys) {
      assert xs[i] in ys;
      var j :| 0 <= j < |ys| && ys[j] == xs[i];
      assert CanonAll(ys)[j] == Canon(ys[j]);
    }
  }

  /** XOR, MAJORITY, THRESHOLD, EXACTLY and AT_MOST keep every child as often as it occurs. */
  lemma {:induction false} CopiesCounted(op: Operator, xs: seq<PolicyNode>, p: Option<OperatorParams>, w: Option<nat>)
    requires op == Operator.Xor || op == Majority || op == Operator.Threshold || op == Exactly || op == AtMost
    ensures multiset(Canon(Op(op, xs, p, w)).children) == multiset(CanonAll(xs))
  {
    ArrangeSpec(op, CanonAll(xs));
  }

  /** AND in AND and OR in OR are merged; the inner node's weight and parameters go. */
  lemma {:induction false} NestedMerged(op: Operator, xs: seq<PolicyNode>, ys: seq<PolicyNode>, p: Option<OperatorParams>, w: Option<nat>,
                                p': Option<OperatorParams>, w': Option<nat>)
    requires op == And || op == Or
    ensures Canon(Op(op, [Op(op, xs, p', w')] + ys, p, w)) == Canon(Op(op, xs + ys, p, w))
  {
    var inner := Op(op, xs, p', w');
    var x, y := Op(op, [inner] + ys, p, w), Op(op, xs + ys, p, w);
    assert x.children[0] == inner && x.children[..0] + xs + x.children[1..] == xs + ys;
    assert Merges(x, y);
    CanonStep(x, y);
  }

  /** Every other operator keeps a node of its own kind as a child. */
  lemma {:induction false} NestedKept(op: Operator, x: PolicyNode, p: Option<OperatorParams>, w: Option<nat>)
    requires op != And && op != Or && x.Op?
    ensures Canon(Op(op, [x], p, w)).children == [Canon(x)]
  {
    var cs := CanonAll([x]);
    assert cs == [Canon(x)];
    ArrangeSpec(op, cs);
    var rs := Arrange(op, cs);
    if Commutative(op) {
      assert [cs[0]][1..] == [];
      assert Sort(NodeKey, cs) == [cs[0]];
    }
  }

  // ----- the order of canonical children

  /** Children with a weight stand before those without; of the latter operators stand before conditions. */
  lemma {:induction false} CanonicalOrder(op: Operator, xs: seq<PolicyNode>, p: Option<OperatorParams>, w: Option<nat>, i: nat, j: nat)
    requires Commutative(op)
    requires var rs := Canon(Op(op, xs, p, w)).children; i < j < |rs|
    ensures var rs := Canon(Op(op, xs, p, w)).children;
            && (rs[j].weight.Some? ==> rs[i].weight.Some?)
            && (rs[i].weight.None? && rs[j].Op? ==> rs[i].Op?)
  {
    var rs := Canon(Op(op, xs, p, w)).children;
    ArrangeSpec(op, CanonAll(xs));
    assert !Less(NodeKey(rs[j]), NodeKey(rs[i]));
    if rs[i].weight.None? {
      KeyStart(rs[i]);
      if rs[j].weight.Some? {
        WeightStart(rs[j]);
      } else if rs[i].Cond? && rs[j].Op? {
        KeyOpens(rs[i]);
        KeyOpens(rs[j]);
        LessFourth(NodeKey(rs[j]), NodeKey(rs[i]));
      }
    }
  }

  lemma {:induction false} WeightStart(n: PolicyNode)
    requires n.weight.Some?
    ensures NodeKey(n) != "" && NodeKey(n)[0] < '{'
  {
    assert NodeKey(n)[0] == Decimal(n.weight.value)[0];
  }

  // ----- the texts

  /** A character that stands for itself between quotes. */
  predicate PlainChar(c: char) {
    c as int >= 32 && c != '"' && c != '\\'
  }

  lemma {:induction false} PlainQuote(s: string)
    requires IsPlain(s)
    ensures Quote(s) == "\"" + s + "\""
  {
    PlainEscape(s);
  }

  lemma {:induction false} PlainEscape(s: string)
    requires IsPlain(s)
    ensures EscapeAll(s) == s + "\""
  {
    if s != "" {
      PlainEscape(s[1..]);
      assert Escape(s[0]) == [s[0]];
      assert s == [s[0]] + s[1..];
    }
  }

  /** The escapes of a JSON text. */
  lemma {:induction false} Escapes()
    ensures Escape('"') == "\\\"" && Escape('\\') == "\\\\" && Escape('\n') == "\\n" && Escape('\r') == "\\r" && Escape('\t') == "\\t"
    ensures Escape(8 as char) == "\\b" && Escape(12 as char) == "\\f"
    ensures Escape(0 as char) == "\\u0000" && Escape(11 as char) == "\\u000b" && Escape(31 as char) == "\\u001f"
    ensures forall c :: PlainChar(c) ==> Escape(c) == [c]
  {
  }

  /** Texts of objects, arrays and constants. */
  lemma {:induction false} Texts(a: Json, b: Json, k: string, l: string)
    ensures Render(Null) == "null" && Render(Bool(true)) == "true" && Render(Bool(false)) == "false"
    ensures Render(Arr([])) == "[]" && Render(Arr([a])) == "[" + (Render(a) + "]")
    ensures Render(Arr([a, b])) == "[" + (Render(a) + ("," + (Render(b) + "]")))
    ensures Render(Obj([])) == "{}" && Render(Obj([Field(k, a)])) == "{" + (Quote(k) + (":" + (Render(a) + "}")))
    ensures Render(Obj([Field(k, a), Field(l, b)])) ==
            "{" + (Quote(k) + (":" + (Render(a) + ("," + (Quote(l) + (":" + (Render(b) + "}")))))))
  {
    TextOfItems(a, b);
    TextOfFields(Field(k, a), Field(l, b));
  }

  lemma {:induction false} TextOfItems(a: Json, b: Json)
    ensures RenderItems([a], true) == Render(a) + "]"
    ensures RenderItems([a, b], true) == Render(a) + ("," + (Render(b) + "]"))
  {
    assert [a][1..] == [] && [a, b][1..] == [b] && [b][1..] == [];
    assert RenderItems([b], false) == "," + (Render(b) + "]");
  }

  lemma {:induction false} TextOfFields(f: Field, g: Field)
    ensures RenderFields([f], true) == Quote(f.key) + (":" + (Render(f.value) + "}"))
    ensures RenderFields([f, g], true) == Quote(f.key) + (":" + (Render(f.value) + ("," + (Quote(g.key) + (":" + (Render(g.value) + "}"))))))
  {
    assert [f][1..] == [] && [f, g][1..] == [g] && [g][1..] == [];
    assert RenderFields([g], false) == "," + (Quote(g.key) + (":" + (Render(g.value) + "}")));
  }

  /** Each character of the text stands for itself between quotes. */
  predicate IsPlain(s: string) {
    forall i :: 0 <= i < |s| ==> PlainChar(s[i])
  }

  /** One entry of an object, and what follows. */
  function EntryText(key: string, value: string, rest: string): string {
    "\"" + key + "\":" + value + rest
  }

  lemma {:induction false} TextOfOne(a: Field)
    requires IsPlain(a.key)
    ensures RenderFields([a], false) == "," + EntryText(a.key, Render(a.value), "}")
  {
    assert [a][1..] == [];
    PlainQuote(a.key);
    assert Quote(a.key) + (":" + (Render(a.value) + "}")) == EntryText(a.key, Render(a.value), "}");
  }

  lemma {:induction false} TextOfMore(a: Field, rest: seq<Field>, first: bool, text: string)
    requires IsPlain(a.key) && RenderFields(rest, false) == text
    ensures RenderFields([a] + rest, first) == Comma(first) + EntryText(a.key, Render(a.value), text)
  {
    assert ([a] + rest)[1..] == rest;
    PlainQuote(a.key);
    assert Quote(a.key) + (":" + (Render(a.value) + text)) == EntryText(a.key, Render(a.value), text);
  }

  lemma {:induction false} TextOfTwo(a: Field, b: Field)
    requires IsPlain(a.key) && IsPlain(b.key)
    ensures RenderFields([a, b], false) == "," + EntryText(a.key, Render(a.value), "," + EntryText(b.key, Render(b.value), "}"))
  {
    TextOfOne(b);
    var last := RenderFields([b], false);
    TextOfMore(a, [b], false, last);
    assert [a] + [b] == [a, b];
  }

  /** The text of an object of three entries. */
  lemma {:induction false} TextOfThree(a: Field, b: Field, c: Field)
    requires IsPlain(a.key) && IsPlain(b.key) && IsPlain(c.key)
    ensures Render(Obj([a, b, c])) ==
            "{" + EntryText(a.key, Render(a.value),
                  "," + EntryText(b.key, Render(b.value), "," + EntryText(c.key, Render(c.value), "}")))
  {
    TextOfTwo(b, c);
    var rest := [b, c];
    var more := RenderFields(rest, false);
    TextOfMore(a, rest, true, more);
    assert [a] + rest == [a, b, c];
  }

  lemma {:induction false} PlainNames(op: Operator)
    ensures IsPlain("children") && IsPlain("operator") && IsPlain("type")
    ensures IsPlain("conditionParams") && IsPlain("conditionType") && IsPlain("condition")
    ensures IsPlain(OperatorName(op))
  {
  }

  lemma {:induction false} ConditionFields(kind: string, params: seq<Field>)
    ensures ToJson(Cond(kind, params, None)) ==
            Obj([Field("conditionParams", Obj(params)), Field("conditionType", Str(kind)), Field("type", Str("condition"))])
  {
  }

  lemma {:induction false} OperatorFields(op: Operator, children: seq<PolicyNode>)
    ensures ToJson(Op(op, children, None, None)) ==
            Obj([Field("children", Arr(ToJsonAll(children))), Field("operator", Str(OperatorName(op))), Field("type", Str("operator"))])
  {
  }

  lemma {:induction false} PlainText(s: string)
    requires IsPlain(s)
    ensures Render(Str(s)) == "\"" + s + "\""
  {
    PlainQuote(s);
  }

  lemma {:induction false} TextOfNode(n: PolicyNode, a: Field, b: Field, c: Field, name: string, form: string)
    requires n.weight.None? && ToJson(n) == Obj([a, b, c])
    requires IsPlain(a.key) && IsPlain(b.key) && IsPlain(c.key)
    requires b.value == Str(name) && IsPlain(name) && c.value == Str(form) && IsPlain(form)
    ensures NodeKey(n) ==
            "{" + EntryText(a.key, Render(a.value), "," + EntryText(b.key, "\"" + name + "\"", "," + EntryText(c.key, "\"" + form + "\"", "}")))
  {
    PlainText(name);
    PlainText(form);
    TextOfThree(a, b, c);
  }

  /** The text of a condition without a weight. */
  lemma {:induction false} ConditionKey(kind: string, params: seq<Field>)
    requires IsPlain(kind)
    ensures NodeKey(Cond(kind, params, None)) ==
            "{" + EntryText("conditionParams", Render(Obj(params)),
                  "," + EntryText("conditionType", "\"" + kind + "\"", "," + EntryText("type", "\"condition\"", "}")))
  {
    PlainNames(And);
    ConditionFields(kind, params);
    TextOfNode(Cond(kind, params, None), Field("conditionParams", Obj(params)), Field("conditionType", Str(kind)),
               Field("type", Str("condition")), kind, "condition");
  }

  /** The text of an operator without parameters or weight. */
  lemma {:induction false} OperatorKey(op: Operator, children: seq<PolicyNode>)
    ensures NodeKey(Op(op, children, None, None)) ==
            "{" + EntryText("children", Render(Arr(ToJsonAll(children))),
                  "," + EntryText("operator", "\"" + OperatorName(op) + "\"", "," + EntryText("type", "\"operator\"", "}")))
  {
    PlainNames(op);
    OperatorFields(op, children);
    TextOfNode(Op(op, children, None, None), Field("children", Arr(ToJsonAll(children))), Field("operator", Str(OperatorName(op))),
               Field("type", Str("operator")), OperatorName(op), "operator");
  }

  lemma {:induction false} Join(a: string, t: string)
    ensures a + ("|" + t) == a + "|" + t
  {
  }

  /** A weight and a bar stand before the text of the node. */
  lemma {:induction false} WeightedKey(n: PolicyNode, w: nat)
    requires n.weight == Some(w)
    ensures NodeKey(n) == Decimal(w) + "|" + Render(ToJson(n)) && SourceKey(n) == Decimal(w) + "|" + CanonicalJson(ToJson(n))
  {
    Join(Decimal(w), Render(ToJson(n)));
    Join(Decimal(w), CanonicalJson(ToJson(n)));
  }

  /** The weight is the last entry of a node that carries one. */
  lemma {:induction false} WeightIsLast(n: PolicyNode, w: nat)
    requires n.weight == Some(w)
    ensures var fields := ToJson(n).fields; fields != [] && fields[|fields| - 1] == Field("weight", Number(Decimal(w)))
  {
    assert WeightField(n.weight) == [Field("weight", Number(Decimal(w)))];
    if n.Op? {
      OperatorEnds(n.op, n.children, n.operatorParams, w);
    }
  }

  lemma {:induction false} OperatorEnds(op: Operator, children: seq<PolicyNode>, p: Option<OperatorParams>, w: nat)
    ensures var fields := ToJson(Op(op, children, p, Some(w))).fields;
            fields != [] && fields[|fields| - 1] == Field("weight", Number(Decimal(w)))
  {
    var tail := [Field("type", Str("operator"))] + WeightField(Some(w));
    var middle := ParamsField(p) + tail;
    assert tail[|tail| - 1] == Field("weight", Number(Decimal(w)));
    assert middle[|middle| - 1] == tail[|tail| - 1];
  }
}
