/**
  What the gate lets through, told condition by condition and negation by negation.
 */
module PolicyGateFacts {
  import opened Json
  import opened Options
  import opened PolicyAst
  import opened PolicyInput
  import opened PolicyGate
  import opened PolicyTemplates

  /** x stands somewhere in the tree n. */
  ghost predicate Within(x: PolicyNode, n: PolicyNode)
    decreases n
  {
    x == n || (n.Op? && exists i :: 0 <= i < |n.children| && Within(x, n.children[i]))
  }

  /** The object has this entry. */
  predicate Entry(fields: seq<Field>, key: string, value: Json) {
    Field(key, value) in fields
  }

  lemma {:induction false} FoundIsEntry(fields: seq<Field>, key: string)
    ensures Lookup(fields, key).Some? ==> Entry(fields, key, Lookup(fields, key).value)
  {
    if fields != [] && fields[0].key != key {
      FoundIsEntry(fields[1..], key);
    }
  }

  lemma {:induction false} EntryIsFound(fields: seq<Field>, key: string, value: Json)
    requires DistinctKeys(fields) && Entry(fields, key, value)
    ensures Lookup(fields, key) == Some(value)
  {
    var i :| 0 <= i < |fields| && fields[i] == Field(key, value);
    LookupAt(fields, i);
  }

  /** ANY, as a text or as the type of an object. */
  ghost predicate AnySelector(v: Json) {
    v == Str("ANY") || (v.Obj? && Entry(v.fields, "type", Str("ANY")))
  }

  /** Parameters of a blocklist: ANY over a non-empty list of addresses, on a named network. */
  ghost predicate BlocklistParams(params: seq<Field>) {
    && (exists v :: Entry(params, "selector", v) && AnySelector(v))
    && (exists items :: Entry(params, "addresses", Arr(items)) && items != [])
    && (exists s :: Entry(params, "network", Str(s)))
  }

  lemma {:induction false} ShapeHasParams(n: PolicyNode)
    requires BlocklistShape(n)
    ensures n.Cond? && n.conditionType == "OUTPUT_DEST_IS_IN_SETS" && BlocklistParams(n.conditionParams)
  {
    var params := n.conditionParams;
    FoundIsEntry(params, "selector");
    FoundIsEntry(params, "addresses");
    FoundIsEntry(params, "network");
    var v := Lookup(params, "selector").value;
    if v.Obj? {
      FoundIsEntry(v.fields, "type");
    }
    assert AnySelector(v);
    assert Lookup(params, "network") == Some(Str(Lookup(params, "network").value.s));
    assert Lookup(params, "addresses") == Some(Arr(Lookup(params, "addresses").value.items));
  }

  lemma {:induction false} ParamsMakeShape(params: seq<Field>, w: Option<nat>)
    requires WellFormed(Obj(params)) && BlocklistParams(params)
    ensures BlocklistShape(Cond("OUTPUT_DEST_IS_IN_SETS", params, w))
  {
    var v :| Entry(params, "selector", v) && AnySelector(v);
    var items :| Entry(params, "addresses", Arr(items)) && items != [];
    var s :| Entry(params, "network", Str(s));
    EntryIsFound(params, "selector", v);
    EntryIsFound(params, "addresses", Arr(items));
    EntryIsFound(params, "network", Str(s));
    if v.Obj? {
      assert WellFormed(v) by {
        var i :| 0 <= i < |params| && params[i] == Field("selector", v);
      }
      EntryIsFound(v.fields, "type", Str("ANY"));
    }
  }

  lemma {:induction false} ShapedWithin(x: PolicyNode, n: PolicyNode, allowUnknown: bool)
    requires Shaped(n, allowUnknown) && Within(x, n)
    ensures Shaped(x, allowUnknown)
    decreases n
  {
    if x != n {
      var i :| 0 <= i < |n.children| && Within(x, n.children[i]);
      ShapedWithin(x, n.children[i], allowUnknown);
    }
  }

  /**
    Under every NOT of an accepted tree stands one condition, a destination set with an ANY
    selector, addresses and a network; so a NOT that misses any of these has its tree refused.
   */
  lemma {:induction false} NegationsAreBlocklists(root: PolicyNode, x: PolicyNode, allowUnknown: bool)
    requires Accepts(root, allowUnknown) && Within(x, root) && x.Op? && x.op == Not
    ensures |x.children| == 1 && x.children[0].Cond? && x.children[0].conditionType == "OUTPUT_DEST_IS_IN_SETS"
    ensures BlocklistParams(x.children[0].conditionParams)
  {
    AcceptsIffAcceptable(root, allowUnknown);
    ShapedWithin(x, root, allowUnknown);
    ShapeHasParams(x.children[0]);
  }

  /** A single NOT over a condition is accepted exactly if that is such a destination set. */
  lemma {:induction false} NegationAcceptedIff(kind: string, params: seq<Field>, w: Option<nat>, allowUnknown: bool)
    requires WellFormed(Obj(params))
    ensures Accepts(Op(Not, [Cond(kind, params, w)], None, None), allowUnknown) <==>
            kind == "OUTPUT_DEST_IS_IN_SETS" && BlocklistParams(params)
  {
    var b := Cond(kind, params, w);
    var not := Op(Not, [b], None, None);
    assert Within(not, not);
    if Accepts(not, allowUnknown) {
      NegationsAreBlocklists(not, not, allowUnknown);
    }
    if kind == "OUTPUT_DEST_IS_IN_SETS" && BlocklistParams(params) {
      ParamsMakeShape(params, w);
      NotOfBlocklist(b, allowUnknown);
      AcceptsIffAcceptable(not, allowUnknown);
    }
  }

  /** A destination set beside a NOT is refused, whatever operator holds the two. */
  lemma {:induction false} MixingRefused(op: Operator, b: PolicyNode, d: PolicyNode, allowUnknown: bool)
    requires op != Not && d.Cond? && d.conditionType == "OUTPUT_DEST_IS_IN_SETS"
    ensures !Accepts(Op(op, [Op(Not, [b], None, None), d], None, None), allowUnknown)
  {
    var not := Op(Not, [b], None, None);
    var n := Op(op, [not, d], None, None);
    AcceptsIffAcceptable(n, allowUnknown);
    assert n.children[1] == d && HasPositiveDest(d);
    assert HasPositiveDest(n);
    NotFirst(not, d);
  }

  lemma {:induction false} NotFirst(not: PolicyNode, d: PolicyNode)
    requires not.Op? && not.op == Not
    ensures NotCountAll([not, d]) >= 1
  {
    assert [not, d][1..] == [d];
  }

  // ----- condition types

  /** The types selectable even where unknown types are not. */
  function Selectable(): set<string> {
    {"TX_VERSION", "TX_LOCKTIME", "TX_INPUT_COUNT", "TX_OUTPUT_COUNT", "TX_FEE_ABSOLUTE", "DERIVED_NO_NEW_OUTPUTS",
     "INPUT_VALUE", "INPUT_SEQUENCE", "OUTPUT_DEST_IS_IN_SETS", "TX_TEMPLATE_HASH_MATCHES", "COUNT_BASED_CONSTRAINT",
     "TIME_BASED_CONSTRAINT", "MATCH_ARK_CHECKPOINT", "MATCH_ARK_FORFEIT"}
  }

  /** The types graded not sound or removed. */
  function Graded(): set<string> {
    {"INPUT_SOURCE_IS_IN_SETS", "OUTPUT_VALUE", "OUTPUT_OP_RETURN", "OUTPUT_SCRIPTPUBKEY_MATCHES_COMMITMENT",
     "INPUT_COMMITTED_DATA_VERIFY", "MATCH_ARK_INTENT"}
  }

  /** The types never selectable: these, the disabled slots, the system clause's own, and inherited names. */
  function Refused(): set<string> {
    Graded() + Slots() + {"", "REQKEY"} + ObjectNames()
  }

  function Slots(): set<string> {
    {"DERIVED_SIGHASH_TYPE", "DERIVED_RBF_ENABLED", "DERIVED_IS_COINJOIN_LIKE", "DERIVED_IS_PAYJOIN_LIKE",
     "DERIVED_IS_CONSOLIDATION", "INPUT_SCRIPT_TYPE", "INPUT_SIGHASH_TYPE", "OUTPUT_SCRIPT_TYPE"}
  }

  function ObjectNames(): set<string> {
    {"constructor", "hasOwnProperty", "isPrototypeOf", "propertyIsEnumerable", "toLocaleString", "toString", "valueOf",
     "__proto__", "__defineGetter__", "__defineSetter__", "__lookupGetter__", "__lookupSetter__"}
  }

  lemma {:induction false} TypeTxVersion(allowUnknown: bool)
    ensures LeafOk("TX_VERSION", allowUnknown)
  {
    NotInherited("TX_VERSION");
  }

  lemma {:induction false} TypeTxLocktime(allowUnknown: bool)
    ensures LeafOk("TX_LOCKTIME", allowUnknown)
  {
    NotInherited("TX_LOCKTIME");
  }

  lemma {:induction false} TypeTxInputCount(allowUnknown: bool)
    ensures LeafOk("TX_INPUT_COUNT", allowUnknown)
  {
    NotInherited("TX_INPUT_COUNT");
  }

  lemma {:induction false} TypeTxOutputCount(allowUnknown: bool)
    ensures LeafOk("TX_OUTPUT_COUNT", allowUnknown)
  {
    NotInherited("TX_OUTPUT_COUNT");
  }

  lemma {:induction false} TypeTxFeeAbsolute(allowUnknown: bool)
    ensures LeafOk("TX_FEE_ABSOLUTE", allowUnknown)
  {
    NotInherited("TX_FEE_ABSOLUTE");
  }

  lemma {:induction false} TypeDerivedNoNewOutputs(allowUnknown: bool)
    ensures LeafOk("DERIVED_NO_NEW_OUTPUTS", allowUnknown)
  {
    NotInherited("DERIVED_NO_NEW_OUTPUTS");
  }

  lemma {:induction false} TypeInputValue(allowUnknown: bool)
    ensures LeafOk("INPUT_VALUE", allowUnknown)
  {
    NotInherited("INPUT_VALUE");
  }

  lemma {:induction false} TypeInputSequence(allowUnknown: bool)
    ensures LeafOk("INPUT_SEQUENCE", allowUnknown)
  {
    NotInherited("INPUT_SEQUENCE");
  }

  lemma {:induction false} TypeOutputDestIsInSets(allowUnknown: bool)
    ensures LeafOk("OUTPUT_DEST_IS_IN_SETS", allowUnknown)
  {
    NotInherited("OUTPUT_DEST_IS_IN_SETS");
  }

  lemma {:induction false} TypeTxTemplateHashMatches(allowUnknown: bool)
    ensures LeafOk("TX_TEMPLATE_HASH_MATCHES", allowUnknown)
  {
    NotInherited("TX_TEMPLATE_HASH_MATCHES");
  }

  lemma {:induction false} TypeCountBasedConstraint(allowUnknown: bool)
    ensures LeafOk("COUNT_BASED_CONSTRAINT", allowUnknown)
  {
    NotInherited("COUNT_BASED_CONSTRAINT");
  }

  lemma {:induction false} TypeTimeBasedConstraint(allowUnknown: bool)
    ensures LeafOk("TIME_BASED_CONSTRAINT", allowUnknown)
  {
    NotInherited("TIME_BASED_CONSTRAINT");
  }

  lemma {:induction false} TypeMatchArkCheckpoint(allowUnknown: bool)
    ensures LeafOk("MATCH_ARK_CHECKPOINT", allowUnknown)
  {
    NotInherited("MATCH_ARK_CHECKPOINT");
  }

  lemma {:induction false} TypeMatchArkForfeit(allowUnknown: bool)
    ensures LeafOk("MATCH_ARK_FORFEIT", allowUnknown)
  {
    NotInherited("MATCH_ARK_FORFEIT");
  }

  lemma {:induction false} TypeInputSourceIsInSets(allowUnknown: bool)
    ensures !LeafOk("INPUT_SOURCE_IS_IN_SETS", allowUnknown)
  {
    NotInherited("INPUT_SOURCE_IS_IN_SETS");
  }

  lemma {:induction false} TypeOutputValue(allowUnknown: bool)
    ensures !LeafOk("OUTPUT_VALUE", allowUnknown)
  {
    NotInherited("OUTPUT_VALUE");
  }

  lemma {:induction false} TypeOutputOpReturn(allowUnknown: bool)
    ensures !LeafOk("OUTPUT_OP_RETURN", allowUnknown)
  {
    NotInherited("OUTPUT_OP_RETURN");
  }

  lemma {:induction false} TypeOutputScriptpubkeyMatchesCommitment(allowUnknown: bool)
    ensures !LeafOk("OUTPUT_SCRIPTPUBKEY_MATCHES_COMMITMENT", allowUnknown)
  {
    NotInherited("OUTPUT_SCRIPTPUBKEY_MATCHES_COMMITMENT");
  }

  lemma {:induction false} TypeInputCommittedDataVerify(allowUnknown: bool)
    ensures !LeafOk("INPUT_COMMITTED_DATA_VERIFY", allowUnknown)
  {
    NotInherited("INPUT_COMMITTED_DATA_VERIFY");
  }

  lemma {:induction false} TypeMatchArkIntent(allowUnknown: bool)
    ensures !LeafOk("MATCH_ARK_INTENT", allowUnknown)
  {
    NotInherited("MATCH_ARK_INTENT");
  }

  lemma {:induction false} TypeDerivedSighashType(allowUnknown: bool)
    ensures !LeafOk("DERIVED_SIGHASH_TYPE", allowUnknown)
  {
    NotInherited("DERIVED_SIGHASH_TYPE");
  }

  lemma {:induction false} TypeDerivedRbfEnabled(allowUnknown: bool)
    ensures !LeafOk("DERIVED_RBF_ENABLED", allowUnknown)
  {
    NotInherited("DERIVED_RBF_ENABLED");
  }

  lemma {:induction false} TypeDerivedIsCoinjoinLike(allowUnknown: bool)
    ensures !LeafOk("DERIVED_IS_COINJOIN_LIKE", allowUnknown)
  {
    NotInherited("DERIVED_IS_COINJOIN_LIKE");
  }

  lemma {:induction false} TypeDerivedIsPayjoinLike(allowUnknown: bool)
    ensures !LeafOk("DERIVED_IS_PAYJOIN_LIKE", allowUnknown)
  {
    NotInherited("DERIVED_IS_PAYJOIN_LIKE");
  }

  lemma {:induction false} TypeDerivedIsConsolidation(allowUnknown: bool)
    ensures !LeafOk("DERIVED_IS_CONSOLIDATION", allowUnknown)
  {
    NotInherited("DERIVED_IS_CONSOLIDATION");
  }

  lemma {:induction false} TypeInputScriptType(allowUnknown: bool)
    ensures !LeafOk("INPUT_SCRIPT_TYPE", allowUnknown)
  {
    NotInherited("INPUT_SCRIPT_TYPE");
  }

  lemma {:induction false} TypeInputSighashType(allowUnknown: bool)
    ensures !LeafOk("INPUT_SIGHASH_TYPE", allowUnknown)
  {
    NotInherited("INPUT_SIGHASH_TYPE");
  }

  lemma {:induction false} TypeOutputScriptType(allowUnknown: bool)
    ensures !LeafOk("OUTPUT_SCRIPT_TYPE", allowUnknown)
  {
    NotInherited("OUTPUT_SCRIPT_TYPE");
  }

  lemma {:induction false} SelectableOk(kind: string, allowUnknown: bool)
    requires kind in Selectable()
    ensures LeafOk(kind, allowUnknown)
  {
    if kind == "TX_VERSION" {
      TypeTxVersion(allowUnknown);
    } else if kind == "TX_LOCKTIME" {
      TypeTxLocktime(allowUnknown);
    } else if kind == "TX_INPUT_COUNT" {
      TypeTxInputCount(allowUnknown);
    } else if kind == "TX_OUTPUT_COUNT" {
      TypeTxOutputCount(allowUnknown);
    } else if kind == "TX_FEE_ABSOLUTE" {
      TypeTxFeeAbsolute(allowUnknown);
    } else if kind == "DERIVED_NO_NEW_OUTPUTS" {
      TypeDerivedNoNewOutputs(allowUnknown);
    } else if kind == "INPUT_VALUE" {
      TypeInputValue(allowUnknown);
    } else if kind == "INPUT_SEQUENCE" {
      TypeInputSequence(allowUnknown);
    } else if kind == "OUTPUT_DEST_IS_IN_SETS" {
      TypeOutputDestIsInSets(allowUnknown);
    } else if kind == "TX_TEMPLATE_HASH_MATCHES" {
      TypeTxTemplateHashMatches(allowUnknown);
    } else if kind == "COUNT_BASED_CONSTRAINT" {
      TypeCountBasedConstraint(allowUnknown);
    } else if kind == "TIME_BASED_CONSTRAINT" {
      TypeTimeBasedConstraint(allowUnknown);
    } else if kind == "MATCH_ARK_CHECKPOINT" {
      TypeMatchArkCheckpoint(allowUnknown);
    } else {
      TypeMatchArkForfeit(allowUnknown);
    }
  }

  lemma {:induction false} GradedRefused(kind: string, allowUnknown: bool)
    requires kind in Graded()
    ensures !LeafOk(kind, allowUnknown)
  {
    if kind == "INPUT_SOURCE_IS_IN_SETS" {
      TypeInputSourceIsInSets(allowUnknown);
    } else if kind == "OUTPUT_VALUE" {
      TypeOutputValue(allowUnknown);
    } else if kind == "OUTPUT_OP_RETURN" {
      TypeOutputOpReturn(allowUnknown);
    } else if kind == "OUTPUT_SCRIPTPUBKEY_MATCHES_COMMITMENT" {
      TypeOutputScriptpubkeyMatchesCommitment(allowUnknown);
    } else if kind == "INPUT_COMMITTED_DATA_VERIFY" {
      TypeInputCommittedDataVerify(allowUnknown);
    } else {
      TypeMatchArkIntent(allowUnknown);
    }
  }

  lemma {:induction false} DisabledRefused(kind: string, allowUnknown: bool)
    requires kind in Slots()
    ensures !LeafOk(kind, allowUnknown)
  {
    if kind == "DERIVED_SIGHASH_TYPE" {
      TypeDerivedSighashType(allowUnknown);
    } else if kind == "DERIVED_RBF_ENABLED" {
      TypeDerivedRbfEnabled(allowUnknown);
    } else if kind == "DERIVED_IS_COINJOIN_LIKE" {
      TypeDerivedIsCoinjoinLike(allowUnknown);
    } else if kind == "DERIVED_IS_PAYJOIN_LIKE" {
      TypeDerivedIsPayjoinLike(allowUnknown);
    } else if kind == "DERIVED_IS_CONSOLIDATION" {
      TypeDerivedIsConsolidation(allowUnknown);
    } else if kind == "INPUT_SCRIPT_TYPE" {
      TypeInputScriptType(allowUnknown);
    } else if kind == "INPUT_SIGHASH_TYPE" {
      TypeInputSighashType(allowUnknown);
    } else {
      TypeOutputScriptType(allowUnknown);
    }
  }

  lemma {:induction false} VerdictsAreCapital(kind: string)
    requires kind in Verdicts()
    ensures kind != "" && 'A' <= kind[0] <= 'Z'
  {
  }

  lemma {:induction false} InheritedAreNot(kind: string)
    requires kind in Inherited()
    ensures kind != "" && !('A' <= kind[0] <= 'Z')
  {
  }

  lemma {:induction false} InheritedRefused(kind: string, allowUnknown: bool)
    requires kind in ObjectNames()
    ensures !LeafOk(kind, allowUnknown)
  {
    InheritedAreNot(kind);
    if kind in Verdicts() {
      VerdictsAreCapital(kind);
    }
  }

  lemma {:induction false} GradedAre(kind: string)
    ensures kind in Verdicts() <==> kind in Selectable() || kind in Graded() || kind == "REQKEY"
  {
  }

  /** Which condition types pass: the selectable ones, and where unknown types may, all but the refused. */
  lemma {:induction false} LeafOkIff(kind: string, allowUnknown: bool)
    ensures LeafOk(kind, allowUnknown) <==> kind in Selectable() || (allowUnknown && kind !in Refused())
  {
    GradedAre(kind);
    if kind in Selectable() {
      SelectableOk(kind, allowUnknown);
    } else if kind in Graded() {
      GradedRefused(kind, allowUnknown);
    } else if kind in Slots() {
      DisabledRefused(kind, allowUnknown);
    } else if kind in ObjectNames() {
      InheritedRefused(kind, allowUnknown);
    }
  }

  /** Every condition of an accepted tree is of a type that may be selected. */
  lemma {:induction false} ConditionsAreSelectable(root: PolicyNode, x: PolicyNode, allowUnknown: bool)
    requires Accepts(root, allowUnknown) && Within(x, root) && x.Cond?
    ensures x.conditionType in Selectable() || (allowUnknown && x.conditionType !in Refused())
  {
    AcceptsIffAcceptable(root, allowUnknown);
    ShapedWithin(x, root, allowUnknown);
    LeafOkIff(x.conditionType, allowUnknown);
  }

  /** A single condition is accepted exactly if its type may be selected. */
  lemma {:induction false} ConditionAcceptedIff(kind: string, params: seq<Field>, w: Option<nat>, allowUnknown: bool)
    ensures Accepts(Cond(kind, params, w), allowUnknown) <==> kind in Selectable() || (allowUnknown && kind !in Refused())
  {
    AcceptsIffAcceptable(Cond(kind, params, w), allowUnknown);
    LeafOkIff(kind, allowUnknown);
  }
}
