/**
  The fail-closed gate over a selected policy: a stateful walk over the tree, and
  the declarative condition it decides.
 */
module PolicyGate {
  import opened Sorting
  import opened Json
  import opened Options
  import opened PolicyAst
  import opened PolicyEquivalence
  import opened PolicyInput

  datatype Verdict = Sound | SoundWithConditions | NotSound(hardAllowedForms: bool) | Removed

  const DEST: string := "OUTPUT_DEST_IS_IN_SETS"
  const DEST_FAMILY: string := "output_dest_sets"

  function Verdicts(): map<string, Verdict> {
    map["TX_VERSION" := Sound, "TX_LOCKTIME" := Sound,
        "TX_INPUT_COUNT" := SoundWithConditions, "TX_OUTPUT_COUNT" := SoundWithConditions,
        "TX_FEE_ABSOLUTE" := SoundWithConditions, "DERIVED_NO_NEW_OUTPUTS" := SoundWithConditions,
        "REQKEY" := SoundWithConditions, "INPUT_VALUE" := SoundWithConditions,
        "INPUT_SEQUENCE" := SoundWithConditions, "INPUT_SOURCE_IS_IN_SETS" := NotSound(false),
        "OUTPUT_VALUE" := NotSound(false), "OUTPUT_DEST_IS_IN_SETS" := NotSound(true),
        "OUTPUT_OP_RETURN" := NotSound(false), "OUTPUT_SCRIPTPUBKEY_MATCHES_COMMITMENT" := NotSound(false),
        "INPUT_COMMITTED_DATA_VERIFY" := NotSound(false), "TX_TEMPLATE_HASH_MATCHES" := SoundWithConditions,
        "COUNT_BASED_CONSTRAINT" := SoundWithConditions, "TIME_BASED_CONSTRAINT" := SoundWithConditions,
        "MATCH_ARK_INTENT" := Removed, "MATCH_ARK_CHECKPOINT" := SoundWithConditions,
        "MATCH_ARK_FORFEIT" := SoundWithConditions]
  }

  function Disabled(): set<string> {
    {"DERIVED_SIGHASH_TYPE", "DERIVED_RBF_ENABLED", "DERIVED_IS_COINJOIN_LIKE", "DERIVED_IS_PAYJOIN_LIKE",
     "DERIVED_IS_CONSOLIDATION", "INPUT_SCRIPT_TYPE", "INPUT_SIGHASH_TYPE", "OUTPUT_SCRIPT_TYPE"}
  }

  /**
    The tables are plain objects: a name every object inherits finds something that is no
    verdict, and reading its verdict throws.
   */
  function Inherited(): set<string> {
    {"__defineGetter__", "__defineSetter__", "__lookupGetter__", "__lookupSetter__", "__proto__", "constructor",
     "hasOwnProperty", "isPrototypeOf", "propertyIsEnumerable", "toLocaleString", "toString", "valueOf"}
  }

  function Family(kind: string): Option<string> {
    if kind == "INPUT_SOURCE_IS_IN_SETS" then Some("input_source_sets")
    else if kind == DEST then Some(DEST_FAMILY)
    else if kind == "OUTPUT_OP_RETURN" then Some("op_return")
    else if kind == "REQKEY" then Some("reqkey")
    else None
  }

  lemma {:induction false} FamilyOfDest(kind: string)
    ensures Family(kind) == Some(DEST_FAMILY) <==> kind == DEST
  {
    assert DEST_FAMILY[0] == 'o' && DEST_FAMILY[1] == 'u';
  }

  /** `rejectCondition` */
  predicate Rejected(kind: string) {
    if kind in Verdicts() && Verdicts()[kind].NotSound? && Verdicts()[kind].hardAllowedForms then false
    else
      || kind in Inherited()
      || (kind in Verdicts() && !Verdicts()[kind].Sound? && !Verdicts()[kind].SoundWithConditions?)
      || kind in Disabled()
  }

  /** What the gate asks of every condition, negated or not. */
  predicate LeafOk(kind: string, allowUnknown: bool) {
    kind != "" && kind != "REQKEY" && !Rejected(kind) &&
    (kind in Verdicts() || kind in Disabled() || allowUnknown)
  }

  /** `assertExactBlocklistShape`: an ANY-selector destination set with addresses and a network. */
  predicate BlocklistShape(n: PolicyNode) {
    n.Cond? && n.conditionType == DEST &&
    (match Lookup(n.conditionParams, "selector")
     case Some(Str(s)) => s == "ANY"
     case Some(Obj(fields)) => Lookup(fields, "type") == Some(Str("ANY"))
     case _ => false) &&
    (match Lookup(n.conditionParams, "addresses") case Some(Arr(items)) => items != [] case _ => false) &&
    (match Lookup(n.conditionParams, "network") case Some(Str(_)) => true case _ => false)
  }

  // ----- the walk as a function on its two sets

  datatype Scan = Scan(negated: set<string>, positive: set<string>)

  function WalkCondition(n: PolicyNode, negated: bool, allowUnknown: bool, s: Scan): Option<Scan>
    requires n.Cond?
  {
    var family := Family(n.conditionType);
    if n.conditionType == "" then None
    else if n.conditionType == "REQKEY" then None
    else if family.Some? && negated && family.value in s.negated then None
    else
      var t := if family.None? then s
               else if negated then s.(negated := s.negated + {family.value})
               else s.(positive := s.positive + {family.value});
      if negated && !BlocklistShape(n) then None
      else if Rejected(n.conditionType) then None
      else if n.conditionType in Verdicts() || n.conditionType in Disabled() || allowUnknown then Some(t)
      else None
  }

  function Walk(n: PolicyNode, allowUnknown: bool, s: Scan): Option<Scan>
    decreases n, 1
  {
    match n
    case Cond(_, _, _) => WalkCondition(n, false, allowUnknown, s)
    case Op(op, children, _, _) =>
      if op == Not then
        if |children| != 1 || !children[0].Cond? then None else WalkCondition(children[0], true, allowUnknown, s)
      else WalkAll(children, allowUnknown, s)
  }

  function WalkAll(ns: seq<PolicyNode>, allowUnknown: bool, s: Scan): Option<Scan>
    decreases ns, 0
  {
    if ns == [] then Some(s)
    else
      var t := Walk(ns[0], allowUnknown, s);
      if t.None? then None else WalkAll(ns[1..], allowUnknown, t.value)
  }

  /** `validatePolicySelectionAst` on the sets collected by the walk. */
  predicate FinalCheck(s: Scan) {
    s.negated !! s.positive && |s.negated| <= 1
  }

  predicate Accepts(root: PolicyNode, allowUnknown: bool) {
    var s := Walk(root, allowUnknown, Scan({}, {}));
    s.Some? && FinalCheck(s.value)
  }

  // ----- the walk as the source runs it

  class NegationScan {
    var negatedFamilies: set<string>
    var positiveFamilies: set<string>

    constructor ()
      ensures State() == Scan({}, {})
    {
      negatedFamilies, positiveFamilies := {}, {};
    }

    function State(): Scan
      reads this
    {
      Scan(negatedFamilies, positiveFamilies)
    }

    method VisitCondition(n: PolicyNode, negated: bool, allowUnknown: bool) returns (ok: bool)
      requires n.Cond?
      modifies this
      ensures ok <==> WalkCondition(n, negated, allowUnknown, old(State())).Some?
      ensures ok ==> State() == WalkCondition(n, negated, allowUnknown, old(State())).value
    {
      var kind := n.conditionType;
      if kind == "" {
        return false;
      }
      var family := Family(kind);
      if family.Some? {
        if kind == "REQKEY" {
          return false;
        }
        if negated {
          if family.value in negatedFamilies {
            return false;
          }
          negatedFamilies := negatedFamilies + {family.value};
        } else {
          positiveFamilies := positiveFamilies + {family.value};
        }
      }
      if negated && !BlocklistShape(n) {
        return false;
      }
      if Rejected(kind) {
        return false;
      }
      if kind in Verdicts() || kind in Disabled() {
        return true;
      }
      return allowUnknown;
    }

    method Visit(n: PolicyNode, allowUnknown: bool) returns (ok: bool)
      modifies this
      ensures ok <==> Walk(n, allowUnknown, old(State())).Some?
      ensures ok ==> State() == Walk(n, allowUnknown, old(State())).value
      decreases n
    {
      match n
      case Cond(_, _, _) =>
        ok := VisitCondition(n, false, allowUnknown);
      case Op(op, children, _, _) =>
        if op == Not {
          if |children| != 1 || !children[0].Cond? {
            return false;
          }
          ok := VisitCondition(children[0], true, allowUnknown);
          return;
        }
        ghost var whole := WalkAll(children, allowUnknown, State());
        assert children[0..] == children;
        for i := 0 to |children|
          invariant WalkAll(children[i..], allowUnknown, State()) == whole
        {
          assert children[i..][0] == children[i] && children[i..][1..] == children[i + 1..];
          ok := Visit(children[i], allowUnknown);
          if !ok {
            return;
          }
        }
        ok := true;
    }
  }

  method ValidatePolicySelectionAst(root: PolicyNode, allowUnknown: bool) returns (ok: bool)
    ensures ok <==> Accepts(root, allowUnknown)
    ensures ok <==> Acceptable(root, allowUnknown)
  {
    AcceptsIffAcceptable(root, allowUnknown);
    var scan := new NegationScan();
    ok := scan.Visit(root, allowUnknown);
    if ok {
      ok := scan.negatedFamilies !! scan.positiveFamilies && |scan.negatedFamilies| <= 1;
    }
  }

  // ----- what the gate accepts, said without a walk

  /** Every condition is selectable, and every NOT sits on exactly the blocklist shape. */
  predicate Shaped(n: PolicyNode, allowUnknown: bool)
    decreases n
  {
    match n
    case Cond(kind, _, _) => LeafOk(kind, allowUnknown)
    case Op(op, children, _, _) =>
      && (op == Not ==> |children| == 1 && BlocklistShape(children[0]))
      && forall i :: 0 <= i < |children| ==> Shaped(children[i], allowUnknown)
  }

  function NotCount(n: PolicyNode): nat
    decreases n, 1
  {
    match n
    case Cond(_, _, _) => 0
    case Op(op, children, _, _) => (if op == Not then 1 else 0) + NotCountAll(children)
  }

  function NotCountAll(ns: seq<PolicyNode>): nat
    decreases ns, 0
  {
    if ns == [] then 0 else NotCount(ns[0]) + NotCountAll(ns[1..])
  }

  /** Some destination set stands outside every NOT. */
  predicate HasPositiveDest(n: PolicyNode)
    decreases n
  {
    match n
    case Cond(kind, _, _) => kind == DEST
    case Op(op, children, _, _) => op != Not && exists i :: 0 <= i < |children| && HasPositiveDest(children[i])
  }

  predicate Acceptable(n: PolicyNode, allowUnknown: bool) {
    Shaped(n, allowUnknown) && NotCount(n) <= 1 && !(NotCount(n) == 1 && HasPositiveDest(n))
  }

  /** Inherited names open with a small letter or an underscore. */
  lemma {:induction false} NotInherited(kind: string)
    requires kind != "" && 'A' <= kind[0] <= 'Z'
    ensures kind !in Inherited()
  {
  }

  lemma {:induction false} DestIsLeafOk(allowUnknown: bool)
    ensures LeafOk(DEST, allowUnknown)
  {
    assert Verdicts()[DEST] == NotSound(true);
    NotInherited(DEST);
  }

  function AddNegated(s: Scan, count: nat): set<string> {
    if count == 0 then s.negated else s.negated + {DEST_FAMILY}
  }

  /** From any scan, the walk succeeds exactly when the subtree is shaped and brings no second NOT. */
  lemma {:induction false} WalkDecides(n: PolicyNode, allowUnknown: bool, s: Scan)
    requires s.negated <= {DEST_FAMILY}
    ensures Walk(n, allowUnknown, s).Some? <==> Shaped(n, allowUnknown) && |s.negated| + NotCount(n) <= 1
    ensures Walk(n, allowUnknown, s).Some? ==>
              var t := Walk(n, allowUnknown, s).value;
              && t.negated == AddNegated(s, NotCount(n))
              && (DEST_FAMILY in t.positive <==> DEST_FAMILY in s.positive || HasPositiveDest(n))
    decreases n, 1
  {
    OneFamily(s.negated);
    match n {
      case Cond(kind, _, _) =>
        FamilyOfDest(kind);
      case Op(op, children, _, _) =>
        if op == Not {
          NotDecides(n, allowUnknown, s);
        } else {
          WalkAllDecides(children, allowUnknown, s);
        }
    }
  }

  lemma {:induction false} OneFamily(negated: set<string>)
    requires negated <= {DEST_FAMILY}
    ensures |negated| == if DEST_FAMILY in negated then 1 else 0
  {
    if DEST_FAMILY in negated {
      assert negated == {DEST_FAMILY};
    } else {
      assert negated == {};
    }
  }

  lemma {:induction false} NotDecides(n: PolicyNode, allowUnknown: bool, s: Scan)
    requires n.Op? && n.op == Not && s.negated <= {DEST_FAMILY}
    ensures Walk(n, allowUnknown, s).Some? <==> Shaped(n, allowUnknown) && |s.negated| + NotCount(n) <= 1
    ensures Walk(n, allowUnknown, s).Some? ==>
              Walk(n, allowUnknown, s).value == s.(negated := s.negated + {DEST_FAMILY}) && NotCount(n) == 1
  {
    OneFamily(s.negated);
    if |n.children| == 1 {
      var c := n.children[0];
      assert n.children[1..] == [];
      if BlocklistShape(c) {
        FamilyOfDest(c.conditionType);
        DestIsLeafOk(allowUnknown);
        assert NotCount(n) == 1 + NotCount(c) + NotCountAll(n.children[1..]);
      }
    }
  }

  lemma {:induction false} WalkAllDecides(ns: seq<PolicyNode>, allowUnknown: bool, s: Scan)
    requires s.negated <= {DEST_FAMILY}
    ensures WalkAll(ns, allowUnknown, s).Some? <==>
            (forall i :: 0 <= i < |ns| ==> Shaped(ns[i], allowUnknown)) && |s.negated| + NotCountAll(ns) <= 1
    ensures WalkAll(ns, allowUnknown, s).Some? ==>
              var t := WalkAll(ns, allowUnknown, s).value;
              && t.negated == AddNegated(s, NotCountAll(ns))
              && (DEST_FAMILY in t.positive <==>
                  DEST_FAMILY in s.positive || exists i :: 0 <= i < |ns| && HasPositiveDest(ns[i]))
    decreases ns, 0
  {
    OneFamily(s.negated);
    if ns != [] {
      WalkDecides(ns[0], allowUnknown, s);
      var t := Walk(ns[0], allowUnknown, s);
      assert ns == [ns[0]] + ns[1..];
      if t.Some? {
        OneFamily(t.value.negated);
        WalkAllDecides(ns[1..], allowUnknown, t.value);
      }
    }
  }

  /** The gate accepts exactly the acceptable trees. */
  lemma {:induction false} AcceptsIffAcceptable(root: PolicyNode, allowUnknown: bool)
    ensures Accepts(root, allowUnknown) <==> Acceptable(root, allowUnknown)
  {
    var s := Scan({}, {});
    WalkDecides(root, allowUnknown, s);
    if Walk(root, allowUnknown, s).Some? {
      OneFamily(Walk(root, allowUnknown, s).value.negated);
    }
  }

  // ----- canonicalization and the gate

  lemma {:induction false} CanonShaped(n: PolicyNode, allowUnknown: bool)
    ensures Shaped(Canon(n), allowUnknown) <==> Shaped(n, allowUnknown)
    ensures HasPositiveDest(Canon(n)) <==> HasPositiveDest(n)
    decreases n
  {
    if n.Op? {
      var cs := CanonAll(n.children);
      forall i | 0 <= i < |cs|
        ensures Shaped(cs[i], allowUnknown) <==> Shaped(n.children[i], allowUnknown)
        ensures HasPositiveDest(cs[i]) <==> HasPositiveDest(n.children[i])
      {
        CanonShaped(n.children[i], allowUnknown);
      }
      ArrangeShaped(n.op, cs, allowUnknown);
      assert EachShaped(cs, allowUnknown) <==> EachShaped(n.children, allowUnknown);
      assert SomePositive(cs) <==> SomePositive(n.children);
      if n.op == Not {
        ArrangeSpec(n.op, cs);
      } else {
        ArrangePositive(n.op, cs);
      }
    }
  }

  /** A child of the list, or of a merged child, is found again among the arranged children. */
  lemma {:induction false} ArrangedAt(op: Operator, cs: seq<PolicyNode>, i: nat, x: PolicyNode) returns (j: nat)
    requires i < |cs| && ComesFrom(op, cs[i], x)
    ensures j < |Arrange(op, cs)| && Arrange(op, cs)[j] == x
  {
    ArrangeMembers(op, cs);
    assert x in Arrange(op, cs);
    j :| 0 <= j < |Arrange(op, cs)| && Arrange(op, cs)[j] == x;
  }

  /** And every arranged child has its origin. */
  lemma {:induction false} OriginOf(op: Operator, cs: seq<PolicyNode>, j: nat) returns (i: nat)
    requires j < |Arrange(op, cs)|
    ensures i < |cs| && ComesFrom(op, cs[i], Arrange(op, cs)[j])
  {
    ArrangeMembers(op, cs);
    assert Arrange(op, cs)[j] in Arrange(op, cs);
    i :| 0 <= i < |cs| && ComesFrom(op, cs[i], Arrange(op, cs)[j]);
  }

  predicate EachShaped(ns: seq<PolicyNode>, allowUnknown: bool) {
    forall i :: 0 <= i < |ns| ==> Shaped(ns[i], allowUnknown)
  }

  predicate SomePositive(ns: seq<PolicyNode>) {
    exists i :: 0 <= i < |ns| && HasPositiveDest(ns[i])
  }

  lemma {:induction false} ArrangeShaped(op: Operator, cs: seq<PolicyNode>, allowUnknown: bool)
    ensures EachShaped(Arrange(op, cs), allowUnknown) <==> EachShaped(cs, allowUnknown)
  {
    var rs := Arrange(op, cs);
    if EachShaped(rs, allowUnknown) {
      forall i | 0 <= i < |cs| ensures Shaped(cs[i], allowUnknown) {
        ShapedFromArranged(op, cs, i, allowUnknown);
      }
    }
    if EachShaped(cs, allowUnknown) {
      forall j | 0 <= j < |rs| ensures Shaped(rs[j], allowUnknown) {
        var i := OriginOf(op, cs, j);
        if rs[j] != cs[i] {
          var k :| 0 <= k < |cs[i].children| && cs[i].children[k] == rs[j];
        }
      }
    }
  }

  lemma {:induction false} ShapedFromArranged(op: Operator, cs: seq<PolicyNode>, i: nat, allowUnknown: bool)
    requires i < |cs| && EachShaped(Arrange(op, cs), allowUnknown)
    ensures Shaped(cs[i], allowUnknown)
  {
    var c := cs[i];
    if Associative(op) && c.Op? && c.op == op {
      forall k | 0 <= k < |c.children| ensures Shaped(c.children[k], allowUnknown) {
        var j := ArrangedAt(op, cs, i, c.children[k]);
      }
    } else {
      var j := ArrangedAt(op, cs, i, c);
    }
  }

  lemma {:induction false} ArrangePositive(op: Operator, cs: seq<PolicyNode>)
    ensures SomePositive(Arrange(op, cs)) <==> SomePositive(cs)
  {
    var rs := Arrange(op, cs);
    if SomePositive(rs) {
      var j :| 0 <= j < |rs| && HasPositiveDest(rs[j]);
      var i := OriginOf(op, cs, j);
      if rs[j] != cs[i] {
        var k :| 0 <= k < |cs[i].children| && cs[i].children[k] == rs[j];
      }
      assert HasPositiveDest(cs[i]);
    }
    if SomePositive(cs) {
      var i :| 0 <= i < |cs| && HasPositiveDest(cs[i]);
      var x := cs[i];
      if Associative(op) && cs[i].Op? && cs[i].op == op {
        var k :| 0 <= k < |cs[i].children| && HasPositiveDest(cs[i].children[k]);
        x := cs[i].children[k];
      }
      var j := ArrangedAt(op, cs, i, x);
      assert HasPositiveDest(rs[j]);
    }
  }

  lemma {:induction false} NotCountConcat(xs: seq<PolicyNode>, ys: seq<PolicyNode>)
    ensures NotCountAll(xs + ys) == NotCountAll(xs) + NotCountAll(ys)
    decreases |xs|
  {
    if xs == [] {
      assert xs + ys == ys;
    } else {
      assert (xs + ys)[1..] == xs[1..] + ys;
      NotCountConcat(xs[1..], ys);
    }
  }

  lemma {:induction false} NotCountPermutation(xs: seq<PolicyNode>, ys: seq<PolicyNode>)
    requires multiset(xs) == multiset(ys)
    ensures NotCountAll(xs) == NotCountAll(ys)
    decreases |xs|
  {
    if xs == [] {
      EmptyContents(ys);
    } else {
      var i, rest := PullOut(xs, ys);
      var a, b := ys[..i], [ys[i]] + ys[i + 1..];
      NotCountPermutation(xs[1..], rest);
      assert ys == a + b && b[1..] == ys[i + 1..];
      NotCountConcat(a, b);
      NotCountConcat(a, ys[i + 1..]);
    }
  }

  lemma {:induction false} NotCountFlatten(op: Operator, ns: seq<PolicyNode>)
    requires Associative(op)
    ensures NotCountAll(Flatten(op, ns)) == NotCountAll(ns)
    decreases |ns|
  {
    if ns != [] {
      var head := if ns[0].Op? && ns[0].op == op then ns[0].children else [ns[0]];
      NotCountFlatten(op, ns[1..]);
      NotCountConcat(head, Flatten(op, ns[1..]));
      assert [ns[0]][1..] == [];
    }
  }

  /** Dropping copies can only lower the count, never to zero. */
  lemma {:induction false} NotCountDedup(ns: seq<PolicyNode>)
    ensures NotCountAll(Dedup(NodeKey, ns)) <= NotCountAll(ns)
    ensures NotCountAll(Dedup(NodeKey, ns)) == 0 <==> NotCountAll(ns) == 0
    decreases |ns|
  {
    if |ns| > 1 {
      var tail := ns[1..];
      assert NotCountAll(tail) == NotCount(tail[0]) + NotCountAll(tail[1..]);
      if NodeKey(ns[0]) == NodeKey(ns[1]) {
        NodeKeyInjective(ns[0], ns[1]);
        var rest := [ns[0]] + ns[2..];
        NotCountDedup(rest);
        assert rest[1..] == ns[2..] == tail[1..];
      } else {
        NotCountDedup(tail);
        var r := Dedup(NodeKey, tail);
        assert ([ns[0]] + r)[1..] == r;
      }
    }
  }

  lemma {:induction false} NotCountArrange(op: Operator, ns: seq<PolicyNode>)
    ensures NotCountAll(Arrange(op, ns)) <= NotCountAll(ns)
    ensures NotCountAll(Arrange(op, ns)) == 0 <==> NotCountAll(ns) == 0
  {
    var flat := Flattened(op, ns);
    if Associative(op) {
      NotCountFlatten(op, ns);
    }
    if Commutative(op) {
      SortContents(NodeKey, flat);
      NotCountPermutation(Sort(NodeKey, flat), flat);
      if DuplicateInsensitive(op) {
        NotCountDedup(Sort(NodeKey, flat));
      }
    }
  }

  lemma {:induction false} NotCountCanon(n: PolicyNode)
    ensures NotCount(Canon(n)) <= NotCount(n)
    ensures NotCount(Canon(n)) == 0 <==> NotCount(n) == 0
    decreases n, 1
  {
    if n.Op? {
      NotCountCanonAll(n.children);
      NotCountArrange(n.op, CanonAll(n.children));
    }
  }

  lemma {:induction false} NotCountCanonAll(ns: seq<PolicyNode>)
    ensures NotCountAll(CanonAll(ns)) <= NotCountAll(ns)
    ensures NotCountAll(CanonAll(ns)) == 0 <==> NotCountAll(ns) == 0
    decreases ns, 0
  {
    if ns != [] {
      NotCountCanon(ns[0]);
      NotCountCanonAll(ns[1..]);
      assert CanonAll(ns)[1..] == CanonAll(ns[1..]);
    }
  }

  /**
    Canonicalization keeps acceptance, and gains it only by merging several
    copies of one NOT into one.
   */
  lemma {:induction false} GateAndCanon(n: PolicyNode, allowUnknown: bool)
    ensures Accepts(n, allowUnknown) <==> Accepts(Canon(n), allowUnknown) && NotCount(n) <= 1
  {
    AcceptsIffAcceptable(n, allowUnknown);
    AcceptsIffAcceptable(Canon(n), allowUnknown);
    CanonShaped(n, allowUnknown);
    NotCountCanon(n);
  }

  /** Two copies of one blocklist under an AND: refused as written, accepted once canonical. */
  lemma {:induction false} CanonicalFormGainsAcceptance(b: PolicyNode, allowUnknown: bool)
    requires BlocklistShape(b)
    ensures var not := Op(Not, [b], None, None);
            var n := Op(And, [not, not], None, None);
            !Accepts(n, allowUnknown) && Accepts(Canon(n), allowUnknown)
  {
    var not := Op(Not, [b], None, None);
    var n := Op(And, [not, not], None, None);
    NotOfBlocklist(b, allowUnknown);
    assert [not, not][1..] == [not] && [not][1..] == [];
    assert NotCountAll([not]) == 1 && NotCountAll([not, not]) == 2;
    ArrangeSpec(And, [not, not]);
    FlattenFlat(And, [not, not]);
    var cs := CanonAll([not, not]);
    assert cs[0] == not && cs[1] == not && cs == [not, not];
    OnlyMember(Arrange(And, cs), not);
    assert Canon(n) == Op(And, [not], None, None);
    AcceptsIffAcceptable(n, allowUnknown);
    AcceptsIffAcceptable(Canon(n), allowUnknown);
  }

  lemma {:induction false} NotOfBlocklist(b: PolicyNode, allowUnknown: bool)
    requires BlocklistShape(b)
    ensures var not := Op(Not, [b], None, None);
            NotCount(not) == 1 && Canon(not) == not && Shaped(not, allowUnknown) && !HasPositiveDest(not)
  {
    var not := Op(Not, [b], None, None);
    assert [b][1..] == [];
    assert NotCountAll([b]) == NotCount(b) + NotCountAll([]);
    assert CanonAll([b])[0] == b && CanonAll([b]) == [b];
    ArrangeSpec(Not, [b]);
    DestIsLeafOk(allowUnknown);
  }

  lemma {:induction false} OnlyMember(ns: seq<PolicyNode>, x: PolicyNode)
    requires StrictBy(NodeKey, ns) && forall y :: y in ns <==> y == x
    ensures ns == [x]
  {
    assert x in ns;
    assert ns[0] in ns;
    if |ns| > 1 {
      assert ns[1] in ns;
      assert Less(NodeKey(ns[0]), NodeKey(ns[1]));
      LessIrreflexive(NodeKey(x));
    }
  }
}
