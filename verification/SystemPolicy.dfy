/**
  The locked system clause and its composition with a user policy:
  AND(system, user), canonicalized.
 */
module SystemPolicy {
  import opened Sorting
  import opened Json
  import opened Options
  import opened PolicyAst
  import opened PolicyEquivalence
  import opened PolicyMeaning
  import opened PolicyInput
  import opened PolicyOrder

  const REQKEY: string := "REQKEY"
  const TEMPLATE_PREFIX: string := "sigbashwd1:"
  const DERIVATION_RANGE: nat := 512

  predicate IsHexDigit(c: char) {
    '0' <= c <= '9' || 'a' <= c <= 'f' || 'A' <= c <= 'F'
  }

  predicate IsHexBody(s: string) {
    s != "" && |s| % 2 == 0 && forall i :: 0 <= i < |s| ==> IsHexDigit(s[i])
  }

  predicate IsTemplate(s: string) {
    TEMPLATE_PREFIX <= s
  }

  /** `systemWalletOwnershipFragment`: the clause for a template payload, or a refusal. */
  function SystemFragment(payload: string): Result<PolicyNode> {
    if !IsTemplate(payload) || !IsHexBody(payload[|TEMPLATE_PREFIX|..]) then Err(Invalid)
    else Ok(Cond(REQKEY, FragmentParams(payload), None))
  }

  function FragmentParams(payload: string): seq<Field> {
    [Field("derivation_range", Number(Decimal(DERIVATION_RANGE))),
     Field("descriptor_template", Str(payload)), Field("use_descriptor", Bool(true))]
  }

  /** `assertSystemReqkeyAtom` */
  predicate IsSystemAtom(n: PolicyNode) {
    n.Cond? && n.conditionType == REQKEY &&
    (match Lookup(n.conditionParams, "descriptor_template") case Some(Str(t)) => IsTemplate(t) case _ => false) &&
    Lookup(n.conditionParams, "derivation_range") == Some(Number(Decimal(DERIVATION_RANGE)))
  }

  /** Every fragment the builder hands out is a system atom that survives the checks. */
  lemma {:induction false} FragmentIsSystemAtom(payload: string)
    requires SystemFragment(payload).Ok?
    ensures IsSystemAtom(SystemFragment(payload).value) && Checked(SystemFragment(payload).value)
  {
    FragmentLookups(payload);
    FragmentNormal(payload);
    FragmentNoProto(payload);
  }

  lemma {:induction false} FragmentLookups(payload: string)
    ensures Lookup(FragmentParams(payload), "descriptor_template") == Some(Str(payload))
    ensures Lookup(FragmentParams(payload), "derivation_range") == Some(Number(Decimal(DERIVATION_RANGE)))
  {
    var params := FragmentParams(payload);
    FragmentKeyOrder();
    LessIrreflexive(params[0].key);
    LookupFirstTwo(params[0], params[1], params[2]);
    assert params == [params[0], params[1], params[2]];
  }

  lemma {:induction false} FragmentNormal(payload: string)
    ensures Norm(Obj(FragmentParams(payload))) == Obj(FragmentParams(payload)) && WellFormed(Obj(FragmentParams(payload)))
  {
    var params := FragmentParams(payload);
    FragmentKeyOrder();
    AscendingThree(params[0], params[1], params[2]);
    assert params == [params[0], params[1], params[2]];
  }

  lemma {:induction false} FragmentNoProto(payload: string)
    ensures NoProto(FragmentParams(payload))
  {
    assert PROTO[0] == '_';
  }

  lemma {:induction false} LookupFirstTwo(a: Field, b: Field, c: Field)
    requires a.key != b.key
    ensures Lookup([a, b, c], a.key) == Some(a.value) && Lookup([a, b, c], b.key) == Some(b.value)
  {
    assert [a, b, c][1..] == [b, c];
    assert Lookup([b, c], b.key) == Some(b.value);
  }

  lemma {:induction false} AscendingThree(a: Field, b: Field, c: Field)
    requires Less(a.key, b.key) && Less(b.key, c.key)
    requires Norm(a.value) == a.value && Norm(b.value) == b.value && Norm(c.value) == c.value
    ensures Norm(Obj([a, b, c])) == Obj([a, b, c])
    ensures DistinctKeys([a, b, c])
  {
    LessTransitive(a.key, b.key, c.key);
    LessIrreflexive(a.key);
    LessIrreflexive(b.key);
    assert Ascending([a, b, c]);
    AscendingNorm([a, b, c]);
    forall i | 0 <= i < 3 ensures NormFields([a, b, c])[i] == [a, b, c][i] {
      NormFieldAt([a, b, c], i);
    }
  }

  lemma {:induction false} FragmentKeyOrder()
    ensures Less("derivation_range", "descriptor_template")
    ensures Less("descriptor_template", "use_descriptor")
  {
    LessFirst("descriptor_template", "use_descriptor");
    LessThird("derivation_range", "descriptor_template");
  }

  /** `assertNoUserReqkey` */
  predicate NoReqkey(n: PolicyNode)
    decreases n
  {
    match n
    case Cond(kind, _, _) => kind != REQKEY
    case Op(_, children, _, _) => forall i :: 0 <= i < |children| ==> NoReqkey(children[i])
  }

  function Compose(system: PolicyNode, user: PolicyNode): Result<PolicyNode> {
    if !IsSystemAtom(system) || !NoReqkey(user) then Err(Invalid)
    else Canonicalize(RawOp("AND", [Embed(system), Embed(user)], None, None, None, None))
  }

  /** Number of REQKEY atoms in a tree. */
  function CountReqkey(n: PolicyNode): nat
    decreases n, 1
  {
    match n
    case Cond(kind, _, _) => if kind == REQKEY then 1 else 0
    case Op(_, children, _, _) => CountReqkeyAll(children)
  }

  function CountReqkeyAll(ns: seq<PolicyNode>): nat
    decreases ns, 0
  {
    if ns == [] then 0 else CountReqkey(ns[0]) + CountReqkeyAll(ns[1..])
  }

  lemma {:induction false} NoReqkeyIsZero(n: PolicyNode)
    requires NoReqkey(n)
    ensures CountReqkey(n) == 0
    decreases n, 1
  {
    if n.Op? {
      NoReqkeyAllZero(n.children);
    }
  }

  lemma {:induction false} NoReqkeyAllZero(ns: seq<PolicyNode>)
    requires forall i :: 0 <= i < |ns| ==> NoReqkey(ns[i])
    ensures CountReqkeyAll(ns) == 0
    decreases ns, 0
  {
    if ns != [] {
      NoReqkeyIsZero(ns[0]);
      NoReqkeyAllZero(ns[1..]);
    }
  }

  /** Canonicalization neither adds a REQKEY nor loses the last one. */
  lemma {:induction false} CanonNoReqkey(n: PolicyNode)
    ensures NoReqkey(Canon(n)) <==> NoReqkey(n)
  {
    if n.Op? {
      var cs := CanonAll(n.children);
      forall i | 0 <= i < |cs| ensures NoReqkey(cs[i]) <==> NoReqkey(n.children[i]) {
        CanonNoReqkey(n.children[i]);
      }
      ArrangeNoReqkey(n.op, cs);
      assert EachNoReqkey(n.children) <==> EachNoReqkey(cs);
    }
  }

  predicate EachNoReqkey(ns: seq<PolicyNode>) {
    forall i :: 0 <= i < |ns| ==> NoReqkey(ns[i])
  }

  lemma {:induction false} ArrangeNoReqkey(op: Operator, cs: seq<PolicyNode>)
    ensures EachNoReqkey(Arrange(op, cs)) <==> EachNoReqkey(cs)
  {
    ArrangeMembers(op, cs);
    var rs := Arrange(op, cs);
    if EachNoReqkey(cs) {
      forall j | 0 <= j < |rs| ensures NoReqkey(rs[j]) {
        assert rs[j] in rs;
        var i :| 0 <= i < |cs| && ComesFrom(op, cs[i], rs[j]);
        MemberNoReqkey(op, cs[i], rs[j]);
      }
    }
    if EachNoReqkey(rs) {
      forall i | 0 <= i < |cs| ensures NoReqkey(cs[i]) {
        forall x | ComesFrom(op, cs[i], x) ensures NoReqkey(x) {
          assert x in rs;
          var j :| 0 <= j < |rs| && rs[j] == x;
        }
        OriginNoReqkey(op, cs[i]);
      }
    }
  }

  lemma {:induction false} OriginNoReqkey(op: Operator, c: PolicyNode)
    requires forall x :: ComesFrom(op, c, x) ==> NoReqkey(x)
    ensures NoReqkey(c)
  {
    if Associative(op) && c.Op? && c.op == op {
      forall k | 0 <= k < |c.children| ensures NoReqkey(c.children[k]) {
        assert ComesFrom(op, c, c.children[k]);
      }
    } else {
      assert ComesFrom(op, c, c);
    }
  }

  lemma {:induction false} MemberNoReqkey(op: Operator, c: PolicyNode, x: PolicyNode)
    requires NoReqkey(c) && ComesFrom(op, c, x)
    ensures NoReqkey(x)
  {
    if x != c {
      var j :| 0 <= j < |c.children| && c.children[j] == x;
    }
  }

  /** A list without repetition that holds s, and no other REQKEY, counts one. */
  lemma {:induction false} CountOnce(ns: seq<PolicyNode>, s: PolicyNode)
    requires CountReqkey(s) == 1 && s in ns
    requires forall i, j :: 0 <= i < j < |ns| ==> ns[i] != ns[j]
    requires forall i :: 0 <= i < |ns| ==> ns[i] == s || NoReqkey(ns[i])
    ensures CountReqkeyAll(ns) == 1
  {
    if ns[0] == s {
      forall i | 0 <= i < |ns[1..]| ensures NoReqkey(ns[1..][i]) {
        assert ns[1..][i] == ns[i + 1];
      }
      NoReqkeyAllZero(ns[1..]);
    } else {
      NoReqkeyIsZero(ns[0]);
      CountOnce(ns[1..], s);
    }
  }

  /** Exactly when composition succeeds, and what it is. */
  lemma {:induction false} ComposeIs(system: PolicyNode, user: PolicyNode)
    requires Checked(system) && Checked(user)
    ensures Compose(system, user).Ok? <==> IsSystemAtom(system) && NoReqkey(user) && AllKSafe(user)
    ensures Compose(system, user).Ok? ==> Compose(system, user).value == Canon(Op(And, [system, user], None, None))
  {
    if IsSystemAtom(system) && NoReqkey(user) {
      var raw := RawOp("AND", [Embed(system), Embed(user)], None, None, None, None);
      CanonicalizeIsReadThenCanon(raw);
      var ns := [system, user];
      assert EmbedAll(ns) == [Embed(system), Embed(user)] by {
        assert ns[1..] == [user] && ns[1..][1..] == [];
      }
      ReadEmbedAll(ns);
      assert EachKSafe(ns) <==> AllKSafe(ns[0]) && AllKSafe(ns[1]);
      assert ParseOperator("AND") == Some(And);
    }
  }

  /** The effective policy means "system and user". */
  lemma {:induction false} ComposeMeaning(system: PolicyNode, user: PolicyNode, v: Valuation)
    requires Checked(system) && Checked(user) && Compose(system, user).Ok?
    ensures Eval(Compose(system, user).value, v) == (Eval(system, v) && Eval(user, v))
  {
    ComposeIs(system, user);
    var n := Op(And, [system, user], None, None);
    CanonKeepsMeaning(n, v);
    EvalAllMember([system, user], v, false);
    assert system in [system, user] && user in [system, user];
    assert Eval(n, v) == (false !in EvalAll([system, user], v));
  }

  /** The system clause is a direct child of the root AND and the only REQKEY atom in the tree. */
  lemma {:induction false} ComposeLocksReqkey(system: PolicyNode, user: PolicyNode)
    requires Checked(system) && Checked(user) && Compose(system, user).Ok?
    ensures var r := Compose(system, user).value;
            r.Op? && r.op == And && system in r.children && CountReqkey(r) == 1
  {
    ComposeIs(system, user);
    var cs := CanonAll([system, user]);
    var r := Compose(system, user).value;
    assert cs[0] == system && cs[1] == Canon(user);
    CanonNoReqkey(user);
    ArrangeMembers(And, cs);
    ArrangeSpec(And, cs);
    assert ComesFrom(And, cs[0], system);
    forall j | 0 <= j < |r.children| ensures r.children[j] == system || NoReqkey(r.children[j]) {
      assert r.children[j] in r.children;
      var i :| 0 <= i < |cs| && ComesFrom(And, cs[i], r.children[j]);
      if i == 1 {
        MemberNoReqkey(And, cs[1], r.children[j]);
      }
    }
    forall i, j | 0 <= i < j < |r.children| ensures r.children[i] != r.children[j] {
      assert Less(NodeKey(r.children[i]), NodeKey(r.children[j]));
      LessIrreflexive(NodeKey(r.children[i]));
    }
    CountOnce(r.children, system);
  }

  /** The system clause comes first exactly when no conjunct of the canonical user policy has a smaller key. */
  lemma {:induction false} SystemFirstIff(system: PolicyNode, user: PolicyNode)
    requires Checked(system) && Checked(user) && Compose(system, user).Ok?
    ensures Compose(system, user).value.Op? && Compose(system, user).value.children != []
    ensures Compose(system, user).value.children[0] == system <==>
            forall x :: ComesFrom(And, Canon(user), x) ==> !Less(NodeKey(x), NodeKey(system))
  {
    ComposeIs(system, user);
    EffectiveChildren(system, user);
    var rs := Arrange(And, CanonAll([system, user]));
    ArrangeSpec(And, CanonAll([system, user]));
    FirstIff(rs, system);
    LessIrreflexive(NodeKey(system));
  }

  /** The children of the root are the system clause and the conjuncts of the user policy. */
  lemma {:induction false} EffectiveChildren(system: PolicyNode, user: PolicyNode)
    requires system.Cond?
    ensures forall x :: x in Arrange(And, CanonAll([system, user])) <==> x == system || ComesFrom(And, Canon(user), x)
  {
    var cs := CanonAll([system, user]);
    assert cs[0] == system && cs[1] == Canon(user);
    ArrangeMembers(And, cs);
    forall x ensures x in Arrange(And, cs) <==> x == system || ComesFrom(And, Canon(user), x) {
      assert ComesFrom(And, cs[0], x) <==> x == system;
    }
  }

  /** A strictly sorted list starts with its least member. */
  lemma {:induction false} FirstIff(rs: seq<PolicyNode>, s: PolicyNode)
    requires StrictBy(NodeKey, rs) && s in rs
    ensures rs != [] && (rs[0] == s <==> forall x :: x in rs ==> !Less(NodeKey(x), NodeKey(s)))
  {
    var j :| 0 <= j < |rs| && rs[j] == s;
    if j > 0 {
      assert rs[0] in rs && Less(NodeKey(rs[0]), NodeKey(s));
      LessIrreflexive(NodeKey(s));
    } else {
      StrictIsSorted(NodeKey, rs);
      LessIrreflexive(NodeKey(s));
    }
  }

  /** Beside a user policy that is an operator other than AND it comes later, weights apart. */
  lemma {:induction false} OperatorBeforeSystem(system: PolicyNode, user: PolicyNode)
    requires Checked(system) && Checked(user) && Compose(system, user).Ok?
    requires system.weight.None? && user.weight.None? && user.Op? && user.op != And
    ensures Compose(system, user).value.Op? && Compose(system, user).value.children != []
    ensures Compose(system, user).value.children[0] != system
  {
    ComposeIs(system, user);
    SystemFirstIff(system, user);
    assert ComesFrom(And, Canon(user), Canon(user));
    KeyOpens(Canon(user));
    KeyOpens(system);
    LessFourth(NodeKey(Canon(user)), NodeKey(system));
  }

  /** The effective policy is a fixpoint of canonicalization. */
  lemma {:induction false} ComposeFixpoint(system: PolicyNode, user: PolicyNode)
    requires Checked(system) && Checked(user) && Compose(system, user).Ok?
    ensures Canonicalize(Embed(Compose(system, user).value)) == Compose(system, user)
  {
    ComposeIs(system, user);
    var n := Op(And, [system, user], None, None);
    var r := Canon(n);
    assert Checked(n) && AllKSafe(n);
    CanonIsChecked(n);
    SafeSurvives(n, None);
    CanonKs(n);
    ReadEmbed(r);
    CanonicalizeIsReadThenCanon(Embed(r));
    CanonIdempotent(n);
  }

  lemma {:induction false} SafeSurvives(n: PolicyNode, parent: Option<string>)
    requires AllKSafe(n)
    ensures SurvivingKSafe(n, parent)
    decreases n
  {
    if n.Op? {
      forall i | 0 <= i < |n.children| ensures SurvivingKSafe(n.children[i], Some(OperatorName(n.op))) {
        SafeSurvives(n.children[i], Some(OperatorName(n.op)));
      }
    }
  }

  /** Equivalent user policies give one effective policy, or the second has an invalid `k` and gives none. */
  lemma {:induction false} ComposeRespectsEquivalence(system: PolicyNode, user: PolicyNode, user': PolicyNode)
    requires Checked(system) && Checked(user) && Checked(user') && Equivalent(user, user')
    requires Compose(system, user).Ok?
    ensures Compose(system, user') == Compose(system, user) <==> AllKSafe(user')
    ensures Compose(system, user').Ok? <==> AllKSafe(user')
  {
    CanonDecidesEquivalence(user, user');
    CanonNoReqkey(user);
    CanonNoReqkey(user');
    ComposeIs(system, user);
    ComposeIs(system, user');
    assert CanonAll([system, user]) == CanonAll([system, user']);
  }
}
