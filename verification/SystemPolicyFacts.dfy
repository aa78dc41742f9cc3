/**
  The system clause, its paths and the selection record in literal form.
 */
module SystemPolicyFacts {
  import opened Json
  import opened Options
  import opened PolicyAst
  import opened PolicyInput
  import opened SystemPolicy
  import opened PolicyPaths
  import opened PolicyTemplates

  predicate OneOf(c: char, digits: string) {
    exists k :: 0 <= k < |digits| && c == digits[k]
  }

  /** A template payload: the prefix, then an even, positive number of hexadecimal digits. */
  predicate PayloadOf(payload: string, prefix: string, digits: string) {
    && |prefix| < |payload| && payload[..|prefix|] == prefix && (|payload| - |prefix|) % 2 == 0
    && forall i :: |prefix| <= i < |payload| ==> OneOf(payload[i], digits)
  }

  lemma {:induction false} HexDigitsAre(c: char, digits: string)
    requires digits == "0123456789abcdefABCDEF"
    ensures IsHexDigit(c) <==> OneOf(c, digits)
  {
    if '0' <= c <= '9' {
      assert c == digits[c as int - '0' as int];
    } else if 'a' <= c <= 'f' {
      assert c == digits[10 + (c as int - 'a' as int)];
    } else if 'A' <= c <= 'F' {
      assert c == digits[16 + (c as int - 'A' as int)];
    }
  }

  lemma {:induction false} PrefixIs(prefix: string)
    ensures prefix == "sigbashwd1:" <==> prefix == TEMPLATE_PREFIX
  {
  }

  /** The builder takes exactly the template payloads, and this is the clause. */
  lemma {:induction false} FragmentIff(payload: string, prefix: string, digits: string)
    requires prefix == "sigbashwd1:" && digits == "0123456789abcdefABCDEF"
    ensures SystemFragment(payload).Ok? <==> PayloadOf(payload, prefix, digits)
    ensures SystemFragment(payload).Ok? ==>
              SystemFragment(payload).value ==
              Cond("REQKEY", [Field("derivation_range", Number("512")), Field("descriptor_template", Str(payload)),
                              Field("use_descriptor", Bool(true))], None)
  {
    PrefixIs(prefix);
    PayloadIs(payload, prefix, digits);
    RangeIs();
  }

  lemma {:induction false} PayloadIs(payload: string, prefix: string, digits: string)
    requires prefix == TEMPLATE_PREFIX && digits == "0123456789abcdefABCDEF"
    ensures IsTemplate(payload) && IsHexBody(payload[|prefix|..]) <==> PayloadOf(payload, prefix, digits)
  {
    if |prefix| <= |payload| {
      var body := payload[|prefix|..];
      assert IsTemplate(payload) <==> payload[..|prefix|] == prefix;
      if PayloadOf(payload, prefix, digits) {
        forall j | 0 <= j < |body| ensures IsHexDigit(body[j]) {
          assert OneOf(payload[|prefix| + j], digits);
          HexDigitsAre(body[j], digits);
        }
      }
      if IsHexBody(body) {
        forall i | |prefix| <= i < |payload| ensures OneOf(payload[i], digits) {
          assert IsHexDigit(body[i - |prefix|]);
          HexDigitsAre(payload[i], digits);
        }
      }
    }
  }

  lemma {:induction false} RangeIs()
    ensures Decimal(DERIVATION_RANGE) == "512"
  {
    DecimalPush(DERIVATION_RANGE);
    DecimalPush(51);
    DecimalPush(5);
  }

  lemma {:induction false} DecimalPush(n: nat)
    ensures Decimal(n) == (if n < 10 then "" else Decimal(n / 10)) + [Digit(n % 10)]
  {
  }

  /** What a system clause must be for the composition. */
  lemma {:induction false} AtomIff(n: PolicyNode, prefix: string)
    requires prefix == "sigbashwd1:"
    ensures IsSystemAtom(n) <==>
            && n.Cond? && n.conditionType == "REQKEY"
            && Lookup(n.conditionParams, "derivation_range") == Some(Number("512"))
            && exists text :: Lookup(n.conditionParams, "descriptor_template") == Some(Str(text)) && prefix <= text
  {
    PrefixIs(prefix);
    RangeIs();
  }

  // ----- paths

  /** The first steps of the walk over an operator with two conditions. */
  lemma {:induction false} PathsBelow(op: Operator, a: PolicyNode, b: PolicyNode, p: Option<OperatorParams>, w: Option<nat>)
    requires a.Cond? && b.Cond?
    ensures Paths(Op(op, [a, b], p, w), "n") == ["n", "n.0", "n.1"]
  {
    PathsPush(a, [b], "n", 0);
    PathsPush(b, [], "n", 1);
    assert [a] + [b] == [a, b] && [b] + [] == [b];
    DecimalPush(0);
    DecimalPush(1);
    assert Child("n", 0) == "n.0" && Child("n", 1) == "n.1";
  }

  lemma {:induction false} PathsPush(n: PolicyNode, rest: seq<PolicyNode>, path: string, i: nat)
    requires n.Cond?
    ensures PathsAll([n] + rest, path, i) == [Child(path, i)] + PathsAll(rest, path, i + 1)
  {
    assert ([n] + rest)[1..] == rest;
  }

  // ----- selection records

  /** A created record carries both versions 1, its template, its parameters and the digest of the tree built from them. */
  lemma {:induction false} CreatedRecord(t: Template, params: seq<Field>, f: Formats, digest: PolicyNode -> string)
    ensures Create(t, params, f, digest).Some? <==> BuildAst(t, params, f).Some?
    ensures Create(t, params, f, digest).Some? ==>
              Create(t, params, f, digest).value == Selection(1, t, 1, digest(BuildAst(t, params, f).value), params)
  {
  }
}
