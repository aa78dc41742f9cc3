/**
  The hard policy templates: what each builder makes of its parameters, and that the gate
  takes every one of their outputs. Tests on the characters of a text are parameters.
 */
module PolicyTemplates {
  import opened Sorting
  import opened Json
  import opened Options
  import opened PolicyAst
  import opened PolicyEquivalence
  import opened PolicyInput
  import opened PolicyGate

  datatype Template =
    | DestinationAllowlist | DestinationBlocklist | FeeCeiling | TimeWindow | UsageVelocity | ConsolidationOnly

  /** Regular expressions and dates, as the runtime decides them. */
  datatype Formats = Formats(blank: char -> bool, hour: string -> bool, minutes: string -> nat, isoDate: string -> bool,
                             duration: string -> bool)

  const MAX_FEE: nat := 2_100_000_000_000_000
  const MAX_USES: nat := 100_000
  const MIN_INTERVAL: nat := 60
  const MAX_INTERVAL: nat := 315_360_000

  // ----- the checks of the builders

  function PositiveSafe(v: Option<Json>, max: nat): Option<nat> {
    if v.None? || SafeNat(v.value).None? then None
    else
      var n := SafeNat(v.value).value;
      if 0 < n <= max then Some(n) else None
  }

  function NonEmpty(v: Option<Json>): Option<string> {
    match v
    case Some(Str(s)) => if s == "" then None else Some(s)
    case _ => None
  }

  predicate Addresses(v: Option<Json>, f: Formats) {
    && v.Some? && v.value.Arr? && v.value.items != []
    && (forall i :: 0 <= i < |v.value.items| ==> Address(v.value.items[i], f))
    && (forall i, j :: 0 <= i < j < |v.value.items| ==> v.value.items[i] != v.value.items[j])
  }

  predicate Address(v: Json, f: Formats) {
    v.Str? && 14 <= |v.s| <= 90 && forall i :: 0 <= i < |v.s| ==> !f.blank(v.s[i])
  }

  predicate NetworkName(v: Option<Json>) {
    v == Some(Str("signet")) || v == Some(Str("mainnet"))
  }

  /** `destinationSetCondition` */
  function DestinationFields(params: seq<Field>, selector: string, f: Formats): Option<seq<Field>> {
    var addresses, network := Lookup(params, "addresses"), Lookup(params, "network");
    var change := Lookup(params, "requireChangeToInputAddresses");
    if !Addresses(addresses, f) || !NetworkName(network) then None
    else if change.Some? && !change.value.Bool? then None
    else
      var fixed := [Field("selector", Obj([Field("type", Str(selector))])), Field("addresses", addresses.value),
                    Field("network", network.value)];
      Some(if change.None? then fixed else fixed + [Field("require_change_to_input_addresses", change.value)])
  }

  /** `validateResetInterval` */
  function IntervalFields(params: seq<Field>, f: Formats): Option<seq<Field>> {
    var interval, seconds := NonEmpty(Lookup(params, "resetInterval")), Lookup(params, "resetIntervalSeconds");
    if interval.None? then None
    else if interval.value in ["never", "hourly", "daily", "weekly", "monthly"] || f.duration(interval.value) then
      if seconds.Some? then None else Some([Field("reset_interval", Str(interval.value))])
    else if interval.value == "custom" then
      var n := PositiveSafe(seconds, MAX_INTERVAL);
      if n.None? || n.value < MIN_INTERVAL then None
      else Some([Field("reset_interval", Str("custom")), Field("reset_interval_seconds", Number(Decimal(n.value)))])
    else None
  }

  predicate Day(v: Json) {
    SafeNat(v).Some? && 1 <= SafeNat(v).value <= 7
  }

  /** The days of a window, each once, in order. */
  function ActiveDays(v: Option<Json>): Option<seq<Json>> {
    match v
    case Some(Arr(items)) =>
      if items == [] || exists i :: 0 <= i < |items| && !Day(items[i]) then None else Some(DaysUpTo(items, 7))
    case _ => None
  }

  function DaysUpTo(items: seq<Json>, day: nat): seq<Json> {
    if day == 0 then []
    else DaysUpTo(items, day - 1) + (if Number(Decimal(day)) in items then [Number(Decimal(day))] else [])
  }

  function HourOf(v: Option<Json>, f: Formats): Option<string> {
    var s := NonEmpty(v);
    if s.Some? && f.hour(s.value) then s else None
  }

  function DateOf(v: Option<Json>, f: Formats): Option<string> {
    var s := NonEmpty(v);
    if s.Some? && f.isoDate(s.value) then s else None
  }

  function WithinFields(params: seq<Field>, f: Formats): Option<seq<Field>> {
    var start := PositiveSafe(Lookup(params, "startUnixSeconds"), MAX_SAFE_INTEGER);
    var end := PositiveSafe(Lookup(params, "endUnixSeconds"), MAX_SAFE_INTEGER);
    var startHour, endHour := HourOf(Lookup(params, "startHourUtc"), f), HourOf(Lookup(params, "endHourUtc"), f);
    var startDate, endDate := DateOf(Lookup(params, "startDate"), f), DateOf(Lookup(params, "endDate"), f);
    var days := ActiveDays(Lookup(params, "activeDays"));
    if start.None? || end.None? || startHour.None? || endHour.None? || startDate.None? || endDate.None? || days.None? then None
    else if end.value <= start.value || f.minutes(endHour.value) <= f.minutes(startHour.value) then None
    else Some([Field("constraint_type", Str("within")), Field("active_days", Arr(days.value)),
               Field("start_hour", Str(startHour.value)), Field("end_hour", Str(endHour.value)),
               Field("start_date_within", Str(startDate.value)), Field("end_date_within", Str(endDate.value)),
               Field("start_time", Number(Decimal(start.value))), Field("end_time", Number(Decimal(end.value)))])
  }

  /** `buildTimeWindowAst` */
  function WindowFields(params: seq<Field>, f: Formats): Option<seq<Field>> {
    var mode := NonEmpty(Lookup(params, "mode"));
    if mode == Some("after") then
      var start := PositiveSafe(Lookup(params, "startUnixSeconds"), MAX_SAFE_INTEGER);
      if start.None? then None
      else Some([Field("constraint_type", Str("after")), Field("start_time", Number(Decimal(start.value)))])
    else if mode == Some("within") then WithinFields(params, f)
    else None
  }

  /** `buildUsageVelocityAst` */
  function VelocityFields(params: seq<Field>, f: Formats): Option<seq<Field>> {
    var uses, interval := PositiveSafe(Lookup(params, "maxUses"), MAX_USES), IntervalFields(params, f);
    var reset := Lookup(params, "resetType");
    if uses.None? || interval.None? then None
    else if reset.Some? && reset.value !in [Str("rolling"), Str("calendar")] then None
    else
      var fixed := [Field("max_uses", Number(Decimal(uses.value)))] + interval.value;
      Some(if reset.None? then fixed else fixed + [Field("reset_type", reset.value)])
  }

  function Condition(kind: string, fields: Option<seq<Field>>): Option<RawNode> {
    if fields.None? then None else Some(RawCond(kind, Some(Obj(fields.value)), None, None))
  }

  /** The tree of a template, before canonicalization; `None` where the builder throws. */
  function Build(t: Template, params: seq<Field>, f: Formats): Option<RawNode> {
    match t
    case DestinationAllowlist => Condition(DEST, DestinationFields(params, "ALL", f))
    case DestinationBlocklist =>
      var inner := Condition(DEST, DestinationFields(params, "ANY", f));
      if inner.None? then None else Some(RawOp("NOT", [inner.value], None, None, None, None))
    case FeeCeiling =>
      var fee := PositiveSafe(Lookup(params, "maxFeeSats"), MAX_FEE);
      if fee.None? then None
      else Condition("TX_FEE_ABSOLUTE", Some([Field("operator", Str("LTE")), Field("value", Number(Decimal(fee.value)))]))
    case TimeWindow => Condition("TIME_BASED_CONSTRAINT", WindowFields(params, f))
    case UsageVelocity => Condition("COUNT_BASED_CONSTRAINT", VelocityFields(params, f))
    case ConsolidationOnly =>
      if params != [] then None else Condition("DERIVED_NO_NEW_OUTPUTS", Some([Field("expected_value", Bool(true))]))
  }

  /** `buildPolicyTemplateAst`, up to the encoding of the tree. */
  function BuildAst(t: Template, params: seq<Field>, f: Formats): Option<PolicyNode> {
    var raw := Build(t, params, f);
    if raw.None? || Canonicalize(raw.value).Err? then None else Some(Canonicalize(raw.value).value)
  }

  // ----- the gate takes them

  lemma {:induction false} LookupAt(fields: seq<Field>, i: nat)
    requires DistinctKeys(fields) && i < |fields|
    ensures Lookup(fields, fields[i].key) == Some(fields[i].value)
  {
    if i > 0 {
      LookupAt(fields[1..], i - 1);
    }
  }

  /** Looking a key up in the sorted object finds the normalized value. */
  lemma {:induction false} LookupNorm(fields: seq<Field>, i: nat)
    requires DistinctKeys(fields) && i < |fields|
    ensures Lookup(Norm(Obj(fields)).fields, fields[i].key) == Some(Norm(fields[i].value))
  {
    var normed := NormFields(fields);
    var sorted := Sort(KeyOf, normed);
    NormFieldAt(fields, i);
    SortDistinct(normed);
    assert normed[i] in sorted;
    var j :| 0 <= j < |sorted| && sorted[j] == normed[i];
    LookupAt(sorted, j);
  }

  lemma {:induction false} DestinationKeys(params: seq<Field>, selector: string, f: Formats)
    requires DestinationFields(params, selector, f).Some?
    ensures DistinctKeys(DestinationFields(params, selector, f).value)
    ensures NoProto(DestinationFields(params, selector, f).value)
  {
    var fields := DestinationFields(params, selector, f).value;
    assert forall i :: 0 <= i < |fields| ==>
        fields[i].key[0] == if i == 0 then 's' else if i == 1 then 'a' else if i == 2 then 'n' else 'r';
  }

  lemma {:induction false} TypeField(selector: string)
    ensures Norm(Obj([Field("type", Str(selector))])) == Obj([Field("type", Str(selector))])
  {
    var fields := [Field("type", Str(selector))];
    assert NormFields(fields) == fields by { assert fields[1..] == []; }
    SortDistinct(fields);
    SortContents(KeyOf, fields);
    SameLengthOne(Sort(KeyOf, fields), fields[0]);
  }

  lemma {:induction false} SameLengthOne(xs: seq<Field>, x: Field)
    requires multiset(xs) == multiset([x])
    ensures xs == [x]
  {
    assert |multiset(xs)| == |xs|;
    assert xs[0] in multiset(xs);
  }

  /** The blocklist's condition has the one shape a NOT may stand on. */
  lemma {:induction false} BlocklistHasShape(params: seq<Field>, f: Formats)
    requires DestinationFields(params, "ANY", f).Some?
    ensures BlocklistShape(Cond(DEST, Norm(Obj(DestinationFields(params, "ANY", f).value)).fields, None))
  {
    var fields := DestinationFields(params, "ANY", f).value;
    DestinationKeys(params, "ANY", f);
    LookupNorm(fields, 0);
    TypeField("ANY");
    LookupNorm(fields, 1);
    LookupNorm(fields, 2);
    assert Lookup([Field("type", Str("ANY"))], "type") == Some(Str("ANY"));
  }

  lemma {:induction false} TemplateKindsOk()
    ensures LeafOk("TX_FEE_ABSOLUTE", false) && LeafOk("TIME_BASED_CONSTRAINT", false)
    ensures LeafOk("COUNT_BASED_CONSTRAINT", false) && LeafOk("DERIVED_NO_NEW_OUTPUTS", false)
  {
    NotInherited("TX_FEE_ABSOLUTE");
    NotInherited("TIME_BASED_CONSTRAINT");
    NotInherited("COUNT_BASED_CONSTRAINT");
    NotInherited("DERIVED_NO_NEW_OUTPUTS");
    assert Verdicts()["TX_FEE_ABSOLUTE"] == SoundWithConditions;
    assert Verdicts()["TIME_BASED_CONSTRAINT"] == SoundWithConditions;
    assert Verdicts()["COUNT_BASED_CONSTRAINT"] == SoundWithConditions;
    assert Verdicts()["DERIVED_NO_NEW_OUTPUTS"] == SoundWithConditions;
  }

  /** A single selectable condition passes. */
  lemma {:induction false} ConditionPasses(kind: string, fields: seq<Field>)
    requires LeafOk(kind, false)
    ensures var r := Canonicalize(RawCond(kind, Some(Obj(fields)), None, None)); r.Ok? && Accepts(r.value, false)
  {
    var n := Cond(kind, Norm(Obj(Assignable(fields))).fields, None);
    assert Canonicalize(RawCond(kind, Some(Obj(fields)), None, None)) == Ok(n);
    AcceptsIffAcceptable(n, false);
  }

  /** Every template but the blocklist makes one condition of a selectable kind. */
  lemma {:induction false} SingleConditions(t: Template, params: seq<Field>, f: Formats) returns (kind: string, fields: seq<Field>)
    requires Build(t, params, f).Some? && t != DestinationBlocklist
    ensures Build(t, params, f) == Some(RawCond(kind, Some(Obj(fields)), None, None)) && LeafOk(kind, false)
  {
    TemplateKindsOk();
    DestIsLeafOk(false);
    var raw := Build(t, params, f).value;
    kind, fields := raw.conditionType, raw.conditionParams.value.fields;
  }

  /** The gate, at its strictest, takes the output of every template on all its parameters. */
  lemma {:induction false} TemplatesPassTheGate(t: Template, params: seq<Field>, f: Formats)
    requires Build(t, params, f).Some?
    ensures BuildAst(t, params, f).Some? && Accepts(BuildAst(t, params, f).value, false)
  {
    if t == DestinationBlocklist {
      BlocklistPasses(params, f);
    } else {
      var kind, fields := SingleConditions(t, params, f);
      ConditionPasses(kind, fields);
    }
  }

  lemma {:induction false} BlocklistPasses(params: seq<Field>, f: Formats)
    requires Build(DestinationBlocklist, params, f).Some?
    ensures var r := BuildAst(DestinationBlocklist, params, f); r.Some? && Accepts(r.value, false)
  {
    var fields := DestinationFields(params, "ANY", f).value;
    var inner := RawCond(DEST, Some(Obj(fields)), None, None);
    var b := Cond(DEST, Norm(Obj(fields)).fields, None);
    var not := Op(Not, [b], None, None);
    BlocklistHasShape(params, f);
    assert Canonicalize(inner) == Ok(b) by {
      DestinationKeys(params, "ANY", f);
      AssignableIff(fields);
    }
    NotOfOne(inner, b);
    NotOfBlocklist(b, false);
    AcceptsIffAcceptable(not, false);
  }

  lemma {:induction false} NotOfOne(inner: RawNode, b: PolicyNode)
    requires Canonicalize(inner) == Ok(b)
    ensures Canonicalize(RawOp("NOT", [inner], None, None, None, None)) == Ok(Op(Not, [b], None, None))
  {
    assert ParseOperator("NOT") == Some(Not) by { ParseOperatorName(Not); }
    assert [inner][1..] == [];
    assert CanonicalizeAll([inner]) == Ok([b] + []) && [b] + [] == [b];
    ArrangeSpec(Not, [b]);
    assert Arrange(Not, [b]) == [b];
  }

  // ----- selection records

  datatype Selection = Selection(catalogueVersion: nat, template: Template, templateVersion: nat, astDigestHex: string,
                                 params: seq<Field>)

  const CATALOGUE_VERSION: nat := 1
  const TEMPLATE_VERSION: nat := 1

  /** `createPolicyTemplateSelection` for a hard template. */
  function Create(t: Template, params: seq<Field>, f: Formats, digest: PolicyNode -> string): Option<Selection> {
    var ast := BuildAst(t, params, f);
    if ast.None? then None
    else Some(Selection(CATALOGUE_VERSION, t, TEMPLATE_VERSION, digest(ast.value), params))
  }

  /** `validatePolicyTemplateSelection` for a hard template. */
  predicate Validates(s: Selection, f: Formats, digest: PolicyNode -> string) {
    var ast := BuildAst(s.template, s.params, f);
    && s.catalogueVersion == CATALOGUE_VERSION && s.templateVersion == TEMPLATE_VERSION
    && ast.Some? && s.astDigestHex == digest(ast.value) && Accepts(ast.value, false)
  }

  /** Every selection that can be created validates, and no other record with its parameters does. */
  lemma {:induction false} CreatedIffValid(s: Selection, f: Formats, digest: PolicyNode -> string)
    ensures Create(s.template, s.params, f, digest) == Some(s) <==> Validates(s, f, digest)
  {
    if Build(s.template, s.params, f).Some? {
      TemplatesPassTheGate(s.template, s.params, f);
    }
  }
}
