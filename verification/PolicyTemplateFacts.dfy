/**
  What each hard template asks of its parameters and what it makes of them, entry by entry.
 */
module PolicyTemplateFacts {
  import opened Json
  import opened Options
  import opened PolicyInput
  import opened PolicyTemplates

  /** A parameter that is a positive integer of at most `max`. */
  predicate Positive(params: seq<Field>, key: string, n: nat, max: nat) {
    Lookup(params, key) == Some(Number(Decimal(n))) && 1 <= n <= max
  }

  lemma {:induction false} PositiveIs(params: seq<Field>, key: string, max: nat)
    requires max <= 9007199254740991
    ensures var r := PositiveSafe(Lookup(params, key), max);
            && (r.Some? ==> Positive(params, key, r.value, max))
            && (forall n: nat :: Positive(params, key, n, max) ==> r == Some(n))
  {
    forall n: nat | Positive(params, key, n, max) ensures PositiveSafe(Lookup(params, key), max) == Some(n) {
      SafeNatDecimal(n);
    }
  }

  // ----- destination sets

  /** Addresses are texts of 14 to 90 characters without blanks, none twice. */
  ghost predicate AddressList(items: seq<Json>, f: Formats) {
    && items != []
    && (forall i :: 0 <= i < |items| ==> items[i].Str? && 14 <= |items[i].s| <= 90 && forall c :: c in items[i].s ==> !f.blank(c))
    && (forall i, j :: 0 <= i < j < |items| ==> items[i] != items[j])
  }

  ghost predicate DestinationParams(params: seq<Field>, f: Formats) {
    && (exists items :: Lookup(params, "addresses") == Some(Arr(items)) && AddressList(items, f))
    && (Lookup(params, "network") == Some(Str("signet")) || Lookup(params, "network") == Some(Str("mainnet")))
    && (var change := Lookup(params, "requireChangeToInputAddresses"); change.None? || change.value.Bool?)
  }

  lemma {:induction false} AddressesAre(v: Option<Json>, f: Formats)
    ensures Addresses(v, f) <==> exists items :: v == Some(Arr(items)) && AddressList(items, f)
  {
    if v.Some? && v.value.Arr? {
      var items := v.value.items;
      assert v == Some(Arr(items));
      if Addresses(v, f) {
        forall i | 0 <= i < |items|
          ensures items[i].Str? && 14 <= |items[i].s| <= 90 && forall c :: c in items[i].s ==> !f.blank(c)
        {
          assert Address(items[i], f);
        }
        assert AddressList(items, f);
      }
      if AddressList(items, f) {
        forall i | 0 <= i < |items| ensures Address(items[i], f) {
          assert forall k :: 0 <= k < |items[i].s| ==> items[i].s[k] in items[i].s;
        }
      }
    }
  }

  /** The condition of a destination set: selector, addresses, network, and the change flag if it is given. */
  function DestinationCondition(params: seq<Field>, selector: string): RawNode
    requires Lookup(params, "addresses").Some? && Lookup(params, "network").Some?
  {
    var change := Lookup(params, "requireChangeToInputAddresses");
    RawCond("OUTPUT_DEST_IS_IN_SETS",
            Some(Obj([Field("selector", Obj([Field("type", Str(selector))])), Field("addresses", Lookup(params, "addresses").value),
                      Field("network", Lookup(params, "network").value)] +
                     (if change.None? then [] else [Field("require_change_to_input_addresses", change.value)]))),
            None, None)
  }

  /** The allowlist asks every output to go to the addresses; the blocklist forbids any output that does. */
  lemma {:induction false} DestinationTemplates(params: seq<Field>, f: Formats)
    ensures Build(DestinationAllowlist, params, f).Some? <==> DestinationParams(params, f)
    ensures Build(DestinationBlocklist, params, f).Some? <==> DestinationParams(params, f)
    ensures DestinationParams(params, f) ==>
              Build(DestinationAllowlist, params, f) == Some(DestinationCondition(params, "ALL"))
    ensures DestinationParams(params, f) ==>
              Build(DestinationBlocklist, params, f) ==
              Some(RawOp("NOT", [DestinationCondition(params, "ANY")], None, None, None, None))
  {
    AddressesAre(Lookup(params, "addresses"), f);
    if DestinationParams(params, f) {
      DestinationEntries(params, "ALL", f);
      DestinationEntries(params, "ANY", f);
    }
  }

  lemma {:induction false} DestinationEntries(params: seq<Field>, selector: string, f: Formats)
    requires DestinationParams(params, f)
    ensures Condition("OUTPUT_DEST_IS_IN_SETS", DestinationFields(params, selector, f)) == Some(DestinationCondition(params, selector))
  {
    AddressesAre(Lookup(params, "addresses"), f);
    var fixed := [Field("selector", Obj([Field("type", Str(selector))])), Field("addresses", Lookup(params, "addresses").value),
                  Field("network", Lookup(params, "network").value)];
    assert fixed + [] == fixed;
  }

  // ----- fees and consolidation

  /** The fee ceiling takes 1 to 2100000000000000 satoshis and bounds the fee from above. */
  lemma {:induction false} FeeTemplate(params: seq<Field>, f: Formats)
    ensures Build(FeeCeiling, params, f).Some? <==> exists n: nat :: Positive(params, "maxFeeSats", n, 2100000000000000)
    ensures forall n: nat :: Positive(params, "maxFeeSats", n, 2100000000000000) ==>
              Build(FeeCeiling, params, f) ==
              Some(RawCond("TX_FEE_ABSOLUTE", Some(Obj([Field("operator", Str("LTE")), Field("value", Number(Decimal(n)))])), None, None))
  {
    PositiveIs(params, "maxFeeSats", 2100000000000000);
  }

  lemma {:induction false} ConsolidationTemplate(params: seq<Field>, f: Formats)
    ensures Build(ConsolidationOnly, params, f) ==
            if params == [] then
              Some(RawCond("DERIVED_NO_NEW_OUTPUTS", Some(Obj([Field("expected_value", Bool(true))])), None, None))
            else None
  {
  }

  // ----- time windows

  /** `after` asks for a start and passes it on. */
  lemma {:induction false} AfterTemplate(params: seq<Field>, f: Formats)
    requires Lookup(params, "mode") == Some(Str("after"))
    ensures Build(TimeWindow, params, f).Some? <==> exists n: nat :: Positive(params, "startUnixSeconds", n, 9007199254740991)
    ensures forall n: nat :: Positive(params, "startUnixSeconds", n, 9007199254740991) ==>
              Build(TimeWindow, params, f) ==
              Some(RawCond("TIME_BASED_CONSTRAINT",
                           Some(Obj([Field("constraint_type", Str("after")), Field("start_time", Number(Decimal(n)))])), None, None))
  {
    PositiveIs(params, "startUnixSeconds", 9007199254740991);
  }

  lemma {:induction false} OtherModesRefused(params: seq<Field>, f: Formats)
    requires Lookup(params, "mode") != Some(Str("after")) && Lookup(params, "mode") != Some(Str("within"))
    ensures Build(TimeWindow, params, f).None?
  {
  }

  /** A text parameter that passes a test. */
  predicate TextWith(params: seq<Field>, key: string, s: string, test: string -> bool) {
    s != "" && Lookup(params, key) == Some(Str(s)) && test(s)
  }

  /** A window from start to end, within hours and dates. */
  datatype Window = Window(start: nat, end: nat, startHour: string, endHour: string, startDate: string, endDate: string, days: seq<Json>)

  /** The window the parameters describe: its ends in order, its hours in order, its days from 1 to 7. */
  ghost predicate Describes(params: seq<Field>, f: Formats, w: Window) {
    && Positive(params, "startUnixSeconds", w.start, 9007199254740991)
    && Positive(params, "endUnixSeconds", w.end, 9007199254740991) && w.start < w.end
    && TextWith(params, "startHourUtc", w.startHour, f.hour) && TextWith(params, "endHourUtc", w.endHour, f.hour)
    && f.minutes(w.startHour) < f.minutes(w.endHour)
    && TextWith(params, "startDate", w.startDate, f.isoDate) && TextWith(params, "endDate", w.endDate, f.isoDate)
    && Lookup(params, "activeDays") == Some(Arr(w.days)) && w.days != []
    && forall i :: 0 <= i < |w.days| ==> WeekDay(w.days[i])
  }

  predicate WeekDay(v: Json) {
    v == Number("1") || v == Number("2") || v == Number("3") || v == Number("4") || v == Number("5") || v == Number("6") ||
    v == Number("7")
  }

  lemma {:induction false} DayIs(v: Json)
    ensures Day(v) <==> WeekDay(v)
  {
    Digits1To7();
    if Day(v) {
      var n := SafeNat(v).value;
      assert n == 1 || n == 2 || n == 3 || n == 4 || n == 5 || n == 6 || n == 7;
    }
    SafeNatDecimal(1);
    SafeNatDecimal(2);
    SafeNatDecimal(3);
    SafeNatDecimal(4);
    SafeNatDecimal(5);
    SafeNatDecimal(6);
    SafeNatDecimal(7);
  }

  lemma {:induction false} Digits1To7()
    ensures Decimal(1) == "1" && Decimal(2) == "2" && Decimal(3) == "3" && Decimal(4) == "4"
    ensures Decimal(5) == "5" && Decimal(6) == "6" && Decimal(7) == "7"
  {
  }

  lemma {:induction false} DaysAre(v: Option<Json>)
    ensures ActiveDays(v).Some? <==>
            exists days :: v == Some(Arr(days)) && days != [] && forall i :: 0 <= i < |days| ==> WeekDay(days[i])
    ensures ActiveDays(v).Some? ==> v.value.Arr? && ActiveDays(v).value == DaysUpTo(v.value.items, 7)
  {
    if v.Some? && v.value.Arr? {
      var days := v.value.items;
      assert v == Some(Arr(days));
      forall i | 0 <= i < |days| ensures Day(days[i]) <==> WeekDay(days[i]) {
        DayIs(days[i]);
      }
    }
  }

  /** The days come out in order, each that was given and no other, once. */
  lemma {:induction false} DaysInOrder(items: seq<Json>, day: nat)
    ensures var ds := DaysUpTo(items, day);
            && |ds| <= day
            && (forall i :: 0 <= i < |ds| ==> ds[i] in items && IsDay(ds[i], 1, day))
            && (forall d: nat :: 1 <= d <= day && Number(Decimal(d)) in items ==> Number(Decimal(d)) in ds)
            && (forall i, j :: 0 <= i < j < |ds| ==> DayBefore(ds[i], ds[j]))
    decreases day
  {
    if day > 0 {
      DaysInOrder(items, day - 1);
      var front := DaysUpTo(items, day - 1);
      var ds := DaysUpTo(items, day);
      forall i | 0 <= i < |ds| ensures ds[i] in items && IsDay(ds[i], 1, day) {
        if i < |front| {
          var d: nat :| IsDayNumber(front[i], d) && 1 <= d <= day - 1;
          assert IsDayNumber(ds[i], d);
        } else {
          assert IsDayNumber(ds[i], day);
        }
      }
      forall i, j | 0 <= i < j < |ds| ensures DayBefore(ds[i], ds[j]) {
        if j < |front| {
          assert DayBefore(front[i], front[j]);
        } else {
          assert IsDay(front[i], 1, day - 1);
          var d: nat :| IsDayNumber(front[i], d) && 1 <= d <= day - 1;
          assert IsDayNumber(ds[i], d) && IsDayNumber(ds[j], day);
        }
      }
    }
  }

  predicate IsDayNumber(v: Json, d: nat) {
    v == Number(Decimal(d))
  }

  ghost predicate IsDay(v: Json, lo: nat, hi: nat) {
    exists d: nat :: IsDayNumber(v, d) && lo <= d <= hi
  }

  ghost predicate DayBefore(v: Json, w: Json) {
    exists d: nat, e: nat :: IsDayNumber(v, d) && IsDayNumber(w, e) && d < e
  }

  lemma {:induction false} TextIs(params: seq<Field>, key: string, f: Formats)
    ensures HourOf(Lookup(params, key), f).Some? ==> TextWith(params, key, HourOf(Lookup(params, key), f).value, f.hour)
    ensures forall s :: TextWith(params, key, s, f.hour) ==> HourOf(Lookup(params, key), f) == Some(s)
    ensures DateOf(Lookup(params, key), f).Some? ==> TextWith(params, key, DateOf(Lookup(params, key), f).value, f.isoDate)
    ensures forall s :: TextWith(params, key, s, f.isoDate) ==> DateOf(Lookup(params, key), f) == Some(s)
  {
  }

  /** What the builder reads of a window. */
  predicate ReadsWindow(params: seq<Field>, f: Formats, w: Window) {
    && PositiveSafe(Lookup(params, "startUnixSeconds"), MAX_SAFE_INTEGER) == Some(w.start)
    && PositiveSafe(Lookup(params, "endUnixSeconds"), MAX_SAFE_INTEGER) == Some(w.end)
    && HourOf(Lookup(params, "startHourUtc"), f) == Some(w.startHour) && HourOf(Lookup(params, "endHourUtc"), f) == Some(w.endHour)
    && DateOf(Lookup(params, "startDate"), f) == Some(w.startDate) && DateOf(Lookup(params, "endDate"), f) == Some(w.endDate)
    && Lookup(params, "activeDays") == Some(Arr(w.days)) && ActiveDays(Lookup(params, "activeDays")) == Some(DaysUpTo(w.days, 7))
    && w.start < w.end && f.minutes(w.startHour) < f.minutes(w.endHour)
  }

  lemma {:induction false} ReadsIff(params: seq<Field>, f: Formats, w: Window)
    ensures ReadsWindow(params, f, w) <==> Describes(params, f, w)
  {
    PositiveIs(params, "startUnixSeconds", 9007199254740991);
    PositiveIs(params, "endUnixSeconds", 9007199254740991);
    TextIs(params, "startHourUtc", f);
    TextIs(params, "endHourUtc", f);
    TextIs(params, "startDate", f);
    TextIs(params, "endDate", f);
    DaysAre(Lookup(params, "activeDays"));
  }

  lemma {:induction false} WithinEntries(params: seq<Field>, f: Formats, w: Window)
    requires ReadsWindow(params, f, w)
    ensures WithinFields(params, f) ==
            Some([Field("constraint_type", Str("within")), Field("active_days", Arr(DaysUpTo(w.days, 7))),
                  Field("start_hour", Str(w.startHour)), Field("end_hour", Str(w.endHour)),
                  Field("start_date_within", Str(w.startDate)), Field("end_date_within", Str(w.endDate)),
                  Field("start_time", Number(Decimal(w.start))), Field("end_time", Number(Decimal(w.end)))])
  {
  }

  /** `within` asks for a window and passes all of it on, the days sorted and once each. */
  lemma {:induction false} WithinTemplate(params: seq<Field>, f: Formats, w: Window)
    requires Lookup(params, "mode") == Some(Str("within")) && Describes(params, f, w)
    ensures Build(TimeWindow, params, f) ==
            Some(RawCond("TIME_BASED_CONSTRAINT",
                         Some(Obj([Field("constraint_type", Str("within")), Field("active_days", Arr(DaysUpTo(w.days, 7))),
                                   Field("start_hour", Str(w.startHour)), Field("end_hour", Str(w.endHour)),
                                   Field("start_date_within", Str(w.startDate)), Field("end_date_within", Str(w.endDate)),
                                   Field("start_time", Number(Decimal(w.start))), Field("end_time", Number(Decimal(w.end)))])), None, None))
  {
    ReadsIff(params, f, w);
    WithinEntries(params, f, w);
    WithinBuilds(params, f);
  }

  lemma {:induction false} WithinBuilds(params: seq<Field>, f: Formats)
    requires Lookup(params, "mode") == Some(Str("within"))
    ensures Build(TimeWindow, params, f) == Condition("TIME_BASED_CONSTRAINT", WithinFields(params, f))
  {
  }

  lemma {:induction false} WithinNeedsWindow(params: seq<Field>, f: Formats) returns (w: Window)
    requires Lookup(params, "mode") == Some(Str("within")) && Build(TimeWindow, params, f).Some?
    ensures Describes(params, f, w)
  {
    WithinBuilds(params, f);
    w := WindowRead(params, f);
    ReadsIff(params, f, w);
  }

  lemma {:induction false} WindowRead(params: seq<Field>, f: Formats) returns (w: Window)
    requires WithinFields(params, f).Some?
    ensures ReadsWindow(params, f, w)
  {
    DaysAre(Lookup(params, "activeDays"));
    w := Window(PositiveSafe(Lookup(params, "startUnixSeconds"), MAX_SAFE_INTEGER).value,
                PositiveSafe(Lookup(params, "endUnixSeconds"), MAX_SAFE_INTEGER).value,
                HourOf(Lookup(params, "startHourUtc"), f).value, HourOf(Lookup(params, "endHourUtc"), f).value,
                DateOf(Lookup(params, "startDate"), f).value, DateOf(Lookup(params, "endDate"), f).value,
                Lookup(params, "activeDays").value.items);
  }

  // ----- usage velocity

  /** A named interval or a duration. */
  predicate Named(s: string, f: Formats) {
    s == "never" || s == "hourly" || s == "daily" || s == "weekly" || s == "monthly" || (s != "" && f.duration(s))
  }

  /** The reset interval that the parameters name, as entries. */
  ghost predicate Interval(params: seq<Field>, f: Formats, entries: seq<Field>) {
    || (exists s :: Lookup(params, "resetInterval") == Some(Str(s)) && Named(s, f) && Lookup(params, "resetIntervalSeconds").None?
          && entries == [Field("reset_interval", Str(s))])
    || (Lookup(params, "resetInterval") == Some(Str("custom")) && !f.duration("custom") && exists n: nat ::
          Positive(params, "resetIntervalSeconds", n, 315360000) && n >= 60
          && entries == [Field("reset_interval", Str("custom")), Field("reset_interval_seconds", Number(Decimal(n)))])
  }

  lemma {:induction false} IntervalIs(params: seq<Field>, f: Formats)
    ensures IntervalFields(params, f).Some? ==> Interval(params, f, IntervalFields(params, f).value)
    ensures forall entries :: Interval(params, f, entries) ==> IntervalFields(params, f) == Some(entries)
  {
    PositiveIs(params, "resetIntervalSeconds", 315360000);
    NotNamed();
  }

  lemma {:induction false} NotNamed()
    ensures "custom" !in ["never", "hourly", "daily", "weekly", "monthly"]
  {
    assert |"custom"| == 6 && "custom"[0] == 'c';
  }

  /** The velocity takes 1 to 100000 uses, an interval and, if given, a way to reset. */
  lemma {:induction false} VelocityTemplate(params: seq<Field>, f: Formats)
    ensures Build(UsageVelocity, params, f).Some? <==>
            && (exists n: nat :: Positive(params, "maxUses", n, 100000))
            && (exists entries :: Interval(params, f, entries))
            && (var reset := Lookup(params, "resetType");
                reset.None? || reset == Some(Str("rolling")) || reset == Some(Str("calendar")))
    ensures forall n: nat, entries :: Build(UsageVelocity, params, f).Some? && Positive(params, "maxUses", n, 100000)
                                      && Interval(params, f, entries) ==>
              var reset := Lookup(params, "resetType");
              Build(UsageVelocity, params, f) ==
              Some(RawCond("COUNT_BASED_CONSTRAINT",
                           Some(Obj([Field("max_uses", Number(Decimal(n)))] + entries +
                                    (if reset.None? then [] else [Field("reset_type", reset.value)]))), None, None))
  {
    PositiveIs(params, "maxUses", 100000);
    IntervalIs(params, f);
    var uses, interval := PositiveSafe(Lookup(params, "maxUses"), MAX_USES), IntervalFields(params, f);
    ResetIs(Lookup(params, "resetType"));
    if uses.Some? && interval.Some? {
      VelocityEntries(params, f, uses.value, interval.value);
    }
  }

  lemma {:induction false} ResetIs(v: Option<Json>)
    ensures v.Some? ==> (v.value in [Str("rolling"), Str("calendar")] <==> v == Some(Str("rolling")) || v == Some(Str("calendar")))
  {
  }

  lemma {:induction false} VelocityEntries(params: seq<Field>, f: Formats, n: nat, entries: seq<Field>)
    requires PositiveSafe(Lookup(params, "maxUses"), MAX_USES) == Some(n) && IntervalFields(params, f) == Some(entries)
    ensures var reset := Lookup(params, "resetType");
            VelocityFields(params, f) ==
            if reset.Some? && reset.value !in [Str("rolling"), Str("calendar")] then None
            else Some([Field("max_uses", Number(Decimal(n)))] + entries + (if reset.None? then [] else [Field("reset_type", reset.value)]))
  {
    var fixed := [Field("max_uses", Number(Decimal(n)))] + entries;
    assert fixed + [] == fixed;
  }
}
