/**
  The binary contract encoding of the canonical policy tree and its decoder.
 */
module PolicyEncoding {
  import opened Sorting
  import opened Json
  import opened Options
  import opened Bytes
  import opened PolicyAst
  import opened PolicyEquivalence
  import opened PolicyInput
  import opened PolicyOrder

  const CONTRACT_ID: byte := 0x07
  const CONTRACT_VERSION: byte := 1

  /** The conversions the runtime supplies: UTF-8 both ways, canonical text and `JSON.parse`. */
  datatype Platform = Platform(encode: string -> seq<byte>, decode: seq<byte> -> string,
                               canonical: Json -> string, parse: string -> Option<Json>)

  /** A JSON value as JavaScript holds it: each key once, keys kept sorted here. */
  ghost predicate SortedValue(v: Json) {
    WellFormed(v) && Norm(v) == v
  }

  /** Decoding undoes encoding, and parsing undoes canonical text. */
  ghost predicate Faithful(pl: Platform) {
    && (forall s :: pl.decode(pl.encode(s)) == s)
    && (forall v :: SortedValue(v) ==> pl.parse(pl.canonical(v)) == Some(v))
  }

  /** The one value a canonical text stands for. */
  ghost function ParseCanonical(text: string): Option<Json> {
    if v :| Render(v) == text then Some(v) else None
  }

  ghost function CanonicalPlatform(encode: string -> seq<byte>, decode: seq<byte> -> string): Platform {
    Platform(encode, decode, v => CanonicalJson(v), text => ParseCanonical(text))
  }

  /** `canonicalJson` can be parsed back: with it every invertible text encoding is faithful. */
  lemma {:induction false} CanonicalPlatformFaithful(encode: string -> seq<byte>, decode: seq<byte> -> string)
    requires forall s :: decode(encode(s)) == s
    ensures Faithful(CanonicalPlatform(encode, decode))
  {
    var pl := CanonicalPlatform(encode, decode);
    forall v | SortedValue(v) ensures pl.parse(pl.canonical(v)) == Some(v) {
      var text := Render(v);
      assert pl.canonical(v) == text;
      assert exists u :: Render(u) == text;
      var u := ParseCanonical(text).value;
      RenderInjective(u, v);
    }
  }

  function OperatorCode(op: Operator): byte {
    match op
    case And => 0x01 case Or => 0x02 case Not => 0x03 case Implies => 0x04 case Iff => 0x05
    case Threshold => 0x06 case WeightedThreshold => 0x07 case Majority => 0x08 case Exactly => 0x09
    case AtMost => 0x0a case Veto => 0x0b case Nor => 0x0c case Nand => 0x0d case Xor => 0x0e
  }

  function OperatorOf(code: byte): Option<Operator> {
    if code == 0x01 then Some(And) else if code == 0x02 then Some(Or) else if code == 0x03 then Some(Not)
    else if code == 0x04 then Some(Implies) else if code == 0x05 then Some(Iff)
    else if code == 0x06 then Some(PolicyAst.Threshold) else if code == 0x07 then Some(WeightedThreshold)
    else if code == 0x08 then Some(Majority) else if code == 0x09 then Some(Exactly)
    else if code == 0x0a then Some(AtMost) else if code == 0x0b then Some(Veto)
    else if code == 0x0c then Some(Nor) else if code == 0x0d then Some(Nand)
    else if code == 0x0e then Some(Xor) else None
  }

  // ----- encoding

  function Byte(b: byte): Written {
    Wrote([b])
  }

  function EncodeWeight(weight: Option<nat>): Written {
    match weight case None => Wrote([]) case Some(w) => Be(w, U32)
  }

  function WordWriter(): nat -> Written {
    (n: nat) => Be(n, U32)
  }

  function KOf(p: Option<OperatorParams>): Option<Json> {
    if p.Some? then p.value.k else None
  }

  function WeightsOf(p: Option<OperatorParams>): Option<seq<nat>> {
    if p.Some? then p.value.weights else None
  }

  function EncodeK(k: Option<Json>): Written {
    match k
    case None => Wrote([])
    case Some(v) => var n := SafeNat(v); if n.Some? then Be(n.value, U32) else OutOfRange
  }

  function EncodeWeights(ws: Option<seq<nat>>): Written {
    match ws case None => Wrote([]) case Some(v) => Cat(Be(|v|, U16), Many(WordWriter(), v))
  }

  function ParamFlags(p: Option<OperatorParams>): byte {
    (if KOf(p).Some? then 1 else 0) + (if WeightsOf(p).Some? then 2 else 0)
  }

  function EncodeValue(v: Json, pl: Platform): Written {
    match v
    case Str(s) => Cat(Byte(0x01), Delimited(pl.encode(s)))
    case Bool(b) => Cat(Byte(0x02), Byte(if b then 1 else 0))
    case _ =>
      var n := SafeNat(v);
      if n.Some? then Cat(Byte(0x03), Be(n.value, U64))
      else Cat(Byte(0x04), Delimited(pl.encode(pl.canonical(v))))
  }

  function FieldWriter(pl: Platform): Field -> Written {
    (f: Field) => EncodeField(f, pl)
  }

  function EncodeField(f: Field, pl: Platform): Written {
    Cat(Delimited(pl.encode(f.key)), EncodeValue(f.value, pl))
  }

  /** `encodeNode`; `OutOfRange` where a width check throws. */
  function EncodeNode(n: PolicyNode, pl: Platform): Written
    decreases n, 1
  {
    match n
    case Op(op, children, params, weight) =>
      Cat(EncodeHead(0x01, weight), Cat(EncodeOperatorHead(op, params, |children|), EncodeNodes(children, pl)))
    case Cond(kind, params, weight) =>
      Cat(EncodeHead(0x02, weight), EncodeCondition(kind, Sort(KeyOf, params), pl))
  }

  function EncodeOperatorHead(op: Operator, params: Option<OperatorParams>, count: nat): Written {
    Cat(Byte(OperatorCode(op)), Cat(EncodeOperatorParams(params), Be(count, U16)))
  }

  function EncodeCondition(kind: string, sorted: seq<Field>, pl: Platform): Written {
    Cat(Delimited(pl.encode(kind)), Cat(Be(|sorted|, U16), Many(FieldWriter(pl), sorted)))
  }

  function EncodeHead(kind: byte, weight: Option<nat>): Written {
    Cat(Cat(Byte(kind), Byte(if weight.Some? then 1 else 0)), EncodeWeight(weight))
  }

  function EncodeOperatorParams(p: Option<OperatorParams>): Written {
    Cat(Byte(ParamFlags(p)), Cat(EncodeK(KOf(p)), EncodeWeights(WeightsOf(p))))
  }

  function EncodeNodes(ns: seq<PolicyNode>, pl: Platform): Written
    decreases ns, 0
  {
    if ns == [] then Wrote([]) else Cat(EncodeNode(ns[0], pl), EncodeNodes(ns[1..], pl))
  }

  // ----- decoding, as functions of the buffer and an offset

  datatype Head = Head(kind: byte, weight: Option<nat>)

  function HeadAt(data: seq<byte>, offset: nat): (r: Parsed<Head>)
    ensures r.Got? ==> offset + 2 <= r.next <= |data|
  {
    var k := TakeAt(data, offset, 1);
    if k.Bad? then Bad(k.error)
    else
      var f := TakeAt(data, k.next, 1);
      if f.Bad? then Bad(f.error)
      else if f.value[0] > 1 then Bad(UnsupportedVersion)
      else if f.value[0] == 0 then Got(Head(k.value[0], None), f.next)
      else
        var w := BeAt(data, f.next, U32);
        if w.Bad? then Bad(w.error) else Got(Head(k.value[0], Some(w.value)), w.next)
  }

  function WordReader(data: seq<byte>): nat -> Parsed<nat> {
    (offset: nat) => BeAt(data, offset, U32)
  }

  function WordsAt(data: seq<byte>, offset: nat, count: nat): (r: Parsed<seq<nat>>)
    ensures r.Got? ==> r.next == offset + U32 * count && (offset <= |data| ==> r.next <= |data|)
    decreases count, offset
  {
    var r := ManyAt(WordReader(data), offset, count);
    WordsEnd(data, offset, count);
    r
  }

  lemma {:induction false} WordsEnd(data: seq<byte>, offset: nat, count: nat)
    ensures var r := ManyAt(WordReader(data), offset, count);
            r.Got? ==> r.next == offset + U32 * count && (offset <= |data| ==> r.next <= |data|)
    decreases count
  {
    if count > 0 && BeAt(data, offset, U32).Got? {
      WordsEnd(data, offset + U32, count - 1);
    }
  }

  function WeightsAt(data: seq<byte>, offset: nat): (r: Parsed<seq<nat>>)
    ensures r.Got? ==> offset < r.next <= |data|
  {
    var count := BeAt(data, offset, U16);
    if count.Bad? then Bad(count.error) else WordsAt(data, count.next, count.value)
  }

  function ParamsAt(data: seq<byte>, offset: nat): (r: Parsed<Option<OperatorParams>>)
    ensures r.Got? ==> offset < r.next <= |data|
  {
    var f := TakeAt(data, offset, 1);
    if f.Bad? then Bad(f.error)
    else if f.value[0] > 3 then Bad(UnsupportedVersion)
    else
      var k := if f.value[0] % 2 == 1 then BeAt(data, f.next, U32) else Got(0, f.next);
      if k.Bad? then Bad(k.error)
      else
        var kValue := if f.value[0] % 2 == 1 then Some(Number(Decimal(k.value))) else None;
        if f.value[0] < 2 then
          Got(if f.value[0] == 0 then None else Some(OperatorParams(kValue, None)), k.next)
        else
          var ws := WeightsAt(data, k.next);
          if ws.Bad? then Bad(ws.error) else Got(Some(OperatorParams(kValue, Some(ws.value))), ws.next)
  }

  function ValueAt(data: seq<byte>, offset: nat, pl: Platform): (r: Parsed<Json>)
    ensures r.Got? ==> offset < r.next <= |data|
  {
    var t := TakeAt(data, offset, 1);
    if t.Bad? then Bad(t.error)
    else if t.value[0] == 0x01 then
      var s := DelimitedAt(data, t.next);
      if s.Bad? then Bad(s.error) else Got(Str(pl.decode(s.value)), s.next)
    else if t.value[0] == 0x02 then
      var b := TakeAt(data, t.next, 1);
      if b.Bad? then Bad(b.error)
      else if b.value[0] > 1 then Bad(Malformed)
      else Got(Bool(b.value[0] == 1), b.next)
    else if t.value[0] == 0x03 then
      var n := BeAt(data, t.next, U64);
      if n.Bad? then Bad(n.error)
      else if n.value > MAX_SAFE_INTEGER then Bad(Malformed)
      else Got(Number(Decimal(n.value)), n.next)
    else if t.value[0] == 0x04 then
      var s := DelimitedAt(data, t.next);
      if s.Bad? then Bad(s.error)
      else
        var v := pl.parse(pl.decode(s.value));
        if v.None? then Bad(Malformed) else Got(v.value, s.next)
    else Bad(UnsupportedVersion)
  }

  /** `conditionParams[key] = value` */
  function Assign(fields: seq<Field>, f: Field): seq<Field> {
    if f.key == PROTO then fields
    else if fields == [] then [f]
    else if fields[0].key == f.key then [f] + fields[1..]
    else [fields[0]] + Assign(fields[1..], f)
  }

  function FieldAt(data: seq<byte>, offset: nat, pl: Platform): (r: Parsed<Field>)
    ensures r.Got? ==> offset < r.next <= |data|
  {
    var key := DelimitedAt(data, offset);
    if key.Bad? then Bad(key.error)
    else
      var v := ValueAt(data, key.next, pl);
      if v.Bad? then Bad(v.error) else Got(Field(pl.decode(key.value), v.value), v.next)
  }

  function FieldReader(data: seq<byte>, pl: Platform): nat -> Parsed<Field> {
    (offset: nat) => FieldAt(data, offset, pl)
  }

  /** The entries assigned to an empty object one after the other. */
  function Assigned(fields: seq<Field>): seq<Field> {
    if fields == [] then [] else Assign(Assigned(fields[..|fields| - 1]), fields[|fields| - 1])
  }

  lemma {:induction false} FieldsEnd(data: seq<byte>, offset: nat, count: nat, pl: Platform)
    ensures var r := ManyAt(FieldReader(data, pl), offset, count);
            r.Got? ==> offset <= r.next && (offset <= |data| ==> r.next <= |data|)
    decreases count
  {
    var f := FieldAt(data, offset, pl);
    if count > 0 && f.Got? {
      FieldsEnd(data, f.next, count - 1, pl);
    }
  }

  function FieldsAt(data: seq<byte>, offset: nat, count: nat, pl: Platform): (r: Parsed<seq<Field>>)
    ensures r.Got? ==> offset <= r.next && (offset <= |data| ==> r.next <= |data|)
  {
    FieldsEnd(data, offset, count, pl);
    var r := ManyAt(FieldReader(data, pl), offset, count);
    if r.Bad? then r else Got(Assigned(r.value), r.next)
  }

  function ConditionAt(data: seq<byte>, h: Head, offset: nat, pl: Platform): (r: Parsed<PolicyNode>)
    ensures r.Got? ==> offset <= r.next <= |data|
  {
    var kind := DelimitedAt(data, offset);
    if kind.Bad? then Bad(kind.error)
    else if pl.decode(kind.value) == "" then Bad(Malformed)
    else
      var count := BeAt(data, kind.next, U16);
      if count.Bad? then Bad(count.error)
      else
        var fields := FieldsAt(data, count.next, count.value, pl);
        if fields.Bad? then Bad(fields.error)
        else Got(Cond(pl.decode(kind.value), fields.value, h.weight), fields.next)
  }

  datatype OperatorHead = OperatorHead(op: Operator, params: Option<OperatorParams>, count: nat)

  /** Operator code, parameters and child count. */
  function OperatorHeadAt(data: seq<byte>, offset: nat): (r: Parsed<OperatorHead>)
    ensures r.Got? ==> offset <= r.next <= |data|
  {
    var code := TakeAt(data, offset, 1);
    if code.Bad? then Bad(code.error)
    else
      var op := OperatorOf(code.value[0]);
      if op.None? then Bad(UnsupportedVersion)
      else
        var params := ParamsAt(data, code.next);
        if params.Bad? then Bad(params.error)
        else
          var count := BeAt(data, params.next, U16);
          if count.Bad? then Bad(count.error)
          else if count.value == 0 then Bad(Malformed)
          else Got(OperatorHead(op.value, params.value, count.value), count.next)
  }

  /** `decodeNode`; terminates because every node consumes at least two bytes. */
  function NodeAt(data: seq<byte>, offset: nat, pl: Platform): (r: Parsed<PolicyNode>)
    ensures r.Got? ==> offset + 2 <= r.next <= |data|
    decreases |data| - offset, 0
  {
    var h := HeadAt(data, offset);
    if h.Bad? then Bad(h.error)
    else if h.value.kind == 0x01 then
      var o := OperatorHeadAt(data, h.next);
      if o.Bad? then Bad(o.error)
      else
        var children := NodesAt(data, o.next, o.value.count, pl);
        if children.Bad? then Bad(children.error)
        else Got(Op(o.value.op, children.value, o.value.params, h.value.weight), children.next)
    else if h.value.kind == 0x02 then ConditionAt(data, h.value, h.next, pl)
    else Bad(UnsupportedVersion)
  }

  function NodesAt(data: seq<byte>, offset: nat, count: nat, pl: Platform): (r: Parsed<seq<PolicyNode>>)
    ensures r.Got? ==> offset <= r.next && |r.value| == count
    ensures r.Got? && offset <= |data| ==> r.next <= |data|
    decreases |data| - offset, 1 + count
  {
    if count == 0 then Got([], offset)
    else
      var n := NodeAt(data, offset, pl);
      if n.Bad? then Bad(n.error)
      else
        var rest := NodesAt(data, n.next, count - 1, pl);
        Prepend([n.value], rest)
  }

  // ----- whole documents

  function EncodeV1(root: PolicyNode, pl: Platform): Written {
    Cat(Cat(Byte(CONTRACT_ID), Byte(CONTRACT_VERSION)), EncodeNode(root, pl))
  }

  /** `readContractHeader` */
  function HeaderAt(data: seq<byte>, offset: nat, id: byte, version: byte): (r: Parsed<()>)
    ensures r.Got? ==> r.next == offset + 2 <= |data|
  {
    var i := TakeAt(data, offset, 1);
    if i.Bad? then Bad(i.error)
    else if i.value[0] != id then Bad(UnsupportedVersion)
    else
      var v := TakeAt(data, i.next, 1);
      if v.Bad? then Bad(v.error)
      else if v.value[0] != version then Bad(UnsupportedVersion)
      else Got((), v.next)
  }

  function DecodeV1(data: seq<byte>, pl: Platform): Parsed<PolicyNode> {
    var h := HeaderAt(data, 0, CONTRACT_ID, CONTRACT_VERSION);
    if h.Bad? then Bad(h.error)
    else
      var n := NodeAt(data, h.next, pl);
      if n.Got? && n.next != |data| then Bad(Malformed) else n
  }

  // ----- decoding as the source runs it

  method ReadHead(d: Decoder) returns (r: Parsed<Head>)
    modifies d
    ensures r == HeadAt(d.data, old(d.offset))
    ensures r.Got? ==> d.offset == r.next
  {
    var k := d.ReadBytes(1);
    if k.Bad? {
      return Bad(k.error);
    }
    var f := d.ReadBytes(1);
    if f.Bad? {
      return Bad(f.error);
    }
    if f.value[0] > 1 {
      return Bad(UnsupportedVersion);
    }
    var weight: Option<nat> := None;
    if f.value[0] == 1 {
      var w := d.ReadBe(U32);
      if w.Bad? {
        return Bad(w.error);
      }
      weight := Some(w.value);
    }
    r := Got(Head(k.value[0], weight), d.offset);
  }

  method ReadWeights(d: Decoder) returns (r: Parsed<seq<nat>>)
    modifies d
    ensures r == WeightsAt(d.data, old(d.offset))
    ensures r.Got? ==> d.offset == r.next
  {
    var count := d.ReadBe(U16);
    if count.Bad? {
      return Bad(count.error);
    }
    ghost var start := d.offset;
    var weights: seq<nat> := [];
    ghost var item := WordReader(d.data);
    PrependNone(ManyAt(item, start, count.value));
    for i := 0 to count.value
      invariant ManyAt(item, start, count.value) == Prepend(weights, ManyAt(item, d.offset, count.value - i))
    {
      ManyStep(item, d.offset, count.value - i, weights);
      var w := d.ReadBe(U32);
      if w.Bad? {
        return Bad(w.error);
      }
      weights := weights + [w.value];
    }
    ManyDone(item, d.offset, weights);
    r := Got(weights, d.offset);
  }

  method ReadOperatorParams(d: Decoder) returns (r: Parsed<Option<OperatorParams>>)
    modifies d
    ensures r == ParamsAt(d.data, old(d.offset))
    ensures r.Got? ==> d.offset == r.next
  {
    var f := d.ReadBytes(1);
    if f.Bad? {
      return Bad(f.error);
    }
    var flags := f.value[0];
    if flags > 3 {
      return Bad(UnsupportedVersion);
    }
    var params: Option<OperatorParams> := None;
    if flags % 2 == 1 {
      var k := d.ReadBe(U32);
      if k.Bad? {
        return Bad(k.error);
      }
      params := Some(OperatorParams(Some(Number(Decimal(k.value))), None));
    }
    if flags >= 2 {
      var weights := ReadWeights(d);
      if weights.Bad? {
        return Bad(weights.error);
      }
      params := Some(OperatorParams(KOf(params), Some(weights.value)));
    }
    r := Got(params, d.offset);
  }

  method ReadValue(d: Decoder, pl: Platform) returns (r: Parsed<Json>)
    modifies d
    ensures r == ValueAt(d.data, old(d.offset), pl)
    ensures r.Got? ==> d.offset == r.next
  {
    var t := d.ReadBytes(1);
    if t.Bad? {
      return Bad(t.error);
    }
    var tag := t.value[0];
    if tag == 0x01 {
      var s := d.ReadDelimited();
      return if s.Bad? then Bad(s.error) else Got(Str(pl.decode(s.value)), s.next);
    } else if tag == 0x02 {
      var b := d.ReadBytes(1);
      return if b.Bad? then Bad(b.error)
             else if b.value[0] > 1 then Bad(Malformed)
             else Got(Bool(b.value[0] == 1), b.next);
    } else if tag == 0x03 {
      var n := d.ReadBe(U64);
      return if n.Bad? then Bad(n.error)
             else if n.value > MAX_SAFE_INTEGER then Bad(Malformed)
             else Got(Number(Decimal(n.value)), n.next);
    } else if tag == 0x04 {
      var s := d.ReadDelimited();
      if s.Bad? {
        return Bad(s.error);
      }
      var v := pl.parse(pl.decode(s.value));
      return if v.None? then Bad(Malformed) else Got(v.value, s.next);
    }
    r := Bad(UnsupportedVersion);
  }

  method ReadField(d: Decoder, pl: Platform) returns (r: Parsed<Field>)
    modifies d
    ensures r == FieldAt(d.data, old(d.offset), pl)
    ensures r.Got? ==> d.offset == r.next
  {
    var key := d.ReadDelimited();
    if key.Bad? {
      return Bad(key.error);
    }
    var v := ReadValue(d, pl);
    if v.Bad? {
      return Bad(v.error);
    }
    r := Got(Field(pl.decode(key.value), v.value), v.next);
  }

  method ReadFields(d: Decoder, count: nat, pl: Platform) returns (r: Parsed<seq<Field>>)
    modifies d
    ensures r == FieldsAt(d.data, old(d.offset), count, pl)
    ensures r.Got? ==> d.offset == r.next
  {
    ghost var seen: Parsed<seq<Field>>;
    r, seen := ReadAssigned(d, count, pl, FieldReader(d.data, pl));
  }

  /** `item` reads what `FieldAt` reads; stated so that it is used only where `FieldAt` is mentioned. */
  ghost predicate ReadsFields(item: nat -> Parsed<Field>, data: seq<byte>, pl: Platform) {
    forall offset: nat {:trigger FieldAt(data, offset, pl)} :: item(offset) == FieldAt(data, offset, pl)
  }

  method ReadItem(d: Decoder, pl: Platform, ghost item: nat -> Parsed<Field>) returns (r: Parsed<Field>)
    requires ReadsFields(item, d.data, pl)
    modifies d
    ensures r == item(old(d.offset))
    ensures r.Got? ==> d.offset == r.next
  {
    r := ReadField(d, pl);
  }

  /** The loop of `ReadFields`; `seen` is the list of entries read. */
  method ReadAssigned(d: Decoder, count: nat, pl: Platform, ghost item: nat -> Parsed<Field>)
      returns (r: Parsed<seq<Field>>, ghost seen: Parsed<seq<Field>>)
    requires ReadsFields(item, d.data, pl)
    modifies d
    ensures seen == ManyAt(item, old(d.offset), count)
    ensures r == if seen.Bad? then seen else Got(Assigned(seen.value), seen.next)
    ensures r.Got? ==> d.offset == r.next
  {
    ghost var done: seq<Field> := [];
    var fields: seq<Field> := [];
    seen := ManyAt(item, d.offset, count);
    PrependNone(seen);
    for i := 0 to count
      invariant seen == Prepend(done, ManyAt(item, d.offset, count - i))
      invariant fields == Assigned(done)
    {
      ManyStep(item, d.offset, count - i, done);
      var f := ReadItem(d, pl, item);
      if f.Bad? {
        return Bad(f.error), seen;
      }
      AssignedSnoc(done, f.value);
      done := done + [f.value];
      fields := Assign(fields, f.value);
    }
    ManyDone(item, d.offset, done);
    r := Got(fields, d.offset);
  }

  lemma {:induction false} AssignedSnoc(fields: seq<Field>, f: Field)
    ensures Assigned(fields + [f]) == Assign(Assigned(fields), f)
  {
    var all := fields + [f];
    assert all[..|all| - 1] == fields;
  }

  method DecodeOperatorHead(d: Decoder) returns (r: Parsed<OperatorHead>)
    modifies d
    ensures r == OperatorHeadAt(d.data, old(d.offset))
    ensures r.Got? ==> d.offset == r.next
  {
    var code := d.ReadBytes(1);
    if code.Bad? {
      return Bad(code.error);
    }
    var op := OperatorOf(code.value[0]);
    if op.None? {
      return Bad(UnsupportedVersion);
    }
    var params := ReadOperatorParams(d);
    if params.Bad? {
      return Bad(params.error);
    }
    var count := d.ReadBe(U16);
    if count.Bad? {
      return Bad(count.error);
    }
    if count.value == 0 {
      return Bad(Malformed);
    }
    r := Got(OperatorHead(op.value, params.value, count.value), count.next);
  }

  method DecodeCondition(d: Decoder, h: Head, pl: Platform) returns (r: Parsed<PolicyNode>)
    modifies d
    ensures r == ConditionAt(d.data, h, old(d.offset), pl)
    ensures r.Got? ==> d.offset == r.next
  {
    var kind := d.ReadDelimited();
    if kind.Bad? {
      return Bad(kind.error);
    }
    if pl.decode(kind.value) == "" {
      return Bad(Malformed);
    }
    var count := d.ReadBe(U16);
    if count.Bad? {
      return Bad(count.error);
    }
    var fields := ReadFields(d, count.value, pl);
    if fields.Bad? {
      return Bad(fields.error);
    }
    r := Got(Cond(pl.decode(kind.value), fields.value, h.weight), fields.next);
  }

  function NodeReader(data: seq<byte>, pl: Platform): nat -> Parsed<PolicyNode> {
    (offset: nat) => NodeAt(data, offset, pl)
  }

  lemma {:induction false} NodesAreMany(data: seq<byte>, offset: nat, count: nat, pl: Platform)
    ensures NodesAt(data, offset, count, pl) == ManyAt(NodeReader(data, pl), offset, count)
    decreases count
  {
    if count > 0 {
      var n := NodeReader(data, pl)(offset);
      NodesTurn(data, offset, count, pl, n);
      if n.Got? {
        NodesAreMany(data, n.next, count - 1, pl);
      }
    }
  }

  lemma {:induction false} NodesTurn(data: seq<byte>, offset: nat, count: nat, pl: Platform, n: Parsed<PolicyNode>)
    requires count > 0 && n == NodeAt(data, offset, pl)
    ensures NodesAt(data, offset, count, pl) ==
            if n.Bad? then Bad(n.error) else Prepend([n.value], NodesAt(data, n.next, count - 1, pl))
  {
  }

  /** `item` reads what `NodeAt` reads; stated so that it is used only where `NodeAt` is mentioned. */
  ghost predicate ReadsNodes(item: nat -> Parsed<PolicyNode>, data: seq<byte>, pl: Platform) {
    forall offset: nat {:trigger NodeAt(data, offset, pl)} :: item(offset) == NodeAt(data, offset, pl)
  }

  method DecodeChild(d: Decoder, pl: Platform, ghost item: nat -> Parsed<PolicyNode>) returns (r: Parsed<PolicyNode>)
    requires ReadsNodes(item, d.data, pl)
    modifies d
    ensures r == item(old(d.offset))
    ensures r.Got? ==> old(d.offset) < d.offset == r.next <= |d.data|
    decreases |d.data| - d.offset, 1
  {
    r := DecodeNode(d, pl);
  }

  method DecodeList(d: Decoder, count: nat, pl: Platform, ghost item: nat -> Parsed<PolicyNode>)
      returns (r: Parsed<seq<PolicyNode>>)
    requires ReadsNodes(item, d.data, pl)
    modifies d
    ensures r == ManyAt(item, old(d.offset), count)
    ensures r.Got? ==> d.offset == r.next
    decreases |d.data| - d.offset, 2
  {
    var children: seq<PolicyNode> := [];
    PrependNone(ManyAt(item, d.offset, count));
    for i := 0 to count
      invariant i > 0 ==> old(d.offset) < d.offset <= |d.data|
      invariant i == 0 ==> d.offset == old(d.offset)
      invariant ManyAt(item, old(d.offset), count) == Prepend(children, ManyAt(item, d.offset, count - i))
    {
      ManyStep(item, d.offset, count - i, children);
      var child := DecodeChild(d, pl, item);
      if child.Bad? {
        return Bad(child.error);
      }
      children := children + [child.value];
    }
    ManyDone(item, d.offset, children);
    r := Got(children, d.offset);
  }

  method DecodeChildren(d: Decoder, count: nat, pl: Platform) returns (r: Parsed<seq<PolicyNode>>)
    modifies d
    ensures r == NodesAt(d.data, old(d.offset), count, pl)
    ensures r.Got? ==> d.offset == r.next
    decreases |d.data| - d.offset, 3
  {
    NodesAreMany(d.data, d.offset, count, pl);
    r := DecodeList(d, count, pl, NodeReader(d.data, pl));
  }

  method DecodeNode(d: Decoder, pl: Platform) returns (r: Parsed<PolicyNode>)
    modifies d
    ensures r == NodeAt(d.data, old(d.offset), pl)
    ensures r.Got? ==> d.offset == r.next
    decreases |d.data| - d.offset, 0
  {
    var h := ReadHead(d);
    if h.Bad? {
      return Bad(h.error);
    }
    if h.value.kind == 0x01 {
      var o := DecodeOperatorHead(d);
      if o.Bad? {
        return Bad(o.error);
      }
      var children := DecodeChildren(d, o.value.count, pl);
      if children.Bad? {
        return Bad(children.error);
      }
      r := Got(Op(o.value.op, children.value, o.value.params, h.value.weight), children.next);
    } else if h.value.kind == 0x02 {
      r := DecodeCondition(d, h.value, pl);
    } else {
      r := Bad(UnsupportedVersion);
    }
  }

  method DecodeCanonicalPolicyAstV1(bytes: seq<byte>, pl: Platform) returns (r: Parsed<PolicyNode>)
    ensures r == DecodeV1(bytes, pl)
  {
    var d := new Decoder(bytes);
    var id := d.ReadBytes(1);
    if id.Bad? {
      return Bad(id.error);
    }
    if id.value[0] != CONTRACT_ID {
      return Bad(UnsupportedVersion);
    }
    var version := d.ReadBytes(1);
    if version.Bad? {
      return Bad(version.error);
    }
    if version.value[0] != CONTRACT_VERSION {
      return Bad(UnsupportedVersion);
    }
    r := DecodeNode(d, pl);
    if r.Got? && d.offset != |d.data| {
      r := Bad(Malformed);
    }
  }

  // ----- round trip

  /** What decoding gives back: an empty `operatorParams` object reads as absent. */
  function Reencoded(n: PolicyNode): PolicyNode
    decreases n, 1
  {
    match n
    case Cond(_, _, _) => n
    case Op(op, children, params, weight) =>
      Op(op, ReencodedAll(children), Kept(params), weight)
  }

  function ReencodedAll(ns: seq<PolicyNode>): (r: seq<PolicyNode>)
    ensures |r| == |ns|
    decreases ns, 0
  {
    if ns == [] then [] else [Reencoded(ns[0])] + ReencodedAll(ns[1..])
  }

  lemma {:induction false} OperatorCodeInverse(op: Operator)
    ensures OperatorOf(OperatorCode(op)) == Some(op)
  {
  }

  lemma {:induction false} ByteReads(data: seq<byte>, offset: nat, b: byte)
    requires At(data, offset, [b])
    ensures TakeAt(data, offset, 1) == Got([b], offset + 1)
  {
    TakeReads(data, offset, [b]);
  }

  lemma {:induction false} HeadReads(data: seq<byte>, offset: nat, kind: byte, weight: Option<nat>)
    requires EncodeHead(kind, weight).Wrote? && At(data, offset, EncodeHead(kind, weight).bytes)
    ensures HeadAt(data, offset) == Got(Head(kind, weight), offset + |EncodeHead(kind, weight).bytes|)
  {
    var flag: byte := if weight.Some? then 1 else 0;
    CatAt(data, offset, Cat(Byte(kind), Byte(flag)), EncodeWeight(weight));
    CatAt(data, offset, Byte(kind), Byte(flag));
    ByteReads(data, offset, kind);
    ByteReads(data, offset + 1, flag);
    if weight.Some? {
      BeReads(data, offset + 2, weight.value, U32);
    }
  }

  lemma {:induction false} WordsInvert(data: seq<byte>, ws: seq<nat>)
    ensures Inverts(WordReader(data), WordWriter(), data, ws)
  {
    forall i, offset: nat | 0 <= i < |ws| && Be(ws[i], U32).Wrote? && At(data, offset, Be(ws[i], U32).bytes)
      ensures BeAt(data, offset, U32) == Got(ws[i], offset + |Be(ws[i], U32).bytes|)
    {
      BeReads(data, offset, ws[i], U32);
    }
  }

  lemma {:induction false} ParamsRead(data: seq<byte>, offset: nat, p: Option<OperatorParams>)
    requires EncodeOperatorParams(p).Wrote? && At(data, offset, EncodeOperatorParams(p).bytes)
    ensures ParamsAt(data, offset) ==
            Got(Kept(p), offset + |EncodeOperatorParams(p).bytes|)
  {
    var k, ws := EncodeK(KOf(p)), EncodeWeights(WeightsOf(p));
    CatAt(data, offset, Byte(ParamFlags(p)), Cat(k, ws));
    ByteReads(data, offset, ParamFlags(p));
    CatAt(data, offset + 1, k, ws);
    if KOf(p).Some? {
      BeReads(data, offset + 1, SafeNat(KOf(p).value).value, U32);
    }
    if WeightsOf(p).Some? {
      var v := WeightsOf(p).value;
      var at := offset + 1 + |k.bytes|;
      CatAt(data, at, Be(|v|, U16), Many(WordWriter(), v));
      BeReads(data, at, |v|, U16);
      WordsInvert(data, v);
      ManyReads(WordReader(data), WordWriter(), data, at + U16, v);
    }
  }

  lemma {:induction false} ValueReads(data: seq<byte>, offset: nat, v: Json, pl: Platform)
    requires Faithful(pl) && SortedValue(v)
    requires EncodeValue(v, pl).Wrote? && At(data, offset, EncodeValue(v, pl).bytes)
    ensures ValueAt(data, offset, pl) == Got(v, offset + |EncodeValue(v, pl).bytes|)
  {
    if v.Str? {
      TaggedReads(data, offset, 0x01, pl.encode(v.s));
    } else if v.Bool? {
      var b: byte := if v.b then 1 else 0;
      CatAt(data, offset, Byte(0x02), Byte(b));
      ByteReads(data, offset, 0x02);
      ByteReads(data, offset + 1, b);
    } else if SafeNat(v).Some? {
      var n := SafeNat(v).value;
      CatAt(data, offset, Byte(0x03), Be(n, U64));
      ByteReads(data, offset, 0x03);
      BeReads(data, offset + 1, n, U64);
    } else {
      TaggedReads(data, offset, 0x04, pl.encode(pl.canonical(v)));
    }
  }

  lemma {:induction false} TaggedReads(data: seq<byte>, offset: nat, tag: byte, payload: seq<byte>)
    requires Cat(Byte(tag), Delimited(payload)).Wrote? && At(data, offset, Cat(Byte(tag), Delimited(payload)).bytes)
    ensures TakeAt(data, offset, 1) == Got([tag], offset + 1)
    ensures DelimitedAt(data, offset + 1) == Got(payload, offset + |Cat(Byte(tag), Delimited(payload)).bytes|)
  {
    CatAt(data, offset, Byte(tag), Delimited(payload));
    ByteReads(data, offset, tag);
    DelimitedReads(data, offset + 1, payload);
  }

  lemma {:induction false} AssignNew(fields: seq<Field>, f: Field)
    requires forall i :: 0 <= i < |fields| ==> fields[i].key != f.key
    ensures Assign(fields, f) == if f.key == PROTO then fields else fields + [f]
  {
    if fields != [] {
      AssignNew(fields[1..], f);
    }
  }

  lemma {:induction false} FieldReads(data: seq<byte>, offset: nat, f: Field, pl: Platform)
    requires Faithful(pl) && SortedValue(f.value)
    requires EncodeField(f, pl).Wrote? && At(data, offset, EncodeField(f, pl).bytes)
    ensures FieldAt(data, offset, pl) == Got(f, offset + |EncodeField(f, pl).bytes|)
  {
    var text := pl.encode(f.key);
    var key, value := Delimited(text), EncodeValue(f.value, pl);
    CatAt(data, offset, key, value);
    var a := offset + |key.bytes|;
    assert DelimitedAt(data, offset) == Got(text, a) by { DelimitedReads(data, offset, text); }
    assert pl.decode(text) == f.key;
    assert ValueAt(data, a, pl) == Got(f.value, a + |value.bytes|) by { ValueReads(data, a, f.value, pl); }
  }

  ghost predicate EachPlain(fields: seq<Field>) {
    forall i :: 0 <= i < |fields| ==> SortedValue(fields[i].value)
  }

  /** Assigning entries with different keys appends all but the prototype's. */
  lemma {:induction false} AssignedDistinct(fields: seq<Field>)
    requires DistinctKeys(fields)
    ensures Assigned(fields) == Assignable(fields)
    decreases |fields|
  {
    if fields != [] {
      var n := |fields| - 1;
      AssignedDistinct(fields[..n]);
      AssignLast(fields[..n], fields[n]);
      assert fields[..n] + [fields[n]] == fields;
    }
  }

  lemma {:induction false} AssignLast(fields: seq<Field>, f: Field)
    requires forall i :: 0 <= i < |fields| ==> fields[i].key != f.key
    ensures Assign(Assignable(fields), f) == Assignable(fields + [f])
  {
    var kept := Assignable(fields);
    forall i | 0 <= i < |kept| ensures kept[i].key != f.key {
      assert kept[i] in fields;
    }
    AssignNew(kept, f);
    AssignableSnoc(fields, f);
  }

  lemma {:induction false} AssignableSnoc(fields: seq<Field>, f: Field)
    ensures Assignable(fields + [f]) == Assignable(fields) + (if f.key == PROTO then [] else [f])
  {
    if fields == [] {
      assert fields + [f] == [f] && [f][1..] == [];
    } else {
      assert (fields + [f])[1..] == fields[1..] + [f];
      AssignableSnoc(fields[1..], f);
    }
  }

  lemma {:induction false} FieldsInvert(data: seq<byte>, fields: seq<Field>, pl: Platform)
    requires Faithful(pl) && EachPlain(fields)
    ensures Inverts(FieldReader(data, pl), FieldWriter(pl), data, fields)
  {
    forall i, offset: nat | 0 <= i < |fields| && EncodeField(fields[i], pl).Wrote?
                            && At(data, offset, EncodeField(fields[i], pl).bytes)
      ensures FieldAt(data, offset, pl) == Got(fields[i], offset + |EncodeField(fields[i], pl).bytes|)
    {
      FieldReads(data, offset, fields[i], pl);
    }
  }

  lemma {:induction false} FieldsRead(data: seq<byte>, offset: nat, fields: seq<Field>, pl: Platform)
    requires Faithful(pl) && SortedValue(Obj(fields))
    requires Many(FieldWriter(pl), fields).Wrote? && At(data, offset, Many(FieldWriter(pl), fields).bytes)
    ensures FieldsAt(data, offset, |fields|, pl) == Got(Assignable(fields), offset + |Many(FieldWriter(pl), fields).bytes|)
  {
    SortedParams(fields);
    FieldsInvert(data, fields, pl);
    ManyReads(FieldReader(data, pl), FieldWriter(pl), data, offset, fields);
    AssignedDistinct(fields);
  }

  /** A plain object is stored with its keys already sorted, its values plain. */
  lemma {:induction false} SortedParams(params: seq<Field>)
    requires SortedValue(Obj(params))
    ensures Sort(KeyOf, params) == params
    ensures EachPlain(params)
  {
    var xs := NormFields(params);
    assert Sort(KeyOf, xs) == params;
    SortSorted(KeyOf, xs);
    SortFixpoint(KeyOf, params);
    SortContents(KeyOf, xs);
    SameMembers(params, xs);
    forall i | 0 <= i < |params| ensures Norm(params[i].value) == params[i].value {
      assert params[i] in xs;
      var j :| 0 <= j < |xs| && xs[j] == params[i];
      NormFieldAt(params, j);
      assert params[i].key == params[j].key;
      assert i == j;
    }
  }

  lemma {:induction false} ConditionReads(data: seq<byte>, offset: nat, kind: string, params: seq<Field>, h: Head, pl: Platform)
    requires Faithful(pl) && kind != "" && SortedValue(Obj(params))
    requires EncodeCondition(kind, params, pl).Wrote? && At(data, offset, EncodeCondition(kind, params, pl).bytes)
    ensures ConditionAt(data, h, offset, pl) ==
            Got(Cond(kind, Assignable(params), h.weight), offset + |EncodeCondition(kind, params, pl).bytes|)
  {
    var a, b, c := BodySplits(data, offset, kind, params, pl);
    assert DelimitedAt(data, offset) == Got(pl.encode(kind), a) by { DelimitedReads(data, offset, pl.encode(kind)); }
    assert BeAt(data, a, U16) == Got(|params|, b) by { BeReads(data, a, |params|, U16); }
    assert FieldsAt(data, b, |params|, pl) == Got(Assignable(params), c) by { FieldsRead(data, b, params, pl); }
    BodyIs(data, offset, h, kind, a, |params|, b, Assignable(params), c, pl);
  }

  /** Where the parts of a condition's body stand. */
  lemma {:induction false} BodySplits(data: seq<byte>, offset: nat, kind: string, params: seq<Field>, pl: Platform)
      returns (a: nat, b: nat, c: nat)
    requires EncodeCondition(kind, params, pl).Wrote? && At(data, offset, EncodeCondition(kind, params, pl).bytes)
    ensures var text, fields := Delimited(pl.encode(kind)), Many(FieldWriter(pl), params);
            && text.Wrote? && At(data, offset, text.bytes) && a == offset + |text.bytes|
            && |params| < Pow256(U16) && At(data, a, BeBytes(|params|, U16)) && b == a + U16
            && fields.Wrote? && At(data, b, fields.bytes) && c == b + |fields.bytes|
    ensures c == offset + |EncodeCondition(kind, params, pl).bytes|
  {
    var text, count, fields := Delimited(pl.encode(kind)), Be(|params|, U16), Many(FieldWriter(pl), params);
    CatAt3(data, offset, text, count, fields);
    a := offset + |text.bytes|;
    b := a + U16;
    c := b + |fields.bytes|;
  }

  lemma {:induction false} BodyIs(data: seq<byte>, offset: nat, h: Head, kind: string, a: nat, count: nat, b: nat, params: seq<Field>,
                                  c: nat, pl: Platform)
    requires Faithful(pl) && kind != "" && DelimitedAt(data, offset) == Got(pl.encode(kind), a)
    requires BeAt(data, a, U16) == Got(count, b) && FieldsAt(data, b, count, pl) == Got(params, c)
    ensures ConditionAt(data, h, offset, pl) == Got(Cond(kind, params, h.weight), c)
  {
    assert pl.decode(pl.encode(kind)) == kind;
  }

  lemma {:induction false} OperatorHeadReads(data: seq<byte>, offset: nat, op: Operator, p: Option<OperatorParams>, n: nat)
    requires EncodeOperatorHead(op, p, n).Wrote? && At(data, offset, EncodeOperatorHead(op, p, n).bytes) && n > 0
    ensures OperatorHeadAt(data, offset) ==
            Got(OperatorHead(op, Kept(p), n),
                offset + |EncodeOperatorHead(op, p, n).bytes|)
  {
    var params, count := EncodeOperatorParams(p), Be(n, U16);
    CatAt3(data, offset, Byte(OperatorCode(op)), params, count);
    var a := offset + 1 + |params.bytes|;
    assert TakeAt(data, offset, 1) == Got([OperatorCode(op)], offset + 1) by { ByteReads(data, offset, OperatorCode(op)); }
    OperatorCodeInverse(op);
    ParamsRead(data, offset + 1, p);
    assert BeAt(data, a, U16) == Got(n, a + |count.bytes|) by { BeReads(data, a, n, U16); }
  }

  /** An operator node is its head, its operator head and its children, read in turn. */
  lemma {:induction false} OperatorAt(data: seq<byte>, offset: nat, h: Head, a: nat, o: OperatorHead, b: nat,
                                      children: seq<PolicyNode>, c: nat, pl: Platform)
    requires HeadAt(data, offset) == Got(h, a) && h.kind == 0x01
    requires OperatorHeadAt(data, a) == Got(o, b)
    requires NodesAt(data, b, o.count, pl) == Got(children, c)
    ensures NodeAt(data, offset, pl) == Got(Op(o.op, children, o.params, h.weight), c)
  {
  }

  function Kept(p: Option<OperatorParams>): Option<OperatorParams> {
    if KOf(p).None? && WeightsOf(p).None? then None else p
  }

  /** Where the parts of an operator's encoding stand, and what its two heads read as. */
  lemma {:induction false} OperatorParts(data: seq<byte>, offset: nat, n: PolicyNode, pl: Platform) returns (a: nat, b: nat)
    requires n.Op? && n.children != []
    requires EncodeNode(n, pl).Wrote? && At(data, offset, EncodeNode(n, pl).bytes)
    ensures HeadAt(data, offset) == Got(Head(0x01, n.weight), a)
    ensures OperatorHeadAt(data, a) == Got(OperatorHead(n.op, Kept(n.operatorParams), |n.children|), b)
    ensures EncodeNodes(n.children, pl).Wrote? && At(data, b, EncodeNodes(n.children, pl).bytes)
    ensures b + |EncodeNodes(n.children, pl).bytes| == offset + |EncodeNode(n, pl).bytes|
  {
    OperatorSplits(data, offset, n, pl);
    a := offset + |EncodeHead(0x01, n.weight).bytes|;
    b := a + |EncodeOperatorHead(n.op, n.operatorParams, |n.children|).bytes|;
    assert HeadAt(data, offset) == Got(Head(0x01, n.weight), a) by { HeadReads(data, offset, 0x01, n.weight); }
    assert OperatorHeadAt(data, a) == Got(OperatorHead(n.op, Kept(n.operatorParams), |n.children|), b) by {
      OperatorHeadReads(data, a, n.op, n.operatorParams, |n.children|);
    }
  }

  lemma {:induction false} OperatorSplits(data: seq<byte>, offset: nat, n: PolicyNode, pl: Platform)
    requires n.Op? && EncodeNode(n, pl).Wrote? && At(data, offset, EncodeNode(n, pl).bytes)
    ensures var head, mid := EncodeHead(0x01, n.weight), EncodeOperatorHead(n.op, n.operatorParams, |n.children|);
            var rest := EncodeNodes(n.children, pl);
            && head.Wrote? && mid.Wrote? && rest.Wrote?
            && At(data, offset, head.bytes) && At(data, offset + |head.bytes|, mid.bytes)
            && At(data, offset + |head.bytes| + |mid.bytes|, rest.bytes)
            && |EncodeNode(n, pl).bytes| == |head.bytes| + |mid.bytes| + |rest.bytes|
  {
    CatAt3(data, offset, EncodeHead(0x01, n.weight), EncodeOperatorHead(n.op, n.operatorParams, |n.children|),
           EncodeNodes(n.children, pl));
  }

  /** A condition node is its head and its body, read in turn. */
  lemma {:induction false} ConditionIs(data: seq<byte>, offset: nat, h: Head, a: nat, n: PolicyNode, c: nat, pl: Platform)
    requires HeadAt(data, offset) == Got(h, a) && h.kind == 0x02
    requires ConditionAt(data, h, a, pl) == Got(n, c)
    ensures NodeAt(data, offset, pl) == Got(n, c)
  {
  }

  lemma {:induction false} ConditionNodeReads(data: seq<byte>, offset: nat, kind: string, params: seq<Field>, weight: Option<nat>,
                                              pl: Platform)
    requires Faithful(pl) && kind != "" && SortedValue(Obj(params))
    requires var bytes := EncodeNode(Cond(kind, params, weight), pl); bytes.Wrote? && At(data, offset, bytes.bytes)
    ensures NodeAt(data, offset, pl) ==
            Got(Cond(kind, Assignable(params), weight), offset + |EncodeNode(Cond(kind, params, weight), pl).bytes|)
  {
    var h := Head(0x02, weight);
    ConditionSplits(data, offset, kind, params, weight, pl);
    var a := offset + |EncodeHead(0x02, weight).bytes|;
    var c := a + |EncodeCondition(kind, params, pl).bytes|;
    assert HeadAt(data, offset) == Got(h, a) by { HeadReads(data, offset, 0x02, weight); }
    assert ConditionAt(data, h, a, pl) == Got(Cond(kind, Assignable(params), weight), c) by {
      ConditionReads(data, a, kind, params, h, pl);
    }
    ConditionIs(data, offset, h, a, Cond(kind, Assignable(params), weight), c, pl);
  }

  lemma {:induction false} ConditionSplits(data: seq<byte>, offset: nat, kind: string, params: seq<Field>, weight: Option<nat>,
                                           pl: Platform)
    requires SortedValue(Obj(params))
    requires var bytes := EncodeNode(Cond(kind, params, weight), pl); bytes.Wrote? && At(data, offset, bytes.bytes)
    ensures var head, body := EncodeHead(0x02, weight), EncodeCondition(kind, params, pl);
            && head.Wrote? && body.Wrote?
            && At(data, offset, head.bytes) && At(data, offset + |head.bytes|, body.bytes)
            && |EncodeNode(Cond(kind, params, weight), pl).bytes| == |head.bytes| + |body.bytes|
  {
    assert Sort(KeyOf, params) == params by { SortedParams(params); }
    CatAt(data, offset, EncodeHead(0x02, weight), EncodeCondition(kind, params, pl));
  }

  /**
    Decoding at the place where an encoding stands, whatever surrounds it, gives
    the tree back and stops exactly behind it.
   */
  lemma {:induction false} NodeReads(data: seq<byte>, offset: nat, n: PolicyNode, pl: Platform)
    requires Faithful(pl) && Checked(n)
    requires EncodeNode(n, pl).Wrote? && At(data, offset, EncodeNode(n, pl).bytes)
    ensures NodeAt(data, offset, pl) == Got(Reencoded(n), offset + |EncodeNode(n, pl).bytes|)
    decreases n, 2
  {
    if n.Cond? {
      AssignableIff(n.conditionParams);
      ConditionNodeReads(data, offset, n.conditionType, n.conditionParams, n.weight, pl);
    } else {
      var a, b := OperatorParts(data, offset, n, pl);
      NodesRead(data, b, n.children, pl);
      OperatorAt(data, offset, Head(0x01, n.weight), a, OperatorHead(n.op, Kept(n.operatorParams), |n.children|), b,
                 ReencodedAll(n.children), offset + |EncodeNode(n, pl).bytes|, pl);
    }
  }

  lemma {:induction false} NodesRead(data: seq<byte>, offset: nat, ns: seq<PolicyNode>, pl: Platform)
    requires Faithful(pl) && EachChecked(ns)
    requires EncodeNodes(ns, pl).Wrote? && At(data, offset, EncodeNodes(ns, pl).bytes)
    ensures NodesAt(data, offset, |ns|, pl) == Got(ReencodedAll(ns), offset + |EncodeNodes(ns, pl).bytes|)
    decreases ns, 1
  {
    if ns == [] {
      NoNodes(data, offset, pl);
    } else {
      var a, b := FirstReads(data, offset, ns, pl);
      EachTail(ns);
      NodesRead(data, a, ns[1..], pl);
      NodesJoin(data, offset, ns, a, b, pl);
    }
  }

  lemma {:induction false} FirstReads(data: seq<byte>, offset: nat, ns: seq<PolicyNode>, pl: Platform) returns (a: nat, b: nat)
    requires ns != [] && Faithful(pl) && EachChecked(ns)
    requires EncodeNodes(ns, pl).Wrote? && At(data, offset, EncodeNodes(ns, pl).bytes)
    ensures NodeAt(data, offset, pl) == Got(Reencoded(ns[0]), a)
    ensures var tail := EncodeNodes(ns[1..], pl);
            tail.Wrote? && At(data, a, tail.bytes) && b == a + |tail.bytes|
    ensures b == offset + |EncodeNodes(ns, pl).bytes|
    decreases ns, 0
  {
    a, b := NodesSplit(data, offset, ns, pl);
    assert Checked(ns[0]);
    NodeReads(data, offset, ns[0], pl);
  }

  lemma {:induction false} NoNodes(data: seq<byte>, offset: nat, pl: Platform)
    ensures NodesAt(data, offset, 0, pl) == Got(ReencodedAll([]), offset + |EncodeNodes([], pl).bytes|)
  {
  }

  lemma {:induction false} NodesJoin(data: seq<byte>, offset: nat, ns: seq<PolicyNode>, a: nat, b: nat, pl: Platform)
    requires ns != []
    requires NodeAt(data, offset, pl) == Got(Reencoded(ns[0]), a)
    requires NodesAt(data, a, |ns| - 1, pl) == Got(ReencodedAll(ns[1..]), b)
    ensures NodesAt(data, offset, |ns|, pl) == Got(ReencodedAll(ns), b)
  {
  }

  lemma {:induction false} NodesSplit(data: seq<byte>, offset: nat, ns: seq<PolicyNode>, pl: Platform) returns (a: nat, b: nat)
    requires ns != [] && EncodeNodes(ns, pl).Wrote? && At(data, offset, EncodeNodes(ns, pl).bytes)
    ensures var head := EncodeNode(ns[0], pl);
            head.Wrote? && At(data, offset, head.bytes) && a == offset + |head.bytes|
    ensures var tail := EncodeNodes(ns[1..], pl);
            tail.Wrote? && At(data, a, tail.bytes) && b == a + |tail.bytes|
    ensures b == offset + |EncodeNodes(ns, pl).bytes|
  {
    var head, tail := EncodeNode(ns[0], pl), EncodeNodes(ns[1..], pl);
    CatAt(data, offset, head, tail);
    a := offset + |head.bytes|;
    b := a + |tail.bytes|;
  }

  /** The whole-document round trip. */
  lemma {:induction false} RoundTripV1(n: PolicyNode, pl: Platform)
    requires Faithful(pl) && Checked(n) && EncodeV1(n, pl).Wrote?
    ensures DecodeV1(EncodeV1(n, pl).bytes, pl) == Got(Reencoded(n), |EncodeV1(n, pl).bytes|)
  {
    var data := EncodeV1(n, pl).bytes;
    var header, body := Cat(Byte(CONTRACT_ID), Byte(CONTRACT_VERSION)), EncodeNode(n, pl);
    AtWhole(data);
    CatAt(data, 0, header, body);
    CatAt(data, 0, Byte(CONTRACT_ID), Byte(CONTRACT_VERSION));
    ByteReads(data, 0, CONTRACT_ID);
    ByteReads(data, 1, CONTRACT_VERSION);
    NodeReads(data, 2, n, pl);
  }

  /** Encoding is prefix-free: if one encoding begins with another they encode one tree. */
  lemma {:induction false} PrefixFree(m: PolicyNode, n: PolicyNode, pl: Platform)
    requires Faithful(pl) && Checked(m) && Checked(n)
    requires EncodeNode(m, pl).Wrote? && EncodeNode(n, pl).Wrote?
    requires EncodeNode(m, pl).bytes <= EncodeNode(n, pl).bytes
    ensures Reencoded(m) == Reencoded(n) && EncodeNode(m, pl) == EncodeNode(n, pl)
  {
    var a, b := EncodeNode(m, pl).bytes, EncodeNode(n, pl).bytes;
    assert b == a + b[|a|..];
    AtPrefix(a, b[|a|..]);
    AtWhole(b);
    NodeReads(b, 0, m, pl);
    NodeReads(b, 0, n, pl);
  }

  /** The digest preimage identifies the tree, up to an empty parameter object. */
  lemma {:induction false} EncodingIdentifies(m: PolicyNode, n: PolicyNode, pl: Platform)
    requires Faithful(pl) && Checked(m) && Checked(n) && EncodeV1(m, pl).Wrote? && EncodeV1(n, pl).Wrote?
    ensures EncodeV1(m, pl) == EncodeV1(n, pl) <==> Reencoded(m) == Reencoded(n)
  {
    if EncodeV1(m, pl) == EncodeV1(n, pl) {
      RoundTripV1(m, pl);
      RoundTripV1(n, pl);
    }
    if Reencoded(m) == Reencoded(n) {
      EncodeReencoded(m, pl);
      EncodeReencoded(n, pl);
    }
  }

  lemma {:induction false} EncodeReencoded(n: PolicyNode, pl: Platform)
    ensures EncodeNode(Reencoded(n), pl) == EncodeNode(n, pl)
    decreases n, 1
  {
    if n.Op? {
      EncodeReencodedAll(n.children, pl);
    }
  }

  lemma {:induction false} EncodeReencodedAll(ns: seq<PolicyNode>, pl: Platform)
    ensures EncodeNodes(ReencodedAll(ns), pl) == EncodeNodes(ns, pl)
    decreases ns, 0
  {
    if ns != [] {
      EncodeReencoded(ns[0], pl);
      EncodeReencodedAll(ns[1..], pl);
      assert ReencodedAll(ns)[1..] == ReencodedAll(ns[1..]);
    }
  }

  // ----- insertion order, and the digest preimage of an input

  /** Canonical text sorts the entries of objects. */
  ghost predicate SortsEntries(pl: Platform) {
    forall v :: pl.canonical(Norm(v)) == pl.canonical(v)
  }

  lemma {:induction false} CanonicalPlatformSorts(encode: string -> seq<byte>, decode: seq<byte> -> string)
    ensures SortsEntries(CanonicalPlatform(encode, decode))
  {
    var pl := CanonicalPlatform(encode, decode);
    forall v ensures pl.canonical(Norm(v)) == pl.canonical(v) {
      NormIdempotent(v);
    }
  }

  lemma {:induction false} ManyNorm(pl: Platform, fields: seq<Field>)
    requires SortsEntries(pl)
    ensures Many(FieldWriter(pl), NormFields(fields)) == Many(FieldWriter(pl), fields)
  {
    if fields != [] {
      var f := fields[0];
      assert EncodeValue(Norm(f.value), pl) == EncodeValue(f.value, pl);
      ManyNorm(pl, fields[1..]);
      assert NormFields(fields)[1..] == NormFields(fields[1..]);
    }
  }

  lemma {:induction false} EncodePlainCondition(kind: string, params: seq<Field>, pl: Platform)
    requires SortsEntries(pl)
    ensures EncodeCondition(kind, Sort(KeyOf, Norm(Obj(params)).fields), pl) == EncodeCondition(kind, Sort(KeyOf, params), pl)
  {
    SortSorted(KeyOf, NormFields(params));
    SortFixpoint(KeyOf, Sort(KeyOf, NormFields(params)));
    SortNormFields(params);
    ManyNorm(pl, Sort(KeyOf, params));
  }

  /** The encoding of a tree does not depend on the order its objects were filled in. */
  lemma {:induction false} EncodingForgetsOrder(n: PolicyNode, pl: Platform)
    requires SortsEntries(pl)
    ensures EncodeNode(Plain(n), pl) == EncodeNode(n, pl)
    decreases n, 1
  {
    match n {
      case Cond(kind, params, _) => EncodePlainCondition(kind, params, pl);
      case Op(_, children, params, _) =>
        EncodingsForgetOrder(children, pl);
        assert EncodeK(KOf(PlainParams(params))) == EncodeK(KOf(params));
    }
  }

  lemma {:induction false} EncodingsForgetOrder(ns: seq<PolicyNode>, pl: Platform)
    requires SortsEntries(pl)
    ensures EncodeNodes(PlainAll(ns), pl) == EncodeNodes(ns, pl)
    decreases ns, 0
  {
    if ns != [] {
      EncodingForgetsOrder(ns[0], pl);
      EncodingsForgetOrder(ns[1..], pl);
      assert PlainAll(ns)[1..] == PlainAll(ns[1..]);
    }
  }

  /** No node carries an empty parameter object, which the bytes cannot tell from none. */
  ghost predicate NoEmptyParams(n: PolicyNode)
    decreases n
  {
    n.Op? ==> Kept(n.operatorParams) == n.operatorParams && forall i :: 0 <= i < |n.children| ==> NoEmptyParams(n.children[i])
  }

  lemma {:induction false} ReencodedSame(n: PolicyNode)
    requires NoEmptyParams(n)
    ensures Reencoded(n) == n
    decreases n, 1
  {
    if n.Op? {
      ReencodedSameAll(n.children);
    }
  }

  lemma {:induction false} ReencodedSameAll(ns: seq<PolicyNode>)
    requires forall i :: 0 <= i < |ns| ==> NoEmptyParams(ns[i])
    ensures ReencodedAll(ns) == ns
    decreases ns, 0
  {
    if ns != [] {
      ReencodedSame(ns[0]);
      ReencodedSameAll(ns[1..]);
    }
  }

  /** No operator of the input brings a parameter object without entries, and no threshold beside it. */
  predicate NoEmptyObjects(raw: RawNode)
    decreases raw
  {
    raw.RawOp? ==>
      && !(Spread(raw.operatorParams) == Some([]) && raw.threshold.None?)
      && forall i :: 0 <= i < |raw.children| ==> NoEmptyObjects(raw.children[i])
  }

  lemma {:induction false} ParamsNotEmpty(raw: Option<Json>, threshold: Option<Json>)
    requires NormalizeParams(raw, threshold).Ok? && !(Spread(raw) == Some([]) && threshold.None?)
    ensures var p := PlainParams(NormalizeParams(raw, threshold).value); Kept(p) == p
  {
    var fields := Spread(raw);
    if fields.Some? && fields.value != [] {
      assert fields.value[0].key in ["k", "weights"];
    }
  }

  lemma {:induction false} NoEmptyRead(raw: RawNode)
    requires NoEmptyObjects(raw) && Read(raw).Ok?
    ensures NoEmptyParams(Read(raw).value)
    decreases raw, 1
  {
    if raw.RawOp? {
      NoEmptyReadAll(raw.children);
      ParamsNotEmpty(raw.operatorParams, raw.threshold);
    }
  }

  lemma {:induction false} NoEmptyReadAll(raws: seq<RawNode>)
    requires (forall i :: 0 <= i < |raws| ==> NoEmptyObjects(raws[i])) && ReadAll(raws).Ok?
    ensures forall i :: 0 <= i < |raws| ==> NoEmptyParams(ReadAll(raws).value[i])
    decreases raws, 0
  {
    if raws != [] {
      NoEmptyRead(raws[0]);
      NoEmptyReadAll(raws[1..]);
    }
  }

  lemma {:induction false} NoEmptyCanon(n: PolicyNode)
    requires NoEmptyParams(n)
    ensures NoEmptyParams(Canon(n))
  {
    if n.Op? {
      var cs := CanonAll(n.children);
      forall i | 0 <= i < |cs| ensures NoEmptyParams(cs[i]) {
        NoEmptyCanon(n.children[i]);
      }
      ArrangeMembers(n.op, cs);
      var rs := Arrange(n.op, cs);
      forall j | 0 <= j < |rs| ensures NoEmptyParams(rs[j]) {
        assert rs[j] in rs;
        var i :| 0 <= i < |cs| && ComesFrom(n.op, cs[i], rs[j]);
        NoEmptyMember(n.op, cs[i], rs[j]);
      }
    }
  }

  lemma {:induction false} NoEmptyMember(op: Operator, c: PolicyNode, x: PolicyNode)
    requires NoEmptyParams(c) && ComesFrom(op, c, x)
    ensures NoEmptyParams(x)
  {
    if x != c {
      var k :| 0 <= k < |c.children| && c.children[k] == x;
    }
  }

  /** The bytes of two canonicalized inputs are equal exactly when the results are, up to entry order and empty parameters. */
  lemma {:induction false} PreimageIdentifiesResult(x: RawNode, y: RawNode, pl: Platform)
    requires Faithful(pl) && SortsEntries(pl) && RawWellFormed(x) && RawWellFormed(y)
    requires SourceCanonicalize(x).Ok? && SourceCanonicalize(y).Ok?
    requires EncodeV1(SourceCanonicalize(x).value, pl).Wrote? && EncodeV1(SourceCanonicalize(y).value, pl).Wrote?
    ensures EncodeV1(SourceCanonicalize(x).value, pl) == EncodeV1(SourceCanonicalize(y).value, pl) <==>
            Reencoded(Plain(SourceCanonicalize(x).value)) == Reencoded(Plain(SourceCanonicalize(y).value))
  {
    OrderIsForgotten(x);
    OrderIsForgotten(y);
    EncodingForgetsOrder(SourceCanonicalize(x).value, pl);
    EncodingForgetsOrder(SourceCanonicalize(y).value, pl);
    CheckedResult(x);
    CheckedResult(y);
    EncodingIdentifies(Canonicalize(x).value, Canonicalize(y).value, pl);
  }

  /**
    From inputs to digest preimages: the bytes of two canonicalized inputs are equal exactly
    when the inputs read as equivalent trees.
   */
  lemma {:induction false} PreimageDecidesEquivalence(x: RawNode, y: RawNode, pl: Platform)
    requires Faithful(pl) && SortsEntries(pl) && RawWellFormed(x) && RawWellFormed(y)
    requires NoEmptyObjects(x) && NoEmptyObjects(y)
    requires SourceCanonicalize(x).Ok? && SourceCanonicalize(y).Ok?
    requires EncodeV1(SourceCanonicalize(x).value, pl).Wrote? && EncodeV1(SourceCanonicalize(y).value, pl).Wrote?
    ensures Read(x).Ok? && Read(y).Ok?
    ensures EncodeV1(SourceCanonicalize(x).value, pl) == EncodeV1(SourceCanonicalize(y).value, pl) <==>
            Equivalent(Read(x).value, Read(y).value)
  {
    PreimageIdentifiesResult(x, y, pl);
    ResultSame(x);
    ResultSame(y);
    CanonicalizeDecidesEquivalence(x, y);
  }

  lemma {:induction false} ResultSame(raw: RawNode)
    requires NoEmptyObjects(raw) && SourceCanonicalize(raw).Ok?
    ensures Canonicalize(raw).Ok? && Plain(SourceCanonicalize(raw).value) == Canonicalize(raw).value
    ensures Reencoded(Canonicalize(raw).value) == Canonicalize(raw).value
  {
    OrderIsForgotten(raw);
    CanonicalizeIsReadThenCanon(raw);
    NoEmptyRead(raw);
    NoEmptyCanon(Read(raw).value);
    ReencodedSame(Canonicalize(raw).value);
  }

  /** An empty parameter object makes a tree that is not equivalent to the one without, and has the same bytes. */
  lemma {:induction false} EmptyParamsInvisible(c: PolicyNode, pl: Platform)
    ensures var m, n := Op(Not, [c], Some(OperatorParams(None, None)), None), Op(Not, [c], None, None);
            !Equivalent(m, n) && EncodeV1(m, pl) == EncodeV1(n, pl)
  {
    var m, n := Op(Not, [c], Some(OperatorParams(None, None)), None), Op(Not, [c], None, None);
    CanonDecidesEquivalence(m, n);
    EncodeReencoded(m, pl);
    EncodeReencoded(n, pl);
  }
}
