/**
  The documented byte layout of the policy encoding, written out, and that the decoder
  accepts exactly the byte strings of this layout and the encoder writes them.
 */
module PolicyLayout {
  import opened Sorting
  import opened Json
  import opened Options
  import opened Bytes
  import opened Layout
  import opened PolicyAst
  import opened PolicyInput
  import opened PolicyOrder
  import opened PolicyEncoding

  // ----- documents

  /** A parameter value as the bytes carry it. */
  datatype ValueForm = Text(text: seq<byte>) | Flag(flag: bool) | Natural(n: nat) | JsonText(text: seq<byte>)

  datatype FieldForm = FieldForm(key: seq<byte>, value: ValueForm)

  datatype NodeForm =
    | OperatorForm(weight: Option<nat>, op: Operator, k: Option<nat>, weights: Option<seq<nat>>, children: seq<NodeForm>)
    | ConditionForm(weight: Option<nat>, kind: seq<byte>, fields: seq<FieldForm>)

  function ValueBytes(v: ValueForm): seq<byte> {
    match v
    case Text(text) => [0x01] + Prefixed(text)
    case Flag(flag) => [0x02, if flag then 1 else 0]
    case Natural(n) => [0x03] + Long(n)
    case JsonText(text) => [0x04] + Prefixed(text)
  }

  function FieldBytes(f: FieldForm): seq<byte> {
    Prefixed(f.key) + ValueBytes(f.value)
  }

  function FieldsBytes(fs: seq<FieldForm>): seq<byte> {
    if fs == [] then [] else FieldBytes(fs[0]) + FieldsBytes(fs[1..])
  }

  function WordsBytes(ws: seq<nat>): seq<byte> {
    if ws == [] then [] else Word(ws[0]) + WordsBytes(ws[1..])
  }

  function HeadBytes(kind: byte, weight: Option<nat>): seq<byte> {
    match weight case None => [kind, 0] case Some(w) => [kind, 1] + Word(w)
  }

  function KBytes(k: Option<nat>): seq<byte> {
    match k case None => [] case Some(n) => Word(n)
  }

  function WeightsBytes(weights: Option<seq<nat>>): seq<byte> {
    match weights case None => [] case Some(ws) => Short(|ws|) + WordsBytes(ws)
  }

  function ParamBytes(k: Option<nat>, weights: Option<seq<nat>>): seq<byte> {
    [(if k.Some? then 1 else 0) + (if weights.Some? then 2 else 0)] + (KBytes(k) + WeightsBytes(weights))
  }

  function OperatorBytes(op: Operator, k: Option<nat>, weights: Option<seq<nat>>, count: nat): seq<byte> {
    [OperatorCode(op)] + (ParamBytes(k, weights) + Short(count))
  }

  /** Condition type, number of parameters, parameters. */
  function ConditionBytes(kind: seq<byte>, count: nat, fields: seq<byte>): seq<byte> {
    Prefixed(kind) + (Short(count) + fields)
  }

  function NodeBytes(f: NodeForm): seq<byte>
    decreases f, 1
  {
    match f
    case OperatorForm(weight, op, k, weights, children) =>
      HeadBytes(0x01, weight) + (OperatorBytes(op, k, weights, |children|) + NodesBytes(children))
    case ConditionForm(weight, kind, fields) => HeadBytes(0x02, weight) + ConditionBytes(kind, |fields|, FieldsBytes(fields))
  }

  function NodesBytes(fs: seq<NodeForm>): seq<byte>
    decreases fs, 0
  {
    if fs == [] then [] else NodeBytes(fs[0]) + NodesBytes(fs[1..])
  }

  /** The operators by their codes, from 1. */
  lemma {:induction false} CodesInOrder(op: Operator)
    ensures 1 <= OperatorCode(op) <= 14
    ensures OperatorName(op) ==
            ["AND", "OR", "NOT", "IMPLIES", "IFF", "THRESHOLD", "WEIGHTED_THRESHOLD", "MAJORITY", "EXACTLY", "AT_MOST",
             "VETO", "NOR", "NAND", "XOR"][OperatorCode(op) - 1]
  {
  }

  lemma {:induction false} CodeInverse(code: byte, op: Operator)
    ensures OperatorOf(code) == Some(op) <==> code == OperatorCode(op)
  {
  }

  // ----- what a document must satisfy, and the tree it stands for

  predicate WeightFits(w: Option<nat>) {
    w.Some? ==> w.value < 0x1_0000_0000
  }

  predicate WordsFit(ws: seq<nat>) {
    forall i :: 0 <= i < |ws| ==> ws[i] < 0x1_0000_0000
  }

  predicate ParamsFit(k: Option<nat>, weights: Option<seq<nat>>) {
    WeightFits(k) && (weights.Some? ==> |weights.value| < 0x1_0000 && WordsFit(weights.value))
  }

  predicate ValueFits(v: ValueForm, pl: Platform) {
    match v
    case Text(text) => |text| < 0x1_0000_0000
    case Flag(_) => true
    case Natural(n) => n <= 9007199254740991
    case JsonText(text) => |text| < 0x1_0000_0000 && pl.parse(pl.decode(text)).Some?
  }

  predicate FieldFits(f: FieldForm, pl: Platform) {
    |f.key| < 0x1_0000_0000 && ValueFits(f.value, pl)
  }

  predicate FieldsFit(fs: seq<FieldForm>, pl: Platform) {
    forall i :: 0 <= i < |fs| ==> FieldFits(fs[i], pl)
  }

  predicate ConditionFits(kind: seq<byte>, fields: seq<FieldForm>, pl: Platform) {
    |kind| < 0x1_0000_0000 && pl.decode(kind) != "" && |fields| < 0x1_0000 && FieldsFit(fields, pl)
  }

  predicate NodeFits(f: NodeForm, pl: Platform)
    decreases f
  {
    && WeightFits(f.weight)
    && match f
       case OperatorForm(_, _, k, weights, children) =>
         ParamsFit(k, weights) && 0 < |children| < 0x1_0000 && forall i :: 0 <= i < |children| ==> NodeFits(children[i], pl)
       case ConditionForm(_, kind, fields) => ConditionFits(kind, fields, pl)
  }

  predicate NodesFit(fs: seq<NodeForm>, pl: Platform) {
    forall i :: 0 <= i < |fs| ==> NodeFits(fs[i], pl)
  }

  function ValueOf(v: ValueForm, pl: Platform): Json
    requires ValueFits(v, pl)
  {
    match v
    case Text(text) => Str(pl.decode(text))
    case Flag(flag) => Bool(flag)
    case Natural(n) => Number(Decimal(n))
    case JsonText(text) => pl.parse(pl.decode(text)).value
  }

  function FieldOf(f: FieldForm, pl: Platform): Field
    requires FieldFits(f, pl)
  {
    Field(pl.decode(f.key), ValueOf(f.value, pl))
  }

  function FieldsOf(fs: seq<FieldForm>, pl: Platform): (r: seq<Field>)
    requires FieldsFit(fs, pl)
    ensures |r| == |fs|
  {
    if fs == [] then [] else [FieldOf(fs[0], pl)] + FieldsOf(fs[1..], pl)
  }

  function ParamsOf(k: Option<nat>, weights: Option<seq<nat>>): Option<OperatorParams> {
    if k.None? && weights.None? then None
    else Some(OperatorParams(if k.Some? then Some(Number(Decimal(k.value))) else None, weights))
  }

  function NodeOf(f: NodeForm, pl: Platform): PolicyNode
    requires NodeFits(f, pl)
    decreases f, 1
  {
    match f
    case OperatorForm(weight, op, k, weights, children) => Op(op, NodesOf(children, pl), ParamsOf(k, weights), weight)
    case ConditionForm(weight, kind, fields) => Cond(pl.decode(kind), Assigned(FieldsOf(fields, pl)), weight)
  }

  function NodesOf(fs: seq<NodeForm>, pl: Platform): (r: seq<PolicyNode>)
    requires NodesFit(fs, pl)
    ensures |r| == |fs|
    decreases fs, 0
  {
    if fs == [] then [] else [NodeOf(fs[0], pl)] + NodesOf(fs[1..], pl)
  }

  // ----- piece by piece: a reader succeeds exactly where the bytes stand

  /** Three parts one behind the other. */
  lemma {:induction false} ThreeStand(data: seq<byte>, offset: nat, a: seq<byte>, b: seq<byte>, c: seq<byte>, bytes: seq<byte>)
    requires bytes == a + (b + c)
    ensures At(data, offset, bytes) <==> At(data, offset, a) && At(data, offset + |a|, b) && At(data, offset + |a| + |b|, c)
    ensures |bytes| == |a| + |b| + |c|
  {
    AtConcat(data, offset, a, b + c);
    AtConcat(data, offset + |a|, b, c);
  }

  lemma {:induction false} HeadExact(data: seq<byte>, offset: nat, kind: byte, weight: Option<nat>, next: nat)
    ensures HeadAt(data, offset) == Got(Head(kind, weight), next) <==>
            WeightFits(weight) && At(data, offset, HeadBytes(kind, weight)) && next == offset + |HeadBytes(kind, weight)|
  {
    var flag: byte := if weight.Some? then 1 else 0;
    ByteExact(data, offset, kind, offset + 1);
    ByteExact(data, offset + 1, flag, offset + 2);
    AtConcat(data, offset, [kind], [flag]);
    assert [kind] + [flag] == [kind, flag];
    if weight.Some? {
      AtConcat(data, offset, [kind, flag], Word(weight.value));
      WordExact(data, offset + 2, weight.value, next);
    }
    HeadGot(data, offset, kind, flag, weight, next);
  }

  lemma {:induction false} HeadGot(data: seq<byte>, offset: nat, kind: byte, flag: byte, weight: Option<nat>, next: nat)
    requires flag == if weight.Some? then 1 else 0
    ensures HeadAt(data, offset) == Got(Head(kind, weight), next) <==>
            && TakeAt(data, offset, 1) == Got([kind], offset + 1)
            && TakeAt(data, offset + 1, 1) == Got([flag], offset + 2)
            && (weight.None? ==> next == offset + 2)
            && (weight.Some? ==> BeAt(data, offset + 2, U32) == Got(weight.value, next))
  {
    var k, f := TakeAt(data, offset, 1), TakeAt(data, offset + 1, 1);
    assert k.Got? ==> k.value == [k.value[0]];
    assert f.Got? ==> f.value == [f.value[0]];
  }

  lemma {:induction false} WordsExact(data: seq<byte>, offset: nat, ws: seq<nat>, next: nat)
    ensures ManyAt(WordReader(data), offset, |ws|) == Got(ws, next) <==>
            WordsFit(ws) && (ws == [] || At(data, offset, WordsBytes(ws))) && next == offset + |WordsBytes(ws)|
    decreases |ws|
  {
    if ws != [] {
      var a, rest := ws[0], ws[1..];
      assert ws == [a] + rest;
      WordExact(data, offset, a, offset + 4);
      AtConcat(data, offset, Word(a), WordsBytes(rest));
      WordsExact(data, offset + 4, rest, next);
      if At(data, offset + 4, WordsBytes(rest)) || rest == [] {
        WordsFitSplit(ws);
      }
      WordsFitSplit(ws);
      WordsTurn(data, offset, a, rest, next);
    }
  }

  lemma {:induction false} WordsFitSplit(ws: seq<nat>)
    requires ws != []
    ensures WordsFit(ws) <==> ws[0] < 0x1_0000_0000 && WordsFit(ws[1..])
  {
    if WordsFit(ws[1..]) {
      forall i | 1 <= i < |ws| ensures ws[i] == ws[1..][i - 1] {
      }
    }
  }

  lemma {:induction false} WordsTurn(data: seq<byte>, offset: nat, a: nat, rest: seq<nat>, next: nat)
    ensures ManyAt(WordReader(data), offset, 1 + |rest|) == Got([a] + rest, next) <==>
            BeAt(data, offset, U32) == Got(a, offset + 4) && ManyAt(WordReader(data), offset + 4, |rest|) == Got(rest, next)
  {
    var x := BeAt(data, offset, U32);
    if x.Got? {
      var r := ManyAt(WordReader(data), offset + 4, |rest|);
      if r.Got? && [x.value] + r.value == [a] + rest {
        assert ([x.value] + r.value)[0] == a && ([x.value] + r.value)[1..] == rest;
        assert r.value == rest;
      }
    }
  }

  lemma {:induction false} WeightsExact(data: seq<byte>, offset: nat, ws: seq<nat>, next: nat)
    ensures WeightsAt(data, offset) == Got(ws, next) <==>
            && |ws| < 0x1_0000 && WordsFit(ws) && At(data, offset, WeightsBytes(Some(ws)))
            && next == offset + |WeightsBytes(Some(ws))|
  {
    AtConcat(data, offset, Short(|ws|), WordsBytes(ws));
    ShortExact(data, offset, |ws|, offset + 2);
    WordsExact(data, offset + 2, ws, next);
    var count := BeAt(data, offset, U16);
    if WeightsAt(data, offset) == Got(ws, next) {
      assert |ws| == count.value;
    }
  }

  /** The three parts of the parameters. */
  lemma {:induction false} ParamPieces(data: seq<byte>, offset: nat, k: Option<nat>, weights: Option<seq<nat>>, flags: byte, middle: nat)
    requires flags == (if k.Some? then 1 else 0) + (if weights.Some? then 2 else 0)
    requires middle == offset + 1 + |KBytes(k)|
    ensures At(data, offset, ParamBytes(k, weights)) <==>
            && At(data, offset, [flags])
            && (k.Some? ==> At(data, offset + 1, Word(k.value)))
            && (weights.Some? ==> At(data, middle, WeightsBytes(weights)))
    ensures |ParamBytes(k, weights)| == 1 + |KBytes(k)| + |WeightsBytes(weights)|
  {
    AtConcat(data, offset, [flags], KBytes(k) + WeightsBytes(weights));
    AtConcat(data, offset + 1, KBytes(k), WeightsBytes(weights));
  }

  lemma {:induction false} ParamsExact(data: seq<byte>, offset: nat, k: Option<nat>, weights: Option<seq<nat>>, next: nat)
    ensures ParamsAt(data, offset) == Got(ParamsOf(k, weights), next) <==>
            ParamsFit(k, weights) && At(data, offset, ParamBytes(k, weights)) && next == offset + |ParamBytes(k, weights)|
  {
    var flags: byte := (if k.Some? then 1 else 0) + (if weights.Some? then 2 else 0);
    var middle := offset + 1 + |KBytes(k)|;
    ParamPieces(data, offset, k, weights, flags, middle);
    ByteExact(data, offset, flags, offset + 1);
    if k.Some? {
      WordExact(data, offset + 1, k.value, middle);
    }
    if weights.Some? {
      WeightsExact(data, middle, weights.value, next);
    }
    ParamsGot(data, offset, k, weights, flags, middle, next);
  }

  lemma {:induction false} ParamsGot(data: seq<byte>, offset: nat, k: Option<nat>, weights: Option<seq<nat>>, flags: byte, middle: nat,
                              next: nat)
    requires flags == (if k.Some? then 1 else 0) + (if weights.Some? then 2 else 0)
    requires middle == offset + 1 + (if k.Some? then 4 else 0)
    ensures ParamsAt(data, offset) == Got(ParamsOf(k, weights), next) <==>
            && TakeAt(data, offset, 1) == Got([flags], offset + 1)
            && (k.Some? ==> BeAt(data, offset + 1, U32) == Got(k.value, middle))
            && (weights.None? ==> next == middle)
            && (weights.Some? ==> WeightsAt(data, middle) == Got(weights.value, next))
  {
    var f := TakeAt(data, offset, 1);
    if f.Got? {
      assert f.value == [f.value[0]];
      var n := BeAt(data, offset + 1, U32);
      if n.Got? && k.Some? && Decimal(n.value) == Decimal(k.value) {
        DecimalInjective(n.value, k.value);
      }
      if ParamsAt(data, offset) == Got(ParamsOf(k, weights), next) {
        FlagsAre(data, offset, k, weights, flags, next);
      }
    }
  }

  lemma {:induction false} FlagsAre(data: seq<byte>, offset: nat, k: Option<nat>, weights: Option<seq<nat>>, flags: byte, next: nat)
    requires flags == (if k.Some? then 1 else 0) + (if weights.Some? then 2 else 0)
    requires ParamsAt(data, offset) == Got(ParamsOf(k, weights), next)
    ensures TakeAt(data, offset, 1) == Got([flags], offset + 1)
  {
    var f := TakeAt(data, offset, 1);
    assert f.value == [f.value[0]];
    var p := ParamsOf(k, weights);
    assert f.value[0] % 2 == 1 <==> p.Some? && p.value.k.Some?;
    assert f.value[0] >= 2 <==> p.Some? && p.value.weights.Some?;
  }

  lemma {:induction false} OperatorPieces(data: seq<byte>, offset: nat, op: Operator, k: Option<nat>, weights: Option<seq<nat>>, count: nat,
                                   middle: nat)
    requires middle == offset + 1 + |ParamBytes(k, weights)|
    ensures At(data, offset, OperatorBytes(op, k, weights, count)) <==>
            && At(data, offset, [OperatorCode(op)])
            && At(data, offset + 1, ParamBytes(k, weights)) && At(data, middle, Short(count))
    ensures |OperatorBytes(op, k, weights, count)| == 3 + |ParamBytes(k, weights)|
  {
    ThreeStand(data, offset, [OperatorCode(op)], ParamBytes(k, weights), Short(count), OperatorBytes(op, k, weights, count));
  }

  lemma {:induction false} OperatorExact(data: seq<byte>, offset: nat, op: Operator, k: Option<nat>, weights: Option<seq<nat>>, count: nat,
                                  next: nat)
    ensures OperatorHeadAt(data, offset) == Got(OperatorHead(op, ParamsOf(k, weights), count), next) <==>
            && ParamsFit(k, weights) && 0 < count < 0x1_0000 && At(data, offset, OperatorBytes(op, k, weights, count))
            && next == offset + |OperatorBytes(op, k, weights, count)|
  {
    var middle := offset + 1 + |ParamBytes(k, weights)|;
    OperatorPieces(data, offset, op, k, weights, count, middle);
    ByteExact(data, offset, OperatorCode(op), offset + 1);
    ShortExact(data, middle, count, next);
    ParamsThere(data, offset + 1, k, weights, middle);
    OperatorGot(data, offset, op, ParamsOf(k, weights), count, middle, next);
  }

  lemma {:induction false} ParamsThere(data: seq<byte>, offset: nat, k: Option<nat>, weights: Option<seq<nat>>, next: nat)
    requires next == offset + |ParamBytes(k, weights)|
    ensures ParamsFit(k, weights) && At(data, offset, ParamBytes(k, weights)) <==>
            ParamsAt(data, offset).Got? && ParamsAt(data, offset).value == ParamsOf(k, weights)
    ensures ParamsAt(data, offset).Got? && ParamsAt(data, offset).value == ParamsOf(k, weights) ==> ParamsAt(data, offset).next == next
  {
    ParamsExact(data, offset, k, weights, next);
    var p := ParamsAt(data, offset);
    if p.Got? {
      ParamsExact(data, offset, k, weights, p.next);
    }
  }

  lemma {:induction false} OperatorGot(data: seq<byte>, offset: nat, op: Operator, params: Option<OperatorParams>, count: nat, middle: nat,
                                next: nat)
    ensures OperatorHeadAt(data, offset) == Got(OperatorHead(op, params, count), next) <==>
            && 0 < count
            && TakeAt(data, offset, 1) == Got([OperatorCode(op)], offset + 1)
            && ParamsAt(data, offset + 1).Got? && ParamsAt(data, offset + 1).value == params
            && BeAt(data, ParamsAt(data, offset + 1).next, U16) == Got(count, next)
  {
    var c := TakeAt(data, offset, 1);
    if c.Got? {
      assert c.value == [c.value[0]];
      CodeInverse(c.value[0], op);
    }
  }

  // ----- conditions

  lemma {:induction false} ValueReadsForm(data: seq<byte>, offset: nat, v: ValueForm, pl: Platform)
    requires ValueFits(v, pl) && At(data, offset, ValueBytes(v))
    ensures ValueAt(data, offset, pl) == Got(ValueOf(v, pl), offset + |ValueBytes(v)|)
  {
    match v {
      case Text(text) => TextStands(data, offset, 0x01, text);
      case JsonText(text) => TextStands(data, offset, 0x04, text);
      case Flag(flag) =>
        var b: byte := if flag then 1 else 0;
        assert [0x02] + [b] == [0x02, b];
        AtConcat(data, offset, [0x02], [b]);
        ByteExact(data, offset, 0x02, offset + 1);
        ByteExact(data, offset + 1, b, offset + 2);
      case Natural(n) =>
        AtConcat(data, offset, [0x03], Long(n));
        ByteExact(data, offset, 0x03, offset + 1);
        LongExact(data, offset + 1, n, offset + 9);
    }
  }

  lemma {:induction false} TextStands(data: seq<byte>, offset: nat, tag: byte, text: seq<byte>)
    ensures At(data, offset, [tag] + Prefixed(text)) && |text| < 0x1_0000_0000 <==>
            && TakeAt(data, offset, 1) == Got([tag], offset + 1)
            && DelimitedAt(data, offset + 1) == Got(text, offset + 5 + |text|)
  {
    AtConcat(data, offset, [tag], Prefixed(text));
    ByteExact(data, offset, tag, offset + 1);
    PrefixedExact(data, offset + 1, text, offset + 5 + |text|);
  }

  /** The form a value that was read stood in. */
  lemma {:induction false} ValueHasForm(data: seq<byte>, offset: nat, pl: Platform) returns (v: ValueForm)
    requires ValueAt(data, offset, pl).Got?
    ensures ValueFits(v, pl) && At(data, offset, ValueBytes(v))
    ensures ValueAt(data, offset, pl) == Got(ValueOf(v, pl), offset + |ValueBytes(v)|)
  {
    var t := TakeAt(data, offset, 1);
    var tag := t.value[0];
    assert t.value == [tag];
    ByteExact(data, offset, tag, offset + 1);
    if tag == 0x01 || tag == 0x04 {
      var text := TextFound(data, offset, tag);
      v := if tag == 0x01 then Text(text) else JsonText(text);
    } else if tag == 0x02 {
      v := Flag(TakeAt(data, offset + 1, 1).value[0] == 1);
      FlagFound(data, offset, v.flag);
    } else {
      v := Natural(BeAt(data, offset + 1, U64).value);
      NaturalFound(data, offset, v.n);
    }
    ValueReadsForm(data, offset, v, pl);
  }

  lemma {:induction false} TextFound(data: seq<byte>, offset: nat, tag: byte) returns (text: seq<byte>)
    requires At(data, offset, [tag]) && DelimitedAt(data, offset + 1).Got?
    ensures |text| < 0x1_0000_0000 && At(data, offset, [tag] + Prefixed(text))
    ensures DelimitedAt(data, offset + 1).value == text
  {
    var s := DelimitedAt(data, offset + 1);
    text := s.value;
    PrefixedExact(data, offset + 1, text, s.next);
    AtConcat(data, offset, [tag], Prefixed(text));
  }

  lemma {:induction false} FlagFound(data: seq<byte>, offset: nat, flag: bool)
    requires At(data, offset, [0x02])
    requires TakeAt(data, offset + 1, 1).Got? && TakeAt(data, offset + 1, 1).value[0] == if flag then 1 else 0
    ensures At(data, offset, ValueBytes(Flag(flag)))
  {
    var b: byte := if flag then 1 else 0;
    assert TakeAt(data, offset + 1, 1).value == [b];
    ByteExact(data, offset + 1, b, offset + 2);
    AtConcat(data, offset, [0x02], [b]);
    assert [0x02] + [b] == [0x02, b];
  }

  lemma {:induction false} NaturalFound(data: seq<byte>, offset: nat, n: nat)
    requires At(data, offset, [0x03])
    requires BeAt(data, offset + 1, U64).Got? && BeAt(data, offset + 1, U64).value == n
    ensures At(data, offset, ValueBytes(Natural(n)))
  {
    LongExact(data, offset + 1, n, BeAt(data, offset + 1, U64).next);
    AtConcat(data, offset, [0x03], Long(n));
  }

  lemma {:induction false} FieldReadsForm(data: seq<byte>, offset: nat, f: FieldForm, pl: Platform)
    requires FieldFits(f, pl) && At(data, offset, FieldBytes(f))
    ensures FieldAt(data, offset, pl) == Got(FieldOf(f, pl), offset + |FieldBytes(f)|)
  {
    var middle := offset + 4 + |f.key|;
    AtConcat(data, offset, Prefixed(f.key), ValueBytes(f.value));
    PrefixedExact(data, offset, f.key, middle);
    ValueReadsForm(data, middle, f.value, pl);
  }

  lemma {:induction false} DelimitedFound(data: seq<byte>, offset: nat) returns (bytes: seq<byte>, next: nat)
    requires DelimitedAt(data, offset).Got?
    ensures DelimitedAt(data, offset) == Got(bytes, next)
    ensures |bytes| < 0x1_0000_0000 && At(data, offset, Prefixed(bytes)) && next == offset + 4 + |bytes|
  {
    var d := DelimitedAt(data, offset);
    bytes, next := d.value, d.next;
    PrefixedExact(data, offset, bytes, next);
  }

  lemma {:induction false} FieldHasForm(data: seq<byte>, offset: nat, pl: Platform) returns (f: FieldForm)
    requires FieldAt(data, offset, pl).Got?
    ensures FieldFits(f, pl) && At(data, offset, FieldBytes(f))
    ensures FieldAt(data, offset, pl) == Got(FieldOf(f, pl), offset + |FieldBytes(f)|)
  {
    var key, a := DelimitedFound(data, offset);
    var v := ValueHasForm(data, a, pl);
    f := FieldForm(key, v);
    FieldStands(data, offset, f);
    FieldReadsForm(data, offset, f, pl);
  }

  lemma {:induction false} FieldStands(data: seq<byte>, offset: nat, f: FieldForm)
    requires At(data, offset, Prefixed(f.key)) && At(data, offset + 4 + |f.key|, ValueBytes(f.value))
    ensures At(data, offset, FieldBytes(f))
  {
    AtConcat(data, offset, Prefixed(f.key), ValueBytes(f.value));
  }

  lemma {:induction false} FieldsPush(f: FieldForm, rest: seq<FieldForm>, pl: Platform)
    ensures FieldsBytes([f] + rest) == FieldBytes(f) + FieldsBytes(rest)
    ensures FieldsFit([f] + rest, pl) <==> FieldFits(f, pl) && FieldsFit(rest, pl)
    ensures FieldsFit([f] + rest, pl) ==> FieldsOf([f] + rest, pl) == [FieldOf(f, pl)] + FieldsOf(rest, pl)
  {
    var fs := [f] + rest;
    assert fs[0] == f && fs[1..] == rest;
    if FieldsFit(fs, pl) {
      forall i | 0 <= i < |rest| ensures FieldFits(rest[i], pl) {
        assert rest[i] == fs[i + 1];
      }
    }
  }

  /** One field read, and the rest. */
  lemma {:induction false} FieldsTurn(item: nat -> Parsed<Field>, data: seq<byte>, offset: nat, count: nat, pl: Platform)
    requires ReadsFields(item, data, pl) && count > 0
    ensures var f := FieldAt(data, offset, pl);
            ManyAt(item, offset, count) == if f.Bad? then Bad(f.error) else Prepend([f.value], ManyAt(item, f.next, count - 1))
  {
  }

  /** A list of fields is read when the first is and then the rest. */
  lemma {:induction false} FieldsFollow(item: nat -> Parsed<Field>, data: seq<byte>, offset: nat, f: FieldForm,
                                        rest: seq<FieldForm>, a: nat, b: nat,
                                 pl: Platform)
    requires ReadsFields(item, data, pl) && FieldFits(f, pl) && FieldsFit(rest, pl)
    requires FieldAt(data, offset, pl) == Got(FieldOf(f, pl), a)
    requires ManyAt(item, a, |rest|) == Got(FieldsOf(rest, pl), b)
    ensures FieldsFit([f] + rest, pl) && ManyAt(item, offset, 1 + |rest|) == Got(FieldsOf([f] + rest, pl), b)
  {
    FieldsPush(f, rest, pl);
    FieldsTurn(item, data, offset, 1 + |rest|, pl);
  }

  lemma {:induction false} FieldsReadForm(item: nat -> Parsed<Field>, data: seq<byte>, offset: nat, fs: seq<FieldForm>, pl: Platform)
    requires ReadsFields(item, data, pl)
    requires FieldsFit(fs, pl) && At(data, offset, FieldsBytes(fs))
    ensures ManyAt(item, offset, |fs|) == Got(FieldsOf(fs, pl), offset + |FieldsBytes(fs)|)
    decreases |fs|
  {
    if fs != [] {
      var f, rest := fs[0], fs[1..];
      var a := offset + |FieldBytes(f)|;
      assert fs == [f] + rest;
      FieldsPush(f, rest, pl);
      AtConcat(data, offset, FieldBytes(f), FieldsBytes(rest));
      FieldReadsForm(data, offset, f, pl);
      FieldsReadForm(item, data, a, rest, pl);
      FieldsFollow(item, data, offset, f, rest, a, a + |FieldsBytes(rest)|, pl);
    }
  }

  lemma {:induction false} FieldsHaveForm(item: nat -> Parsed<Field>, data: seq<byte>, offset: nat, count: nat, pl: Platform)
      returns (fs: seq<FieldForm>)
    requires ReadsFields(item, data, pl)
    requires offset <= |data| && ManyAt(item, offset, count).Got?
    ensures |fs| == count && FieldsFit(fs, pl) && At(data, offset, FieldsBytes(fs))
    decreases count
  {
    fs := [];
    if count > 0 {
      var f, a := FirstFieldForm(item, data, offset, count, pl);
      var rest := FieldsHaveForm(item, data, a, count - 1, pl);
      fs := [f] + rest;
      FieldsStand(data, offset, f, rest, pl);
    }
  }

  lemma {:induction false} FirstFieldForm(item: nat -> Parsed<Field>, data: seq<byte>, offset: nat, count: nat, pl: Platform)
      returns (f: FieldForm, a: nat)
    requires ReadsFields(item, data, pl) && count > 0 && ManyAt(item, offset, count).Got?
    ensures FieldFits(f, pl) && At(data, offset, FieldBytes(f)) && a == offset + |FieldBytes(f)| <= |data|
    ensures ManyAt(item, a, count - 1).Got?
  {
    FieldsTurn(item, data, offset, count, pl);
    f := FieldHasForm(data, offset, pl);
    a := offset + |FieldBytes(f)|;
  }

  lemma {:induction false} FieldsStand(data: seq<byte>, offset: nat, f: FieldForm, rest: seq<FieldForm>, pl: Platform)
    requires FieldFits(f, pl) && FieldsFit(rest, pl)
    requires At(data, offset, FieldBytes(f)) && At(data, offset + |FieldBytes(f)|, FieldsBytes(rest))
    ensures FieldsFit([f] + rest, pl) && At(data, offset, FieldsBytes([f] + rest))
  {
    FieldsPush(f, rest, pl);
    AtConcat(data, offset, FieldBytes(f), FieldsBytes(rest));
  }

  lemma {:induction false} ConditionGot(data: seq<byte>, h: Head, offset: nat, kind: seq<byte>, count: nat, fields: seq<Field>,
                                        a: nat, next: nat,
                                 pl: Platform)
    requires pl.decode(kind) != "" && DelimitedAt(data, offset) == Got(kind, a)
    requires BeAt(data, a, U16) == Got(count, a + 2)
    requires FieldsAt(data, a + 2, count, pl) == Got(fields, next)
    ensures ConditionAt(data, h, offset, pl) == Got(Cond(pl.decode(kind), fields, h.weight), next)
  {
  }

  lemma {:induction false} ConditionPieces(data: seq<byte>, offset: nat, kind: seq<byte>, count: nat, tail: seq<byte>, a: nat)
    requires a == offset + 4 + |kind|
    ensures At(data, offset, ConditionBytes(kind, count, tail)) <==>
            At(data, offset, Prefixed(kind)) && At(data, a, Short(count)) && At(data, a + 2, tail)
    ensures |ConditionBytes(kind, count, tail)| == 6 + |kind| + |tail|
  {
    ThreeStand(data, offset, Prefixed(kind), Short(count), tail, ConditionBytes(kind, count, tail));
  }

  lemma {:induction false} PiecesRead(data: seq<byte>, offset: nat, kind: seq<byte>, count: nat, a: nat)
    requires |kind| < 0x1_0000_0000 && count < 0x1_0000 && a == offset + 4 + |kind|
    requires At(data, offset, Prefixed(kind)) && At(data, a, Short(count))
    ensures DelimitedAt(data, offset) == Got(kind, a) && BeAt(data, a, U16) == Got(count, a + 2)
  {
    PrefixedExact(data, offset, kind, a);
    ShortExact(data, a, count, a + 2);
  }

  lemma {:induction false} ConditionFront(data: seq<byte>, offset: nat, kind: seq<byte>, count: nat, tail: seq<byte>, a: nat)
    requires |kind| < 0x1_0000_0000 && count < 0x1_0000 && At(data, offset, ConditionBytes(kind, count, tail))
    requires a == offset + 4 + |kind|
    ensures DelimitedAt(data, offset) == Got(kind, a) && BeAt(data, a, U16) == Got(count, a + 2)
    ensures At(data, a + 2, tail)
  {
    ConditionPieces(data, offset, kind, count, tail, a);
    PiecesRead(data, offset, kind, count, a);
  }

  /** A condition behind its head, from what is read in turn. */
  lemma {:induction false} ConditionRead(data: seq<byte>, h: Head, offset: nat, kind: seq<byte>, fields: seq<FieldForm>, a: nat,
                                         end: nat, pl: Platform)
    requires pl.decode(kind) != "" && FieldsFit(fields, pl)
    requires DelimitedAt(data, offset) == Got(kind, a) && BeAt(data, a, U16) == Got(|fields|, a + 2)
    requires At(data, a + 2, FieldsBytes(fields)) && end == a + 2 + |FieldsBytes(fields)|
    ensures ConditionAt(data, h, offset, pl) == Got(Cond(pl.decode(kind), Assigned(FieldsOf(fields, pl)), h.weight), end)
  {
    ParametersRead(data, a + 2, fields, pl);
    ConditionGot(data, h, offset, kind, |fields|, Assigned(FieldsOf(fields, pl)), a, end, pl);
  }

  lemma {:induction false} ConditionNodeReadsForm(data: seq<byte>, offset: nat, weight: Option<nat>, kind: seq<byte>,
                                                  fields: seq<FieldForm>, pl: Platform)
    requires var f := ConditionForm(weight, kind, fields); NodeFits(f, pl) && At(data, offset, NodeBytes(f))
    ensures var f := ConditionForm(weight, kind, fields); NodeAt(data, offset, pl) == Got(NodeOf(f, pl), offset + |NodeBytes(f)|)
  {
    var count, tail := |fields|, FieldsBytes(fields);
    var a := ConditionHead(data, offset, weight, ConditionBytes(kind, count, tail));
    var b := a + 4 + |kind|;
    assert DelimitedAt(data, a) == Got(kind, b) && BeAt(data, b, U16) == Got(count, b + 2) && At(data, b + 2, tail) by {
      ConditionFront(data, a, kind, count, tail, b);
    }
    ConditionRead(data, Head(0x02, weight), a, kind, fields, b, b + 2 + |tail|, pl);
  }

  lemma {:induction false} ConditionHead(data: seq<byte>, offset: nat, weight: Option<nat>, body: seq<byte>) returns (a: nat)
    requires WeightFits(weight) && At(data, offset, HeadBytes(0x02, weight) + body)
    ensures a == offset + |HeadBytes(0x02, weight)| && HeadAt(data, offset) == Got(Head(0x02, weight), a) && At(data, a, body)
  {
    a := offset + |HeadBytes(0x02, weight)|;
    AtConcat(data, offset, HeadBytes(0x02, weight), body);
    HeadExact(data, offset, 0x02, weight, a);
  }

  lemma {:induction false} ParametersRead(data: seq<byte>, offset: nat, fields: seq<FieldForm>, pl: Platform)
    requires FieldsFit(fields, pl) && At(data, offset, FieldsBytes(fields))
    ensures FieldsAt(data, offset, |fields|, pl) == Got(Assigned(FieldsOf(fields, pl)), offset + |FieldsBytes(fields)|)
  {
    FieldsReadForm(FieldReader(data, pl), data, offset, fields, pl);
  }

  lemma {:induction false} ConditionHasForm(data: seq<byte>, h: Head, offset: nat, pl: Platform)
      returns (kind: seq<byte>, fields: seq<FieldForm>)
    requires ConditionAt(data, h, offset, pl).Got?
    ensures ConditionFits(kind, fields, pl) && At(data, offset, ConditionBytes(kind, |fields|, FieldsBytes(fields)))
  {
    var a: nat;
    kind, a := DelimitedFound(data, offset);
    fields := ParametersFound(data, a, pl);
    ConditionPieces(data, offset, kind, |fields|, FieldsBytes(fields), a);
  }

  lemma {:induction false} ParametersFound(data: seq<byte>, offset: nat, pl: Platform) returns (fields: seq<FieldForm>)
    requires BeAt(data, offset, U16).Got?
    requires ManyAt(FieldReader(data, pl), offset + 2, BeAt(data, offset, U16).value).Got?
    ensures |fields| < 0x1_0000 && FieldsFit(fields, pl)
    ensures At(data, offset, Short(|fields|)) && At(data, offset + 2, FieldsBytes(fields))
  {
    var count := BeAt(data, offset, U16);
    ShortExact(data, offset, count.value, count.next);
    fields := FieldsHaveForm(FieldReader(data, pl), data, offset + 2, count.value, pl);
  }

  // ----- nodes

  lemma {:induction false} NodeReadsForm(data: seq<byte>, offset: nat, f: NodeForm, pl: Platform)
    requires NodeFits(f, pl) && At(data, offset, NodeBytes(f))
    ensures NodeAt(data, offset, pl) == Got(NodeOf(f, pl), offset + |NodeBytes(f)|)
    decreases f, 1
  {
    match f {
      case ConditionForm(weight, kind, fields) => ConditionNodeReadsForm(data, offset, weight, kind, fields, pl);
      case OperatorForm(weight, op, k, weights, children) =>
        var a, b := OperatorFront(data, offset, weight, op, k, weights, children);
        NodesReadForm(data, b, children, pl);
        OperatorAt(data, offset, Head(0x01, weight), a, OperatorHead(op, ParamsOf(k, weights), |children|), b,
                   NodesOf(children, pl), b + |NodesBytes(children)|, pl);
    }
  }

  lemma {:induction false} OperatorFront(data: seq<byte>, offset: nat, weight: Option<nat>, op: Operator, k: Option<nat>,
                                  weights: Option<seq<nat>>, children: seq<NodeForm>) returns (a: nat, b: nat)
    requires WeightFits(weight) && ParamsFit(k, weights) && 0 < |children| < 0x1_0000
    requires At(data, offset, NodeBytes(OperatorForm(weight, op, k, weights, children)))
    ensures HeadAt(data, offset) == Got(Head(0x01, weight), a)
    ensures OperatorHeadAt(data, a) == Got(OperatorHead(op, ParamsOf(k, weights), |children|), b)
    ensures At(data, b, NodesBytes(children))
    ensures b + |NodesBytes(children)| == offset + |NodeBytes(OperatorForm(weight, op, k, weights, children))|
  {
    var head, body, tail := HeadBytes(0x01, weight), OperatorBytes(op, k, weights, |children|), NodesBytes(children);
    a := offset + |head|;
    b := a + |body|;
    ThreeStand(data, offset, head, body, tail, NodeBytes(OperatorForm(weight, op, k, weights, children)));
    assert HeadAt(data, offset) == Got(Head(0x01, weight), a) by { HeadExact(data, offset, 0x01, weight, a); }
    OperatorExact(data, a, op, k, weights, |children|, b);
  }

  lemma {:induction false} NodesPush(f: NodeForm, rest: seq<NodeForm>, pl: Platform)
    ensures NodesBytes([f] + rest) == NodeBytes(f) + NodesBytes(rest)
    ensures NodesFit([f] + rest, pl) <==> NodeFits(f, pl) && NodesFit(rest, pl)
    ensures NodesFit([f] + rest, pl) ==> NodesOf([f] + rest, pl) == [NodeOf(f, pl)] + NodesOf(rest, pl)
  {
    var fs := [f] + rest;
    assert fs[0] == f && fs[1..] == rest;
    if NodesFit(fs, pl) {
      forall i | 0 <= i < |rest| ensures NodeFits(rest[i], pl) {
        assert rest[i] == fs[i + 1];
      }
    }
  }

  /** A list of nodes is read when the first is and then the rest. */
  lemma {:induction false} NodesFollow(data: seq<byte>, offset: nat, fs: seq<NodeForm>, a: nat, b: nat, pl: Platform)
    requires fs != [] && NodesFit(fs, pl) && NodeFits(fs[0], pl) && NodesFit(fs[1..], pl)
    requires NodeAt(data, offset, pl) == Got(NodeOf(fs[0], pl), a)
    requires NodesAt(data, a, |fs| - 1, pl) == Got(NodesOf(fs[1..], pl), b)
    ensures NodesAt(data, offset, |fs|, pl) == Got(NodesOf(fs, pl), b)
  {
    NodesTurn(data, offset, |fs|, pl, Got(NodeOf(fs[0], pl), a));
  }

  lemma {:induction false} NodesReadForm(data: seq<byte>, offset: nat, fs: seq<NodeForm>, pl: Platform)
    requires NodesFit(fs, pl) && At(data, offset, NodesBytes(fs))
    ensures NodesAt(data, offset, |fs|, pl) == Got(NodesOf(fs, pl), offset + |NodesBytes(fs)|)
    decreases fs, 0
  {
    if fs == [] {
      NoNodesAt(data, offset, pl);
    } else {
      var a := NodesStandApart(data, offset, fs, pl);
      var b := a + |NodesBytes(fs[1..])|;
      assert NodeAt(data, offset, pl) == Got(NodeOf(fs[0], pl), a) by { NodeReadsForm(data, offset, fs[0], pl); }
      assert NodesAt(data, a, |fs| - 1, pl) == Got(NodesOf(fs[1..], pl), b) by { NodesReadForm(data, a, fs[1..], pl); }
      NodesFollow(data, offset, fs, a, b, pl);
    }
  }

  lemma {:induction false} NoNodesAt(data: seq<byte>, offset: nat, pl: Platform)
    ensures NodesAt(data, offset, 0, pl) == Got(NodesOf([], pl), offset + |NodesBytes([])|)
  {
  }

  lemma {:induction false} NodesStandApart(data: seq<byte>, offset: nat, fs: seq<NodeForm>, pl: Platform) returns (a: nat)
    requires fs != [] && NodesFit(fs, pl) && At(data, offset, NodesBytes(fs))
    ensures NodeFits(fs[0], pl) && NodesFit(fs[1..], pl)
    ensures At(data, offset, NodeBytes(fs[0])) && a == offset + |NodeBytes(fs[0])|
    ensures At(data, a, NodesBytes(fs[1..])) && a + |NodesBytes(fs[1..])| == offset + |NodesBytes(fs)|
  {
    var f, rest := fs[0], fs[1..];
    a := offset + |NodeBytes(f)|;
    assert fs == [f] + rest;
    NodesPush(f, rest, pl);
    AtConcat(data, offset, NodeBytes(f), NodesBytes(rest));
  }

  lemma {:induction false} NodeHasForm(data: seq<byte>, offset: nat, pl: Platform) returns (f: NodeForm)
    requires NodeAt(data, offset, pl).Got?
    ensures NodeFits(f, pl) && At(data, offset, NodeBytes(f))
    decreases |data| - offset, 0, 1
  {
    var h := HeadAt(data, offset);
    if h.value.kind == 0x02 {
      f := ConditionNodeHasForm(data, offset, h, pl);
    } else {
      f := OperatorNodeHasForm(data, offset, h, pl);
    }
  }

  lemma {:induction false} OperatorNodeHasForm(data: seq<byte>, offset: nat, h: Parsed<Head>, pl: Platform) returns (f: NodeForm)
    requires h == HeadAt(data, offset) && h.Got? && h.value.kind == 0x01 && OperatorHeadAt(data, h.next).Got?
    requires var o := OperatorHeadAt(data, h.next); NodesAt(data, o.next, o.value.count, pl).Got?
    ensures NodeFits(f, pl) && At(data, offset, NodeBytes(f))
    decreases |data| - offset, 0, 0
  {
    var weight, a := HeadFound(data, offset, h);
    var k, weights, children := OperatorParts(data, a, pl);
    var op := OperatorHeadAt(data, a).value.op;
    f := OperatorForm(weight, op, k, weights, children);
    OperatorStands(data, offset, weight, op, k, weights, children, pl);
  }

  lemma {:induction false} ConditionNodeHasForm(data: seq<byte>, offset: nat, h: Parsed<Head>, pl: Platform) returns (f: NodeForm)
    requires h == HeadAt(data, offset) && h.Got? && h.value.kind == 0x02 && ConditionAt(data, h.value, h.next, pl).Got?
    ensures NodeFits(f, pl) && At(data, offset, NodeBytes(f))
  {
    var weight, a := HeadFound(data, offset, h);
    var kind, fields := ConditionHasForm(data, h.value, a, pl);
    f := ConditionForm(weight, kind, fields);
    ConditionStands(data, offset, weight, kind, fields, pl);
  }

  lemma {:induction false} HeadFound(data: seq<byte>, offset: nat, h: Parsed<Head>) returns (weight: Option<nat>, next: nat)
    requires h == HeadAt(data, offset) && h.Got?
    ensures weight == h.value.weight && next == h.next && offset + 2 <= next <= |data|
    ensures var bytes := HeadBytes(h.value.kind, weight); WeightFits(weight) && At(data, offset, bytes) && next == offset + |bytes|
  {
    weight, next := h.value.weight, h.next;
    HeadExact(data, offset, h.value.kind, weight, next);
  }

  /** What stands behind the head of an operator that is read. */
  lemma {:induction false} OperatorParts(data: seq<byte>, offset: nat, pl: Platform)
      returns (k: Option<nat>, weights: Option<seq<nat>>, children: seq<NodeForm>)
    requires OperatorHeadAt(data, offset).Got?
    requires var o := OperatorHeadAt(data, offset); NodesAt(data, o.next, o.value.count, pl).Got?
    ensures ParamsFit(k, weights) && 0 < |children| < 0x1_0000 && NodesFit(children, pl)
    ensures var body := OperatorBytes(OperatorHeadAt(data, offset).value.op, k, weights, |children|);
            At(data, offset, body) && At(data, offset + |body|, NodesBytes(children))
    decreases |data| - offset, |data|
  {
    k, weights := OperatorHasForm(data, offset);
    var o := OperatorHeadAt(data, offset);
    children := NodesHaveForm(data, o.next, o.value.count, pl);
  }

  lemma {:induction false} ConditionStands(data: seq<byte>, offset: nat, weight: Option<nat>, kind: seq<byte>,
                                           fields: seq<FieldForm>, pl: Platform)
    requires WeightFits(weight) && ConditionFits(kind, fields, pl) && At(data, offset, HeadBytes(0x02, weight))
    requires At(data, offset + |HeadBytes(0x02, weight)|, ConditionBytes(kind, |fields|, FieldsBytes(fields)))
    ensures var f := ConditionForm(weight, kind, fields); NodeFits(f, pl) && At(data, offset, NodeBytes(f))
  {
    var head, body := HeadBytes(0x02, weight), ConditionBytes(kind, |fields|, FieldsBytes(fields));
    AtConcat(data, offset, head, body);
  }

  lemma {:induction false} OperatorHasForm(data: seq<byte>, offset: nat) returns (k: Option<nat>, weights: Option<seq<nat>>)
    requires OperatorHeadAt(data, offset).Got?
    ensures var o := OperatorHeadAt(data, offset);
            && ParamsFit(k, weights) && 0 < o.value.count < 0x1_0000
            && At(data, offset, OperatorBytes(o.value.op, k, weights, o.value.count))
            && o.next == offset + |OperatorBytes(o.value.op, k, weights, o.value.count)|
  {
    k, weights := ParamsHaveForm(data, offset);
    var o := OperatorHeadAt(data, offset);
    OperatorExact(data, offset, o.value.op, k, weights, o.value.count, o.next);
  }

  lemma {:induction false} OperatorStands(data: seq<byte>, offset: nat, weight: Option<nat>, op: Operator, k: Option<nat>,
                                   weights: Option<seq<nat>>, children: seq<NodeForm>, pl: Platform)
    requires WeightFits(weight) && ParamsFit(k, weights) && 0 < |children| < 0x1_0000 && NodesFit(children, pl)
    requires At(data, offset, HeadBytes(0x01, weight))
    requires var a := offset + |HeadBytes(0x01, weight)|; var body := OperatorBytes(op, k, weights, |children|);
             At(data, a, body) && At(data, a + |body|, NodesBytes(children))
    ensures var f := OperatorForm(weight, op, k, weights, children); NodeFits(f, pl) && At(data, offset, NodeBytes(f))
  {
    var f := OperatorForm(weight, op, k, weights, children);
    ThreeStand(data, offset, HeadBytes(0x01, weight), OperatorBytes(op, k, weights, |children|), NodesBytes(children), NodeBytes(f));
  }

  lemma {:induction false} ParamsHaveForm(data: seq<byte>, offset: nat) returns (k: Option<nat>, weights: Option<seq<nat>>)
    requires OperatorHeadAt(data, offset).Got?
    ensures OperatorHeadAt(data, offset).value.params == ParamsOf(k, weights)
  {
    var p := ParamsAt(data, offset + 1);
    k := if p.value.Some? && p.value.value.k.Some? then Some(BeAt(data, offset + 2, U32).value) else None;
    weights := WeightsOf(p.value);
  }

  lemma {:induction false} NodesHaveForm(data: seq<byte>, offset: nat, count: nat, pl: Platform) returns (fs: seq<NodeForm>)
    requires offset <= |data| && NodesAt(data, offset, count, pl).Got?
    ensures |fs| == count && NodesFit(fs, pl) && At(data, offset, NodesBytes(fs))
    decreases |data| - offset, 1 + count
  {
    fs := [];
    if count > 0 {
      var n := NodeAt(data, offset, pl);
      NodesTurn(data, offset, count, pl, n);
      var f := NodeHasForm(data, offset, pl);
      assert n.next == offset + |NodeBytes(f)| by { NodeReadsForm(data, offset, f, pl); }
      var rest := NodesHaveForm(data, n.next, count - 1, pl);
      fs := [f] + rest;
      NodesStand(data, offset, f, rest, pl);
    }
  }

  lemma {:induction false} NodesStand(data: seq<byte>, offset: nat, f: NodeForm, rest: seq<NodeForm>, pl: Platform)
    requires NodeFits(f, pl) && NodesFit(rest, pl)
    requires At(data, offset, NodeBytes(f)) && At(data, offset + |NodeBytes(f)|, NodesBytes(rest))
    ensures NodesFit([f] + rest, pl) && At(data, offset, NodesBytes([f] + rest))
  {
    NodesPush(f, rest, pl);
    AtConcat(data, offset, NodeBytes(f), NodesBytes(rest));
  }

  /** The decoder accepts exactly the documents of the layout, and gives the tree they stand for. */
  lemma {:induction false} DecodesExactly(data: seq<byte>, n: PolicyNode, next: nat, pl: Platform)
    ensures DecodeV1(data, pl) == Got(n, next) <==>
            next == |data| && exists f :: NodeFits(f, pl) && data == [0x07, 0x01] + NodeBytes(f) && NodeOf(f, pl) == n
  {
    if DecodeV1(data, pl) == Got(n, next) {
      var f := NodeHasForm(data, 2, pl);
      NodeReadsForm(data, 2, f, pl);
      assert data == [data[0], data[1]] + data[2..];
      assert data[2..] == NodeBytes(f);
    }
    if f :| NodeFits(f, pl) && data == [0x07, 0x01] + NodeBytes(f) && NodeOf(f, pl) == n {
      AtWhole(data);
      AtConcat(data, 0, [0x07, 0x01], NodeBytes(f));
      NodeReadsForm(data, 2, f, pl);
    }
  }

  // ----- encoding

  function ValueFormOf(v: Json, pl: Platform): ValueForm {
    match v
    case Str(text) => Text(pl.encode(text))
    case Bool(flag) => Flag(flag)
    case _ => if SafeNat(v).Some? then Natural(SafeNat(v).value) else JsonText(pl.encode(pl.canonical(v)))
  }

  function FieldFormOf(f: Field, pl: Platform): FieldForm {
    FieldForm(pl.encode(f.key), ValueFormOf(f.value, pl))
  }

  function FieldFormsOf(fields: seq<Field>, pl: Platform): (r: seq<FieldForm>)
    ensures |r| == |fields|
  {
    if fields == [] then [] else [FieldFormOf(fields[0], pl)] + FieldFormsOf(fields[1..], pl)
  }

  /** The document of a tree; parameters by key. */
  function FormOf(n: PolicyNode, pl: Platform): NodeForm
    decreases n, 1
  {
    match n
    case Op(op, children, p, weight) =>
      OperatorForm(weight, op, if KOf(p).Some? then SafeNat(KOf(p).value) else None, WeightsOf(p), FormsOf(children, pl))
    case Cond(kind, params, weight) => ConditionForm(weight, pl.encode(kind), FieldFormsOf(Sort(KeyOf, params), pl))
  }

  function FormsOf(ns: seq<PolicyNode>, pl: Platform): (r: seq<NodeForm>)
    ensures |r| == |ns|
    decreases ns, 0
  {
    if ns == [] then [] else [FormOf(ns[0], pl)] + FormsOf(ns[1..], pl)
  }

  /** The lengths and numbers of a value fit their fields. */
  predicate ValueEncodes(v: Json, pl: Platform) {
    match v
    case Str(text) => |pl.encode(text)| < 0x1_0000_0000
    case Bool(_) => true
    case _ => SafeNat(v).Some? || |pl.encode(pl.canonical(v))| < 0x1_0000_0000
  }

  predicate FieldsEncode(fields: seq<Field>, pl: Platform) {
    forall i :: 0 <= i < |fields| ==> |pl.encode(fields[i].key)| < 0x1_0000_0000 && ValueEncodes(fields[i].value, pl)
  }

  /** A k must be a non-negative integer of 32 bits. */
  predicate KFits(k: Option<Json>) {
    k.Some? ==> SafeNat(k.value).Some? && SafeNat(k.value).value < 0x1_0000_0000
  }

  predicate NodeEncodes(n: PolicyNode, pl: Platform)
    decreases n
  {
    && WeightFits(n.weight)
    && match n
       case Op(_, children, p, _) =>
         && KFits(KOf(p)) && (WeightsOf(p).Some? ==> |WeightsOf(p).value| < 0x1_0000 && WordsFit(WeightsOf(p).value))
         && |children| < 0x1_0000 && forall i :: 0 <= i < |children| ==> NodeEncodes(children[i], pl)
       case Cond(kind, params, _) => |pl.encode(kind)| < 0x1_0000_0000 && |params| < 0x1_0000 && FieldsEncode(params, pl)
  }

  lemma {:induction false} HeadEncodes(kind: byte, weight: Option<nat>)
    ensures EncodeHead(kind, weight) == Writes(WeightFits(weight), HeadBytes(kind, weight))
  {
    if weight.Some? {
      WritersAre(weight.value, []);
      assert [kind] + [1] + Word(weight.value) == [kind, 1] + Word(weight.value);
    } else {
      assert [kind] + [0] + [] == [kind, 0];
    }
  }

  lemma {:induction false} WordsEncode(ws: seq<nat>)
    ensures Many(WordWriter(), ws) == Writes(WordsFit(ws), WordsBytes(ws))
  {
    if ws != [] {
      WritersAre(ws[0], []);
      WordsEncode(ws[1..]);
      WordsFitSplit(ws);
    }
  }

  lemma {:induction false} WeightsEncode(weights: Option<seq<nat>>)
    ensures EncodeWeights(weights) ==
            Writes(weights.Some? ==> |weights.value| < 0x1_0000 && WordsFit(weights.value), WeightsBytes(weights))
  {
    if weights.Some? {
      WritersAre(|weights.value|, []);
      WordsEncode(weights.value);
    }
  }

  lemma {:induction false} KEncodes(k: Option<Json>)
    ensures EncodeK(k) == Writes(KFits(k), KBytes(if k.Some? then SafeNat(k.value) else None))
  {
    if k.Some? && SafeNat(k.value).Some? {
      WritersAre(SafeNat(k.value).value, []);
    }
  }

  lemma {:induction false} ParamsEncode(p: Option<OperatorParams>)
    requires KFits(KOf(p))
    ensures var k, weights := if KOf(p).Some? then SafeNat(KOf(p).value) else None, WeightsOf(p);
            EncodeOperatorParams(p) ==
            Writes(weights.Some? ==> |weights.value| < 0x1_0000 && WordsFit(weights.value), ParamBytes(k, weights))
  {
    KEncodes(KOf(p));
    WeightsEncode(WeightsOf(p));
  }

  lemma {:induction false} OperatorEncodes(op: Operator, p: Option<OperatorParams>, count: nat)
    ensures var k, weights := if KOf(p).Some? then SafeNat(KOf(p).value) else None, WeightsOf(p);
            EncodeOperatorHead(op, p, count) ==
            Writes(KFits(KOf(p)) && (weights.Some? ==> |weights.value| < 0x1_0000 && WordsFit(weights.value)) && count < 0x1_0000,
                   OperatorBytes(op, k, weights, count))
  {
    WritersAre(count, []);
    KEncodes(KOf(p));
    if KFits(KOf(p)) {
      ParamsEncode(p);
    }
  }

  lemma {:induction false} ValueEncodesForm(v: Json, pl: Platform)
    ensures EncodeValue(v, pl) == Writes(ValueEncodes(v, pl), ValueBytes(ValueFormOf(v, pl)))
  {
    if v.Str? {
      WritersAre(0, pl.encode(v.s));
    } else if v.Bool? {
      var b: byte := if v.b then 1 else 0;
      assert [0x02] + [b] == [0x02, b];
    } else if SafeNat(v).Some? {
      WritersAre(SafeNat(v).value, []);
    } else {
      WritersAre(0, pl.encode(pl.canonical(v)));
    }
  }

  lemma {:induction false} FieldsEncodeForm(fields: seq<Field>, pl: Platform)
    ensures Many(FieldWriter(pl), fields) == Writes(FieldsEncode(fields, pl), FieldsBytes(FieldFormsOf(fields, pl)))
  {
    if fields != [] {
      FieldsEncodeForm(fields[1..], pl);
      FieldsTail(fields, pl);
      FieldEncodesForm(fields[0], pl);
      FieldsPush(FieldFormOf(fields[0], pl), FieldFormsOf(fields[1..], pl), pl);
    }
  }

  lemma {:induction false} FieldEncodesForm(f: Field, pl: Platform)
    ensures EncodeField(f, pl) == Writes(|pl.encode(f.key)| < 0x1_0000_0000 && ValueEncodes(f.value, pl), FieldBytes(FieldFormOf(f, pl)))
  {
    WritersAre(0, pl.encode(f.key));
    ValueEncodesForm(f.value, pl);
  }

  lemma {:induction false} FieldsTail(fields: seq<Field>, pl: Platform)
    requires fields != []
    ensures FieldsEncode(fields, pl) <==>
            |pl.encode(fields[0].key)| < 0x1_0000_0000 && ValueEncodes(fields[0].value, pl) && FieldsEncode(fields[1..], pl)
  {
    if FieldsEncode(fields[1..], pl) {
      forall i | 1 <= i < |fields| ensures fields[i] == fields[1..][i - 1] {
      }
    }
  }

  lemma {:induction false} SortEncodes(fields: seq<Field>, pl: Platform)
    ensures FieldsEncode(Sort(KeyOf, fields), pl) <==> FieldsEncode(fields, pl)
  {
    SortContents(KeyOf, fields);
    var sorted := Sort(KeyOf, fields);
    forall f ensures f in sorted <==> f in fields {
      assert multiset(sorted)[f] == multiset(fields)[f];
    }
    assert FieldsEncode(sorted, pl) <==> (forall f <- sorted :: |pl.encode(f.key)| < 0x1_0000_0000 && ValueEncodes(f.value, pl));
    assert FieldsEncode(fields, pl) <==> (forall f <- fields :: |pl.encode(f.key)| < 0x1_0000_0000 && ValueEncodes(f.value, pl));
  }

  lemma {:induction false} ConditionEncodes(kind: string, params: seq<Field>, pl: Platform)
    ensures var forms := FieldFormsOf(Sort(KeyOf, params), pl);
            EncodeCondition(kind, Sort(KeyOf, params), pl) ==
            Writes(|pl.encode(kind)| < 0x1_0000_0000 && |params| < 0x1_0000 && FieldsEncode(params, pl),
                   ConditionBytes(pl.encode(kind), |forms|, FieldsBytes(forms)))
  {
    var sorted := Sort(KeyOf, params);
    SortContents(KeyOf, params);
    assert |sorted| == |multiset(sorted)| == |multiset(params)| == |params|;
    SortEncodes(params, pl);
    WritersAre(|sorted|, pl.encode(kind));
    FieldsEncodeForm(sorted, pl);
  }

  lemma {:induction false} NodeEncodesForm(n: PolicyNode, pl: Platform)
    ensures EncodeNode(n, pl) == Writes(NodeEncodes(n, pl), NodeBytes(FormOf(n, pl)))
    decreases n, 1
  {
    match n {
      case Cond(kind, params, weight) =>
        HeadEncodes(0x02, weight);
        ConditionEncodes(kind, params, pl);
      case Op(op, children, p, weight) =>
        HeadEncodes(0x01, weight);
        OperatorEncodes(op, p, |children|);
        NodesEncodeForm(children, pl);
    }
  }

  lemma {:induction false} NodesEncodeForm(ns: seq<PolicyNode>, pl: Platform)
    ensures EncodeNodes(ns, pl) == Writes(forall i :: 0 <= i < |ns| ==> NodeEncodes(ns[i], pl), NodesBytes(FormsOf(ns, pl)))
    decreases ns, 0
  {
    if ns != [] {
      NodeEncodesForm(ns[0], pl);
      NodesEncodeForm(ns[1..], pl);
      forall i | 1 <= i < |ns| ensures ns[i] == ns[1..][i - 1] {
      }
      NodesPush(FormOf(ns[0], pl), FormsOf(ns[1..], pl), pl);
    }
  }

  /** The encoder writes the document of the tree, and refuses exactly a tree with a number or length that does not fit. */
  lemma {:induction false} EncodesExactly(n: PolicyNode, pl: Platform)
    ensures EncodeV1(n, pl) == if NodeEncodes(n, pl) then Wrote([0x07, 0x01] + NodeBytes(FormOf(n, pl))) else OutOfRange
  {
    NodeEncodesForm(n, pl);
    assert [CONTRACT_ID] + [CONTRACT_VERSION] == [0x07, 0x01];
  }

  // ----- assigning parameters

  /** Of the entries read under one key the last gives the value; the prototype's key is never stored. */
  lemma {:induction false} LastAssigned(fields: seq<Field>, i: nat)
    requires i < |fields| && fields[i].key != PROTO
    requires forall j :: i < j < |fields| ==> fields[j].key != fields[i].key
    ensures Lookup(Assigned(fields), fields[i].key) == Some(fields[i].value)
    decreases |fields|
  {
    var front, f := fields[..|fields| - 1], fields[|fields| - 1];
    AssignLooksUp(Assigned(front), f, fields[i].key);
    if i < |front| {
      LastAssigned(front, i);
    }
  }

  lemma {:induction false} NeverAssigned(fields: seq<Field>, key: string)
    requires key == PROTO || forall j :: 0 <= j < |fields| ==> fields[j].key != key
    ensures Lookup(Assigned(fields), key) == None
    decreases |fields|
  {
    if fields != [] {
      var front, f := fields[..|fields| - 1], fields[|fields| - 1];
      NeverAssigned(front, key);
      AssignLooksUp(Assigned(front), f, key);
    }
  }

  lemma {:induction false} AssignLooksUp(fields: seq<Field>, f: Field, key: string)
    ensures Lookup(Assign(fields, f), key) == if key == f.key && key != PROTO then Some(f.value) else Lookup(fields, key)
    decreases |fields|
  {
    if fields != [] && f.key != PROTO {
      if fields[0].key == f.key {
        LookupFirst(f, fields[1..], key);
      } else {
        AssignLooksUp(fields[1..], f, key);
        LookupFirst(fields[0], Assign(fields[1..], f), key);
      }
    }
  }

  lemma {:induction false} LookupFirst(f: Field, rest: seq<Field>, key: string)
    ensures Lookup([f] + rest, key) == if f.key == key then Some(f.value) else Lookup(rest, key)
  {
    assert ([f] + rest)[1..] == rest;
  }

  // ----- refusals by kind

  /** Of an unknown contract or version the decoder says so; what is too short or too long it calls truncated or malformed. */
  lemma {:induction false} DocumentRefused(data: seq<byte>, pl: Platform)
    ensures data == [] ==> DecodeV1(data, pl) == Bad(Truncated)
    ensures data != [] && data[0] != 0x07 ==> DecodeV1(data, pl) == Bad(UnsupportedVersion)
    ensures data == [0x07] ==> DecodeV1(data, pl) == Bad(Truncated)
    ensures |data| >= 2 && data[0] == 0x07 && data[1] != 0x01 ==> DecodeV1(data, pl) == Bad(UnsupportedVersion)
    ensures |data| >= 2 && data[0] == 0x07 && data[1] == 0x01 && NodeAt(data, 2, pl).Bad? ==> DecodeV1(data, pl) == NodeAt(data, 2, pl)
    ensures |data| >= 2 && data[0] == 0x07 && data[1] == 0x01 && NodeAt(data, 2, pl).Got? && NodeAt(data, 2, pl).next < |data| ==>
              DecodeV1(data, pl) == Bad(Malformed)
  {
  }

  /** Unknown flags, kinds, operators and parameter flags. */
  lemma {:induction false} NodeRefused(data: seq<byte>, offset: nat, pl: Platform)
    requires offset + 2 <= |data|
    ensures data[offset + 1] > 1 ==> NodeAt(data, offset, pl) == Bad(UnsupportedVersion)
    ensures data[offset + 1] == 0 && data[offset] != 0x01 && data[offset] != 0x02 ==> NodeAt(data, offset, pl) == Bad(UnsupportedVersion)
    ensures data[offset + 1] == 1 && offset + 6 > |data| ==> NodeAt(data, offset, pl) == Bad(Truncated)
  {
  }

  lemma {:induction false} OperatorRefused(data: seq<byte>, offset: nat)
    requires offset + 2 <= |data|
    ensures data[offset] == 0 || data[offset] > 14 ==> OperatorHeadAt(data, offset) == Bad(UnsupportedVersion)
    ensures 1 <= data[offset] <= 14 && data[offset + 1] > 3 ==> OperatorHeadAt(data, offset) == Bad(UnsupportedVersion)
    ensures 1 <= data[offset] <= 14 && data[offset + 1] == 0 && offset + 4 <= |data| && data[offset + 2..offset + 4] == [0, 0] ==>
              OperatorHeadAt(data, offset) == Bad(Malformed)
  {
    if offset + 4 <= |data| && data[offset + 2..offset + 4] == [0, 0] {
      var none: seq<byte> := [0, 0];
      assert none[..1][..0] == [];
      assert BeNat(none[..1]) == 256 * BeNat(none[..1][..0]) + none[..1][0] == 0;
      assert BeNat(none) == 256 * BeNat(none[..1]) + none[1] == 0;
    }
  }

  /** Unknown tags, flags above 1, numbers above 2^53 - 1, texts that are no JSON, and the empty condition type. */
  lemma {:induction false} ValueRefused(data: seq<byte>, offset: nat, pl: Platform)
    requires offset < |data|
    ensures data[offset] == 0 || data[offset] > 4 ==> ValueAt(data, offset, pl) == Bad(UnsupportedVersion)
    ensures data[offset] == 2 && offset + 1 < |data| && data[offset + 1] > 1 ==> ValueAt(data, offset, pl) == Bad(Malformed)
    ensures data[offset] == 3 && BeAt(data, offset + 1, U64).Got? && BeAt(data, offset + 1, U64).value > 9007199254740991 ==>
              ValueAt(data, offset, pl) == Bad(Malformed)
    ensures var text := DelimitedAt(data, offset + 1);
            data[offset] == 4 && text.Got? && pl.parse(pl.decode(text.value)).None? ==> ValueAt(data, offset, pl) == Bad(Malformed)
  {
  }

  lemma {:induction false} EmptyTypeRefused(data: seq<byte>, h: Head, offset: nat, pl: Platform)
    requires DelimitedAt(data, offset).Got? && pl.decode(DelimitedAt(data, offset).value) == ""
    ensures ConditionAt(data, h, offset, pl) == Bad(Malformed)
  {
  }
}
