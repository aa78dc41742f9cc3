/**
  Records of fixed layout: a layout is a list of shapes, and writing and reading are
  proved inverse to each other once, for every layout.
 */
module Records {
  import opened Options
  import opened Bytes

  datatype Shape =
    | Block(size: nat)
    | Number(width: nat, little: bool)
    | Text(width: nat, little: bool)
    | Optional(part: seq<Shape>)
    | Many(width: nat, item: seq<Shape>)

  datatype Value =
    | Octets(bytes: seq<byte>)
    | Count(n: nat)
    | Maybe(parts: Option<seq<Value>>)
    | Items(items: seq<seq<Value>>)

  // ----- numbers in either byte order, and texts behind their length

  function Num(n: nat, width: nat, little: bool): Written {
    if little then Le(n, width) else Be(n, width)
  }

  function NumAt(data: seq<byte>, offset: nat, width: nat, little: bool): (r: Parsed<nat>)
    ensures r.Got? ==> r.next == offset + width <= |data|
  {
    if little then LeAt(data, offset, width) else BeAt(data, offset, width)
  }

  function TextAt(data: seq<byte>, offset: nat, width: nat, little: bool): (r: Parsed<seq<byte>>)
    ensures r.Got? ==> offset + width <= r.next <= |data|
  {
    var n := NumAt(data, offset, width, little);
    if n.Bad? then Bad(n.error) else TakeAt(data, n.next, n.value)
  }

  /** A flag byte, 0 or 1. */
  function FlagAt(data: seq<byte>, offset: nat): (r: Parsed<bool>)
    ensures r.Got? ==> r.next == offset + 1 <= |data|
  {
    var f := TakeAt(data, offset, 1);
    if f.Bad? then Bad(f.error)
    else if f.value[0] > 1 then Bad(UnsupportedVersion)
    else Got(f.value[0] == 1, f.next)
  }

  function Flag(b: bool): Written {
    Wrote([if b then 1 else 0])
  }

  function WriteText(b: seq<byte>, width: nat, little: bool): Written {
    Cat(Num(|b|, width, little), Wrote(b))
  }

  // ----- writing and reading a layout

  function WriteOne(shape: Shape, v: Value): Written
    decreases shape, 0, 0, v
  {
    match (shape, v)
    case (Block(size), Octets(b)) => if |b| == size then Wrote(b) else OutOfRange
    case (Number(width, little), Count(n)) => Num(n, width, little)
    case (Text(width, little), Octets(b)) => WriteText(b, width, little)
    case (Optional(part), Maybe(b)) => Cat(Flag(b.Some?), if b.None? then Wrote([]) else WriteAll(part, b.value))
    case (Many(width, item), Items(xs)) => Cat(Be(|xs|, width), WriteItems(item, xs))
    case _ => OutOfRange
  }

  function WriteItems(item: seq<Shape>, xs: seq<seq<Value>>): Written
    decreases item, 1, |xs|, xs
  {
    if xs == [] then Wrote([]) else Cat(WriteAll(item, xs[0]), WriteItems(item, xs[1..]))
  }

  function WriteAll(shapes: seq<Shape>, vs: seq<Value>): Written
    decreases shapes, 0, 0, vs
  {
    if shapes == [] && vs == [] then Wrote([])
    else if shapes == [] || vs == [] then OutOfRange
    else Cat(WriteOne(shapes[0], vs[0]), WriteAll(shapes[1..], vs[1..]))
  }

  /** A value is of the kind its shape reads. */
  predicate Kind(shape: Shape, v: Value) {
    match shape
    case Block(_) => v.Octets?
    case Number(_, _) => v.Count?
    case Text(_, _) => v.Octets?
    case Optional(_) => v.Maybe?
    case Many(_, _) => v.Items?
  }

  function ReadOne(shape: Shape, data: seq<byte>, offset: nat): (r: Parsed<Value>)
    ensures r.Got? ==> offset <= r.next && Kind(shape, r.value)
    ensures r.Got? && offset <= |data| ==> r.next <= |data|
    decreases shape, 0, 0, data
  {
    match shape
    case Block(size) =>
      var b := TakeAt(data, offset, size);
      if b.Bad? then Bad(b.error) else Got(Octets(b.value), b.next)
    case Number(width, little) =>
      var n := NumAt(data, offset, width, little);
      if n.Bad? then Bad(n.error) else Got(Count(n.value), n.next)
    case Text(width, little) =>
      var b := TextAt(data, offset, width, little);
      if b.Bad? then Bad(b.error) else Got(Octets(b.value), b.next)
    case Optional(part) =>
      var f := FlagAt(data, offset);
      if f.Bad? then Bad(f.error)
      else if !f.value then Got(Maybe(None), f.next)
      else
        var b := ReadAll(part, data, f.next);
        if b.Bad? then Bad(b.error) else Got(Maybe(Some(b.value)), b.next)
    case Many(width, item) =>
      var n := BeAt(data, offset, width);
      if n.Bad? then Bad(n.error)
      else
        var xs := ReadItems(item, data, n.next, n.value);
        if xs.Bad? then Bad(xs.error) else Got(Items(xs.value), xs.next)
  }

  function ReadItems(item: seq<Shape>, data: seq<byte>, offset: nat, count: nat): (r: Parsed<seq<seq<Value>>>)
    ensures r.Got? ==> offset <= r.next && |r.value| == count
    ensures r.Got? && offset <= |data| ==> r.next <= |data|
    decreases item, 1, count, data
  {
    if count == 0 then Got([], offset)
    else
      var x := ReadAll(item, data, offset);
      if x.Bad? then Bad(x.error) else Prepend([x.value], ReadItems(item, data, x.next, count - 1))
  }

  function ReadAll(shapes: seq<Shape>, data: seq<byte>, offset: nat): (r: Parsed<seq<Value>>)
    ensures r.Got? ==> offset <= r.next && |r.value| == |shapes|
    ensures r.Got? ==> forall i :: 0 <= i < |shapes| ==> Kind(shapes[i], r.value[i])
    ensures r.Got? && offset <= |data| ==> r.next <= |data|
    decreases shapes, 0, 0, data
  {
    if shapes == [] then Got([], offset)
    else
      var v := ReadOne(shapes[0], data, offset);
      if v.Bad? then Bad(v.error) else Prepend([v.value], ReadAll(shapes[1..], data, v.next))
  }

  lemma {:induction false} AllWritable(shapes: seq<Shape>, vs: seq<Value>)
    ensures WriteAll(shapes, vs).Wrote? <==>
            |shapes| == |vs| && forall i :: 0 <= i < |vs| ==> WriteOne(shapes[i], vs[i]).Wrote?
    decreases |shapes|
  {
    if shapes != [] && vs != [] {
      AllWritable(shapes[1..], vs[1..]);
      forall i | 0 < i < |vs| && i < |shapes| ensures shapes[i] == shapes[1..][i - 1] && vs[i] == vs[1..][i - 1] {
      }
    }
  }

  // ----- what was written reads back

  lemma {:induction false} NumReads(data: seq<byte>, offset: nat, n: nat, width: nat, little: bool)
    requires Num(n, width, little).Wrote? && At(data, offset, Num(n, width, little).bytes)
    ensures NumAt(data, offset, width, little) == Got(n, offset + width) && |Num(n, width, little).bytes| == width
  {
    if little {
      LeReads(data, offset, n, width);
    } else {
      BeReads(data, offset, n, width);
    }
  }

  lemma {:induction false} TextReads(data: seq<byte>, offset: nat, b: seq<byte>, width: nat, little: bool)
    requires WriteText(b, width, little).Wrote? && At(data, offset, WriteText(b, width, little).bytes)
    ensures TextAt(data, offset, width, little) == Got(b, offset + |WriteText(b, width, little).bytes|)
  {
    CatAt(data, offset, Num(|b|, width, little), Wrote(b));
    NumReads(data, offset, |b|, width, little);
    TakeReads(data, offset + width, b);
  }

  lemma {:induction false} FlagReads(data: seq<byte>, offset: nat, b: bool)
    requires At(data, offset, Flag(b).bytes)
    ensures FlagAt(data, offset) == Got(b, offset + 1)
  {
    TakeReads(data, offset, Flag(b).bytes);
  }

  lemma {:induction false} OneWrittenReads(shape: Shape, v: Value, data: seq<byte>, offset: nat)
    requires WriteOne(shape, v).Wrote? && At(data, offset, WriteOne(shape, v).bytes)
    ensures ReadOne(shape, data, offset) == Got(v, offset + |WriteOne(shape, v).bytes|)
    decreases shape, 0, 0
  {
    match (shape, v) {
      case (Block(_), Octets(b)) => TakeReads(data, offset, b);
      case (Number(width, little), Count(n)) => NumReads(data, offset, n, width, little);
      case (Text(width, little), Octets(b)) => TextReads(data, offset, b, width, little);
      case (Optional(part), Maybe(b)) =>
        CatAt(data, offset, Flag(b.Some?), if b.None? then Wrote([]) else WriteAll(part, b.value));
        FlagReads(data, offset, b.Some?);
        if b.Some? {
          AllWrittenRead(part, b.value, data, offset + 1);
        }
      case (Many(width, item), Items(xs)) =>
        CatAt(data, offset, Be(|xs|, width), WriteItems(item, xs));
        BeReads(data, offset, |xs|, width);
        ItemsWrittenRead(item, xs, data, offset + width);
      case _ =>
    }
  }

  lemma {:induction false} ItemsWrittenRead(item: seq<Shape>, xs: seq<seq<Value>>, data: seq<byte>, offset: nat)
    requires WriteItems(item, xs).Wrote? && At(data, offset, WriteItems(item, xs).bytes)
    ensures ReadItems(item, data, offset, |xs|) == Got(xs, offset + |WriteItems(item, xs).bytes|)
    decreases item, 1, |xs|
  {
    if xs != [] {
      CatAt(data, offset, WriteAll(item, xs[0]), WriteItems(item, xs[1..]));
      AllWrittenRead(item, xs[0], data, offset);
      ItemsWrittenRead(item, xs[1..], data, offset + |WriteAll(item, xs[0]).bytes|);
      assert xs == [xs[0]] + xs[1..];
    }
  }

  lemma {:induction false} AllWrittenRead(shapes: seq<Shape>, vs: seq<Value>, data: seq<byte>, offset: nat)
    requires WriteAll(shapes, vs).Wrote? && At(data, offset, WriteAll(shapes, vs).bytes)
    ensures ReadAll(shapes, data, offset) == Got(vs, offset + |WriteAll(shapes, vs).bytes|)
    decreases shapes, 0, 0
  {
    if shapes != [] {
      CatAt(data, offset, WriteOne(shapes[0], vs[0]), WriteAll(shapes[1..], vs[1..]));
      OneWrittenReads(shapes[0], vs[0], data, offset);
      AllWrittenRead(shapes[1..], vs[1..], data, offset + |WriteOne(shapes[0], vs[0]).bytes|);
      assert vs == [vs[0]] + vs[1..];
    }
  }

  // ----- what was read writes the very bytes it was read from

  /** `w` is what stands between `offset` and `next`. */
  ghost predicate Stands(w: Written, data: seq<byte>, offset: nat, next: nat) {
    w.Wrote? && At(data, offset, w.bytes) && next == offset + |w.bytes|
  }

  lemma {:induction false} StandsCat(a: Written, b: Written, data: seq<byte>, offset: nat, mid: nat, next: nat)
    requires Stands(a, data, offset, mid) && Stands(b, data, mid, next)
    ensures Stands(Cat(a, b), data, offset, next)
  {
    CatAt(data, offset, a, b);
  }

  lemma {:induction false} TakenStands(data: seq<byte>, offset: nat, n: nat)
    requires TakeAt(data, offset, n).Got?
    ensures Stands(Wrote(TakeAt(data, offset, n).value), data, offset, offset + n)
  {
  }

  lemma {:induction false} BeAtWritten(data: seq<byte>, offset: nat, width: nat)
    requires BeAt(data, offset, width).Got?
    ensures Stands(Be(BeAt(data, offset, width).value, width), data, offset, offset + width)
  {
    TakenStands(data, offset, width);
    var b := TakeAt(data, offset, width).value;
    BeNatBound(b);
    BeWriteRead(b);
  }

  lemma {:induction false} NumStands(data: seq<byte>, offset: nat, width: nat, little: bool)
    requires NumAt(data, offset, width, little).Got?
    ensures Stands(Num(NumAt(data, offset, width, little).value, width, little), data, offset, offset + width)
  {
    if little {
      LeAtWritten(data, offset, width);
    } else {
      BeAtWritten(data, offset, width);
    }
  }

  lemma {:induction false} TextStands(data: seq<byte>, offset: nat, width: nat, little: bool)
    requires TextAt(data, offset, width, little).Got?
    ensures var r := TextAt(data, offset, width, little);
            Stands(WriteText(r.value, width, little), data, offset, r.next)
  {
    var n := NumAt(data, offset, width, little);
    NumStands(data, offset, width, little);
    TakenStands(data, n.next, n.value);
    var b := TextAt(data, offset, width, little);
    StandsCat(Num(n.value, width, little), Wrote(b.value), data, offset, n.next, b.next);
  }

  lemma {:induction false} FlagStands(data: seq<byte>, offset: nat)
    requires FlagAt(data, offset).Got?
    ensures Stands(Flag(FlagAt(data, offset).value), data, offset, offset + 1)
  {
    var f := TakeAt(data, offset, 1);
    TakenStands(data, offset, 1);
    assert f.value == [f.value[0]];
  }

  lemma {:induction false} OneReadWrites(shape: Shape, data: seq<byte>, offset: nat)
    requires ReadOne(shape, data, offset).Got? && offset <= |data|
    ensures var r := ReadOne(shape, data, offset); Stands(WriteOne(shape, r.value), data, offset, r.next)
    decreases shape, 0, 0
  {
    match shape {
      case Block(size) => TakenStands(data, offset, size);
      case Number(width, little) => NumStands(data, offset, width, little);
      case Text(width, little) => TextStands(data, offset, width, little);
      case Optional(part) =>
        var f := FlagAt(data, offset);
        FlagStands(data, offset);
        if f.value {
          AllReadWrite(part, data, f.next);
          var b := ReadAll(part, data, f.next);
          StandsCat(Flag(true), WriteAll(part, b.value), data, offset, f.next, b.next);
        } else {
          StandsCat(Flag(false), Wrote([]), data, offset, f.next, f.next);
        }
      case Many(width, item) =>
        var n := BeAt(data, offset, width);
        BeAtWritten(data, offset, width);
        ItemsReadWrite(item, data, n.next, n.value);
        var xs := ReadItems(item, data, n.next, n.value);
        StandsCat(Be(n.value, width), WriteItems(item, xs.value), data, offset, n.next, xs.next);
    }
  }

  lemma {:induction false} ItemsReadWrite(item: seq<Shape>, data: seq<byte>, offset: nat, count: nat)
    requires ReadItems(item, data, offset, count).Got? && offset <= |data|
    ensures var r := ReadItems(item, data, offset, count); Stands(WriteItems(item, r.value), data, offset, r.next)
    decreases item, 1, count
  {
    if count > 0 {
      var x, r := ReadAll(item, data, offset), ReadItems(item, data, offset, count);
      AllReadWrite(item, data, offset);
      ItemsReadWrite(item, data, x.next, count - 1);
      assert r.value[0] == x.value && r.value[1..] == ReadItems(item, data, x.next, count - 1).value;
      StandsCat(WriteAll(item, x.value), WriteItems(item, r.value[1..]), data, offset, x.next, r.next);
    }
  }

  lemma {:induction false} AllReadWrite(shapes: seq<Shape>, data: seq<byte>, offset: nat)
    requires ReadAll(shapes, data, offset).Got? && offset <= |data|
    ensures var r := ReadAll(shapes, data, offset); Stands(WriteAll(shapes, r.value), data, offset, r.next)
    decreases shapes, 0, 0
  {
    if shapes != [] {
      var v, r := ReadOne(shapes[0], data, offset), ReadAll(shapes, data, offset);
      OneReadWrites(shapes[0], data, offset);
      AllReadWrite(shapes[1..], data, v.next);
      assert r.value[0] == v.value && r.value[1..] == ReadAll(shapes[1..], data, v.next).value;
      StandsCat(WriteOne(shapes[0], v.value), WriteAll(shapes[1..], r.value[1..]), data, offset, v.next, r.next);
    }
  }

  // ----- what is read has the layout's types, all the way down

  ghost predicate Typed(shape: Shape, v: Value)
    decreases shape, 0, 0, v
  {
    match (shape, v)
    case (Block(size), Octets(b)) => |b| == size
    case (Number(width, _), Count(n)) => n < Pow256(width)
    case (Text(_, _), Octets(_)) => true
    case (Optional(part), Maybe(b)) => b.Some? ==> AllTyped(part, b.value)
    case (Many(_, item), Items(xs)) => ItemsTyped(item, xs)
    case _ => false
  }

  ghost predicate ItemsTyped(item: seq<Shape>, xs: seq<seq<Value>>)
    decreases item, 1, |xs|, xs
  {
    forall i :: 0 <= i < |xs| ==> AllTyped(item, xs[i])
  }

  ghost predicate AllTyped(shapes: seq<Shape>, vs: seq<Value>)
    decreases shapes, 0, 0, vs
  {
    |vs| == |shapes| && forall i :: 0 <= i < |shapes| ==> Typed(shapes[i], vs[i])
  }

  lemma {:induction false} NumBound(data: seq<byte>, offset: nat, width: nat, little: bool)
    requires NumAt(data, offset, width, little).Got?
    ensures NumAt(data, offset, width, little).value < Pow256(width)
  {
    var b := TakeAt(data, offset, width).value;
    LeNatBound(b);
    BeNatBound(b);
  }

  lemma {:induction false} OneTyped(shape: Shape, data: seq<byte>, offset: nat)
    requires ReadOne(shape, data, offset).Got?
    ensures Typed(shape, ReadOne(shape, data, offset).value)
    decreases shape, 0, 0
  {
    match shape {
      case Number(width, little) => NumBound(data, offset, width, little);
      case Optional(part) =>
        var f := FlagAt(data, offset);
        if f.value {
          ReadTyped(part, data, f.next);
        }
      case Many(width, item) =>
        var n := BeAt(data, offset, width);
        ReadItemsTyped(item, data, n.next, n.value);
      case _ =>
    }
  }

  lemma {:induction false} ReadItemsTyped(item: seq<Shape>, data: seq<byte>, offset: nat, count: nat)
    requires ReadItems(item, data, offset, count).Got?
    ensures ItemsTyped(item, ReadItems(item, data, offset, count).value)
    decreases item, 1, count
  {
    if count > 0 {
      var x := ReadAll(item, data, offset);
      ReadTyped(item, data, offset);
      ReadItemsTyped(item, data, x.next, count - 1);
      var xs := ReadItems(item, data, offset, count).value;
      forall i | 0 <= i < |xs| ensures AllTyped(item, xs[i]) {
        assert xs[i] == if i == 0 then x.value else ReadItems(item, data, x.next, count - 1).value[i - 1];
      }
    }
  }

  lemma {:induction false} ReadTyped(shapes: seq<Shape>, data: seq<byte>, offset: nat)
    requires ReadAll(shapes, data, offset).Got?
    ensures AllTyped(shapes, ReadAll(shapes, data, offset).value)
    decreases shapes, 0, 0
  {
    if shapes != [] {
      var v := ReadOne(shapes[0], data, offset);
      OneTyped(shapes[0], data, offset);
      ReadTyped(shapes[1..], data, v.next);
      var vs, rest := ReadAll(shapes, data, offset).value, ReadAll(shapes[1..], data, v.next).value;
      forall i | 0 <= i < |shapes| ensures Typed(shapes[i], vs[i]) {
        if i > 0 {
          assert shapes[i] == shapes[1..][i - 1] && vs[i] == rest[i - 1];
        }
      }
    }
  }

  // ----- whole documents

  /** A header, then the record, then nothing. */
  function WriteDocument(header: seq<byte>, shapes: seq<Shape>, vs: seq<Value>): Written {
    Cat(Wrote(header), WriteAll(shapes, vs))
  }

  function ReadRecord(header: seq<byte>, shapes: seq<Shape>, data: seq<byte>): (r: Parsed<seq<Value>>)
    ensures r.Got? ==> r.next == |data| && AllTyped(shapes, r.value)
  {
    var h := TakeAt(data, 0, |header|);
    if h.Bad? then Bad(h.error)
    else if h.value != header then Bad(UnsupportedVersion)
    else
      var r := ReadAll(shapes, data, h.next);
      if r.Bad? then r
      else
        ReadTyped(shapes, data, h.next);
        if r.next != |data| then Bad(Malformed) else r
  }

  /** For every layout, reading accepts exactly what writing produces. */
  lemma {:induction false} DocumentExact(header: seq<byte>, shapes: seq<Shape>, vs: seq<Value>, data: seq<byte>)
    ensures ReadRecord(header, shapes, data) == Got(vs, |data|) <==> WriteDocument(header, shapes, vs) == Wrote(data)
  {
    var w := WriteAll(shapes, vs);
    if WriteDocument(header, shapes, vs) == Wrote(data) {
      AtWhole(data);
      CatAt(data, 0, Wrote(header), w);
      TakeReads(data, 0, header);
      AllWrittenRead(shapes, vs, data, |header|);
    }
    if ReadRecord(header, shapes, data) == Got(vs, |data|) {
      TakenStands(data, 0, |header|);
      AllReadWrite(shapes, data, |header|);
      StandsCat(Wrote(header), w, data, 0, |header|, |data|);
      var whole := WriteDocument(header, shapes, vs).bytes;
      assert |whole| == |data| && forall i :: 0 <= i < |data| ==> whole[i] == data[0 + i];
    }
  }

  // ----- the cursor's way through a layout

  lemma {:induction false} ReadFrom(shapes: seq<Shape>, k: nat, data: seq<byte>, offset: nat)
    requires k < |shapes|
    ensures ReadAll(shapes[k..], data, offset) ==
            var v := ReadOne(shapes[k], data, offset);
            if v.Bad? then Bad(v.error) else Prepend([v.value], ReadAll(shapes[k + 1..], data, v.next))
  {
    assert shapes[k..][1..] == shapes[k + 1..];
  }

  lemma {:induction false} ReadNone(shapes: seq<Shape>, data: seq<byte>, offset: nat)
    ensures shapes[0..] == shapes && ReadAll(shapes[|shapes|..], data, offset) == Got([], offset)
  {
  }

  lemma {:induction false} ReadItem(item: seq<Shape>, data: seq<byte>, offset: nat, count: nat, done: seq<seq<Value>>)
    requires count > 0
    ensures Prepend(done, ReadItems(item, data, offset, count)) ==
            var x := ReadAll(item, data, offset);
            if x.Bad? then Bad(x.error) else Prepend(done + [x.value], ReadItems(item, data, x.next, count - 1))
  {
    var x := ReadAll(item, data, offset);
    if x.Got? {
      PrependOne(done, x.value, ReadItems(item, data, x.next, count - 1));
    }
  }

  /** The fields of a record, one after the other. */
  method TakeAll(d: Decoder, shapes: seq<Shape>) returns (r: Parsed<seq<Value>>)
    modifies d
    ensures r == ReadAll(shapes, d.data, old(d.offset))
    ensures r.Got? ==> d.offset == r.next
    decreases shapes, 0, 0
  {
    var vs: seq<Value> := [];
    PrependNone(ReadAll(shapes, d.data, d.offset));
    ReadNone(shapes, d.data, d.offset);
    for k := 0 to |shapes|
      invariant ReadAll(shapes, d.data, old(d.offset)) == Prepend(vs, ReadAll(shapes[k..], d.data, d.offset))
    {
      ReadFrom(shapes, k, d.data, d.offset);
      var v :- TakeOne(d, shapes[k]);
      PrependOne(vs, v, ReadAll(shapes[k + 1..], d.data, d.offset));
      vs := vs + [v];
    }
    ReadNone(shapes, d.data, d.offset);
    assert vs + [] == vs;
    r := Got(vs, d.offset);
  }

  /** The list loops of the decoders. */
  method TakeItems(d: Decoder, item: seq<Shape>, count: nat) returns (r: Parsed<seq<seq<Value>>>)
    modifies d
    ensures r == ReadItems(item, d.data, old(d.offset), count)
    ensures r.Got? ==> d.offset == r.next
    decreases item, 1, count
  {
    var xs: seq<seq<Value>> := [];
    PrependNone(ReadItems(item, d.data, d.offset, count));
    for i := 0 to count
      invariant ReadItems(item, d.data, old(d.offset), count) == Prepend(xs, ReadItems(item, d.data, d.offset, count - i))
    {
      ReadItem(item, d.data, d.offset, count - i, xs);
      var x :- TakeAll(d, item);
      xs := xs + [x];
    }
    assert xs + [] == xs;
    r := Got(xs, d.offset);
  }

  method TakeOne(d: Decoder, shape: Shape) returns (r: Parsed<Value>)
    modifies d
    ensures r == ReadOne(shape, d.data, old(d.offset))
    ensures r.Got? ==> d.offset == r.next
    decreases shape, 0, 0
  {
    match shape
    case Block(size) =>
      var b :- d.ReadBytes(size);
      r := Got(Octets(b), d.offset);
    case Number(width, little) =>
      var n :- TakeNumber(d, width, little);
      r := Got(Count(n), d.offset);
    case Text(width, little) =>
      var n :- TakeNumber(d, width, little);
      var b :- d.ReadBytes(n);
      r := Got(Octets(b), d.offset);
    case Optional(part) =>
      var f :- d.ReadBytes(1);
      if f[0] > 1 {
        return Bad(UnsupportedVersion);
      }
      if f[0] == 0 {
        return Got(Maybe(None), d.offset);
      }
      var vs :- TakeAll(d, part);
      r := Got(Maybe(Some(vs)), d.offset);
    case Many(width, item) =>
      var n :- d.ReadBe(width);
      var xs :- TakeItems(d, item, n);
      r := Got(Items(xs), d.offset);
  }

  method TakeNumber(d: Decoder, width: nat, little: bool) returns (r: Parsed<nat>)
    modifies d
    ensures r == NumAt(d.data, old(d.offset), width, little)
    ensures r.Got? ==> d.offset == r.next
  {
    if little {
      r := d.ReadLe(width);
    } else {
      r := d.ReadBe(width);
    }
  }

  method TakeRecord(header: seq<byte>, shapes: seq<Shape>, data: seq<byte>) returns (r: Parsed<seq<Value>>)
    ensures r == ReadRecord(header, shapes, data)
  {
    var d := new Decoder(data);
    var h :- d.ReadBytes(|header|);
    if h != header {
      return Bad(UnsupportedVersion);
    }
    r := TakeAll(d, shapes);
    if r.Got? && d.offset != |data| {
      r := Bad(Malformed);
    }
  }
}
