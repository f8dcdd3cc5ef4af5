// Where each field stands in the bytes: positions, widths and kind codes, whatever reads them.

module CodecLayout {
  import opened Wrappers
  import opened Model
  import opened Attributes
  import opened Programs
  import opened Codec
  import DeltaCodec
  import ProgramCodec
  import SnapshotCodec
  import FactCodec

  // The number in some bytes, most significant first.
  function At(b: Bytes, from: nat, width: nat): nat
    requires from + width <= |b|
  {
    ValueOf(b[from..from + width])
  }

  // The text that starts there: its length in eight bytes, then a byte for each character.
  ghost predicate TextAt(b: Bytes, from: nat, s: string) {
    && from + 8 + |s| <= |b| && At(b, from, 8) == |s|
    && forall i :: 0 <= i < |s| ==> b[from + 8 + i] == s[i] as int
  }

  lemma AtHead(width: nat, v: nat, rest: Bytes)
    requires v < Size(width)
    ensures At(Number(width, v) + rest, 0, width) == v
  {
    NumberBack(width, v);
    assert (Number(width, v) + rest)[0..width] == Number(width, v);
  }

  lemma AtTail(head: Bytes, rest: Bytes, from: nat, width: nat)
    requires from + width <= |rest|
    ensures At(head + rest, |head| + from, width) == At(rest, from, width)
  {
    assert (head + rest)[|head| + from..|head| + from + width] == rest[from..from + width];
  }

  lemma TextHead(s: string, rest: Bytes)
    requires ByteText(s)
    ensures TextAt(Text(s) + rest, 0, s)
  {
    hide Number, Size;
    AtHead(8, |s|, Codes(s) + rest);
    assert Text(s) + rest == Number(8, |s|) + (Codes(s) + rest);
  }

  lemma TextTail(head: Bytes, rest: Bytes, from: nat, s: string)
    requires TextAt(rest, from, s)
    ensures TextAt(head + rest, |head| + from, s)
  {
    AtTail(head, rest, from, 8);
  }

  // ---- values

  // A kind byte, and then the payload.
  lemma ValueLayout(v: Value)
    requires ValueFits(v)
    ensures var b := WrittenValue(v);
            match v
            case Null => b == [0]
            case Bool(x) => b == [1, if x then 1 else 0]
            case Int64(i) =>
              |b| == 9 && At(b, 0, 1) == 2 && At(b, 1, 8) == if i >= 0 then i else 0x1_0000_0000_0000_0000 + i
            case UInt64(u) => |b| == 9 && At(b, 0, 1) == 3 && At(b, 1, 8) == u
            case Float64(d) => |b| == 9 && At(b, 0, 1) == 4 && At(b, 1, 8) == d
            case String(s) => |b| == 9 + |s| && At(b, 0, 1) == 5 && TextAt(b, 1, s)
            case Hash(h) => |b| == 33 && At(b, 0, 1) == 6 && At(b, 1, 32) == h
            case ObjectValue(id) =>
              |b| == 9 && At(b, 0, 1) == 7 && At(b, 1, 4) == id.index && At(b, 5, 4) == id.generation
  {
    hide Number, ValueOf;
    SizeOne();
    AtHead(1, Kind(v), ValueBody(v));
    match v
    case Null => OneByte(0);
    case Bool(x) =>
      OneByte(1);
      OneByte(if x then 1 else 0);
    case Int64(i) => NumberField(Number(1, 2), 8, Unsigned(i));
    case UInt64(u) => NumberField(Number(1, 3), 8, u);
    case Float64(d) => NumberField(Number(1, 4), 8, d);
    case String(s) =>
      TextHead(s, []);
      assert Text(s) + [] == Text(s);
      TextTail(Number(1, 5), Text(s), 0, s);
    case Hash(h) => NumberField(Number(1, 6), HASH_BYTES, h);
    case ObjectValue(id) =>
      assert WrittenValue(v) == Number(1, 7) + (Number(4, id.index) + Number(4, id.generation));
      IdAt(Number(1, 7), id, []);
      assert WrittenId(id) + [] == WrittenId(id);
  }

  lemma SizeOne()
    ensures Size(1) == 256 && Size(4) == 0x1_0000_0000 && Size(8) == 0x1_0000_0000_0000_0000
  {
  }

  lemma OneByte(v: nat)
    requires v < 256
    ensures Number(1, v) == [v]
  {
    assert Number(0, v / 256) == [];
  }

  lemma NumberField(head: Bytes, width: nat, v: nat)
    requires v < Size(width)
    ensures At(head + Number(width, v), |head|, width) == v
  {
    AtHead(width, v, []);
    assert Number(width, v) + [] == Number(width, v);
    AtTail(head, Number(width, v), 0, width);
  }

  lemma FieldAt(head: Bytes, width: nat, v: nat, rest: Bytes)
    requires v < Size(width)
    ensures At(head + (Number(width, v) + rest), |head|, width) == v
  {
    AtHead(width, v, rest);
    AtTail(head, Number(width, v) + rest, 0, width);
  }

  lemma IdAt(head: Bytes, id: ObjectId, rest: Bytes)
    requires IdFits(id)
    ensures var b := head + (WrittenId(id) + rest);
            At(b, |head|, 4) == id.index && At(b, |head| + 4, 4) == id.generation
  {
    hide Number, Size, ValueOf;
    var b := head + (WrittenId(id) + rest);
    assert b == head + (Number(4, id.index) + (Number(4, id.generation) + rest));
    FieldAt(head, 4, id.index, Number(4, id.generation) + rest);
    assert b == (head + Number(4, id.index)) + (Number(4, id.generation) + rest);
    FieldAt(head + Number(4, id.index), 4, id.generation, rest);
  }

  // ---- codes, in the order of declaration

  lemma DeclaredCodes()
    ensures forall k :: 0 <= k < 4 ==> ExistenceCode([Alive, Dormant, Collapsed, Tombstoned][k]) == k
    ensures forall k :: 0 <= k < 7 ==>
              RoleCode([Structural, Observational, Generative, Inhibitory, Transformative, Ancestral, Symbolic][k]) == k
    ensures forall k :: 0 <= k < 14 ==>
              ProgramCodec.OpcodeByte([TypeIn, RelationIn, ObjectNew, ObjectType, ObjectExistence, ObjectSet,
              ObjectDrop, PointerNew, PointerWeight, PointerSet, PointerDrop, PointerExpire, CheckObject,
              CheckPointer][k]) == k
  {
    forall k | 0 <= k < 14
      ensures ProgramCodec.OpcodeByte([TypeIn, RelationIn, ObjectNew, ObjectType, ObjectExistence, ObjectSet,
              ObjectDrop, PointerNew, PointerWeight, PointerSet, PointerDrop, PointerExpire, CheckObject,
              CheckPointer][k]) == k
    {
      if k < 7 {
      } else {
      }
    }
  }

  // ---- objects

  // Index, generation, name, type, state, number of attributes; at the end the two counts.
  lemma ObjectLayout(o: Object)
    requires ObjectFits(o)
    ensures var b, n := WrittenObject(o), 16 + |o.name|;
            && |b| >= n + 29
            && At(b, 0, 4) == o.id.index && At(b, 4, 4) == o.id.generation && TextAt(b, 8, o.name)
            && At(b, n, 4) == o.typ && At(b, n + 4, 1) == ExistenceCode(o.existence)
            && At(b, n + 5, 8) == |o.attributes|
            && At(b, |b| - 16, 8) == o.incoming && At(b, |b| - 8, 8) == o.outgoing
  {
    hide Number, Text, ValueOf, TextAt, Listed, At, AttributeFits, ByteText;
    SizeOne();
    hide Size;
    var counts := Number(8, o.incoming) + Number(8, o.outgoing);
    var list := Listed(WrittenAttribute, o.attributes);
    var state := Number(1, ExistenceCode(o.existence)) + (Number(8, |o.attributes|) + (list + counts));
    var tail := Number(4, o.typ) + state;
    var id, name, b := WrittenId(o.id), Text(o.name), WrittenObject(o);
    assert |id| == 8 && |name| == 8 + |o.name| by {
      TextLength(o.name);
    }
    assert ObjectTail(o) == tail by {
      assert Counted(WrittenAttribute, o.attributes) + counts == Number(8, |o.attributes|) + (list + counts);
    }
    assert b == id + (name + tail);
    IdAt([], o.id, name + tail);
    assert [] + (id + (name + tail)) == b;
    TextHead(o.name, tail);
    TextTail(id, name + tail, 0, o.name);
    assert b == (id + name) + tail;
    FieldAt(id + name, 4, o.typ, state);
    assert b == (id + name + Number(4, o.typ)) + state;
    FieldAt(id + name + Number(4, o.typ), 1, ExistenceCode(o.existence), Number(8, |o.attributes|) + (list + counts));
    var front := id + name + Number(4, o.typ) + Number(1, ExistenceCode(o.existence));
    assert b == front + (Number(8, |o.attributes|) + (list + counts));
    FieldAt(front, 8, |o.attributes|, list + counts);
    var before := front + Number(8, |o.attributes|) + list;
    assert b == before + (Number(8, o.incoming) + Number(8, o.outgoing));
    FieldAt(before, 8, o.incoming, Number(8, o.outgoing));
    assert b == (before + Number(8, o.incoming)) + Number(8, o.outgoing);
    NumberField(before + Number(8, o.incoming), 8, o.outgoing);
  }

  lemma TextLength(s: string)
    ensures |Text(s)| == 8 + |s|
  {
  }

  // ---- pointers

  // Id, the two ends, relation, role, weight, birth, expiry, law domain, attributes.
  lemma PointerLayout(p: Pointer)
    requires PointerFits(p)
    ensures var b := WrittenPointer(p);
            && |b| >= 46
            && At(b, 0, 8) == p.id
            && At(b, 8, 4) == p.from.index && At(b, 12, 4) == p.from.generation
            && At(b, 16, 4) == p.to.index && At(b, 20, 4) == p.to.generation
            && At(b, 24, 4) == p.relation && At(b, 28, 1) == RoleCode(p.role)
            && At(b, 29, 8) == p.weight && At(b, 37, 8) == p.bornAt
            && At(b, 45, 1) == (if p.expiresAt.Some? then 1 else 0)
    ensures var b, n := WrittenPointer(p), if p.expiresAt.Some? then 54 else 46;
            && |b| >= n + 16 + |p.lawDomain|
            && (p.expiresAt.Some? ==> At(b, 46, 8) == p.expiresAt.value)
            && TextAt(b, n, p.lawDomain) && At(b, n + 8 + |p.lawDomain|, 8) == |p.attributes|
  {
    hide PointerHead, PointerTail, At, TextAt, PointerFits, RoleCode;
    HeadLayout(p, PointerTail(p));
    TailLayout(p, PointerHead(p));
  }

  lemma HeadLayout(p: Pointer, rest: Bytes)
    requires PointerFits(p)
    ensures |PointerHead(p)| == 29
    ensures var b := PointerHead(p) + rest;
            && At(b, 0, 8) == p.id
            && At(b, 8, 4) == p.from.index && At(b, 12, 4) == p.from.generation
            && At(b, 16, 4) == p.to.index && At(b, 20, 4) == p.to.generation
            && At(b, 24, 4) == p.relation && At(b, 28, 1) == RoleCode(p.role)
  {
    hide Number, ValueOf, At, AttributesFit, ByteText, WrittenId;
    SizeOne();
    hide Size;
    IdLength(p.from);
    IdLength(p.to);
    var from, to, id := WrittenId(p.from), WrittenId(p.to), Number(8, p.id);
    var rest2 := Number(1, RoleCode(p.role)) + rest;
    var rest1 := Number(4, p.relation) + rest2;
    var b := PointerHead(p) + rest;
    assert b == id + (from + (to + rest1));
    assert [] + (id + (from + (to + rest1))) == b;
    FieldAt([], 8, p.id, from + (to + rest1));
    IdAt(id, p.from, to + rest1);
    assert b == (id + from) + (to + rest1);
    IdAt(id + from, p.to, rest1);
    assert b == (id + from + to) + rest1;
    FieldAt(id + from + to, 4, p.relation, rest2);
    assert b == (id + from + to + Number(4, p.relation)) + rest2;
    FieldAt(id + from + to + Number(4, p.relation), 1, RoleCode(p.role), rest);
  }

  lemma TailLayout(p: Pointer, head: Bytes)
    requires PointerFits(p) && |head| == 29
    ensures var b, n := head + PointerTail(p), if p.expiresAt.Some? then 54 else 46;
            && |b| >= n + 16 + |p.lawDomain|
            && At(b, 29, 8) == p.weight && At(b, 37, 8) == p.bornAt
            && At(b, 45, 1) == (if p.expiresAt.Some? then 1 else 0)
            && (p.expiresAt.Some? ==> At(b, 46, 8) == p.expiresAt.value)
            && TextAt(b, n, p.lawDomain) && At(b, n + 8 + |p.lawDomain|, 8) == |p.attributes|
  {
    hide Number, Text, ValueOf, TextAt, Listed, At, AttributeFits, ByteText, WrittenExpiry;
    SizeOne();
    hide Size;
    TextLength(p.lawDomain);
    var list := Number(8, |p.attributes|) + Listed(WrittenAttribute, p.attributes);
    var rest2 := WrittenExpiry(p.expiresAt) + (Text(p.lawDomain) + list);
    var rest1 := Number(8, p.bornAt) + rest2;
    var b := head + PointerTail(p);
    assert b == head + (Number(8, p.weight) + rest1);
    FieldAt(head, 8, p.weight, rest1);
    var h1 := head + Number(8, p.weight);
    assert b == h1 + rest1;
    FieldAt(h1, 8, p.bornAt, rest2);
    var h2 := h1 + Number(8, p.bornAt);
    assert b == h2 + rest2;
    ExpiryAt(h2, p.expiresAt, Text(p.lawDomain) + list);
    var h3 := h2 + WrittenExpiry(p.expiresAt);
    assert b == h3 + (Text(p.lawDomain) + list);
    TextHead(p.lawDomain, list);
    TextTail(h3, Text(p.lawDomain) + list, 0, p.lawDomain);
    assert b == (h3 + Text(p.lawDomain)) + list;
    FieldAt(h3 + Text(p.lawDomain), 8, |p.attributes|, Listed(WrittenAttribute, p.attributes));
  }

  lemma IdLength(id: ObjectId)
    ensures |WrittenId(id)| == 8
  {
  }

  lemma ExpiryAt(head: Bytes, e: Option<nat>, rest: Bytes)
    requires e.Some? ==> e.value < Size(8)
    ensures |WrittenExpiry(e)| == if e.Some? then 9 else 1
    ensures var b := head + (WrittenExpiry(e) + rest);
            && At(b, |head|, 1) == (if e.Some? then 1 else 0)
            && (e.Some? ==> At(b, |head| + 1, 8) == e.value)
  {
    hide Number, ValueOf;
    SizeOne();
    match e
    case None => FieldAt(head, 1, 0, rest);
    case Some(at) =>
      assert WrittenExpiry(e) + rest == Number(1, 1) + (Number(8, at) + rest);
      FieldAt(head, 1, 1, Number(8, at) + rest);
      assert head + (WrittenExpiry(e) + rest) == (head + Number(1, 1)) + (Number(8, at) + rest);
      FieldAt(head + Number(1, 1), 8, at, rest);
  }

  // ---- operations

  // The kinds of operation in the order of declaration.
  predicate IsKind(op: Op, kind: nat) {
    match kind
    case 0 => op.CreateObject? case 1 => op.SetObjectType? case 2 => op.SetObjectExistence?
    case 3 => op.SetObjectAttribute? case 4 => op.RemoveObjectAttribute? case 5 => op.CreatePointer?
    case 6 => op.ExpirePointer? case 7 => op.SetPointerWeight? case 8 => op.SetPointerAttribute?
    case 9 => op.RemovePointerAttribute? case 10 => op.EmitEvent? case 11 => op.InternType?
    case 12 => op.InternRelation? case 13 => op.AssertObject? case 14 => op.AssertPointer? case 15 => op.AssertFact?
    case _ => false
  }

  // A reference that starts there: a tag, then the object id or the temp id.
  ghost predicate RefAt(b: Bytes, from: nat, r: Ref) {
    match r
    case ById(id) =>
      from + 9 <= |b| && At(b, from, 1) == 0 && At(b, from + 1, 4) == id.index && At(b, from + 5, 4) == id.generation
    case ByTemp(temp) => from + 5 <= |b| && At(b, from, 1) == 1 && At(b, from + 1, 4) == temp
  }

  lemma RefHead(head: Bytes, r: Ref, rest: Bytes)
    requires DeltaCodec.RefFits(r)
    ensures RefAt(head + (DeltaCodec.WrittenRef(r) + rest), |head|, r)
    ensures |DeltaCodec.WrittenRef(r)| == if r.ById? then 9 else 5
  {
    hide Number, ValueOf;
    SizeOne();
    var b := head + (DeltaCodec.WrittenRef(r) + rest);
    match r
    case ById(id) =>
      assert b == head + (Number(1, 0) + (WrittenId(id) + rest));
      FieldAt(head, 1, 0, WrittenId(id) + rest);
      assert b == (head + Number(1, 0)) + (WrittenId(id) + rest);
      IdAt(head + Number(1, 0), id, rest);
    case ByTemp(temp) =>
      assert b == head + (Number(1, 1) + (Number(4, temp) + rest));
      FieldAt(head, 1, 1, Number(4, temp) + rest);
      assert b == (head + Number(1, 1)) + (Number(4, temp) + rest);
      FieldAt(head + Number(1, 1), 4, temp, rest);
  }

  // The id of the operation, its kind, and for a link its two ends, relation, role and weight.
  lemma OperationLayout(c: DeltaCodec.Contents, o: DeltaCodec.Operation)
    requires o.id < Size(8) && DeltaCodec.OpFits(c, o.op)
    ensures var b := DeltaCodec.WrittenOperation(c, o);
            && |b| >= 9 && At(b, 0, 8) == o.id && IsKind(o.op, At(b, 8, 1))
            && (o.op.CreatePointer? ==>
                  var m := 9 + if o.op.from.ById? then 9 else 5;
                  var n := m + if o.op.to.ById? then 9 else 5;
                  && RefAt(b, 9, o.op.from) && RefAt(b, m, o.op.to) && |b| >= n + 13
                  && At(b, n, 4) == o.op.relation && At(b, n + 4, 1) == RoleCode(o.op.role)
                  && At(b, n + 5, 8) == o.op.weight)
  {
    hide Number, Text, ValueOf, Counted, Sorted, At, RefAt, ByteText, AttributesFit, DeltaCodec.WrittenRef,
         DeltaCodec.RefFits;
    SizeOne();
    hide Size;
    var op, b := o.op, DeltaCodec.WrittenOperation(c, o);
    var kind, body := DeltaCodec.KindCode(op), DeltaCodec.WrittenBody(c, op);
    assert IsKind(op, kind) && kind < 16;
    assert [] + (Number(8, o.id) + (Number(1, kind) + body)) == b;
    FieldAt([], 8, o.id, Number(1, kind) + body);
    assert b == Number(8, o.id) + (Number(1, kind) + body);
    FieldAt(Number(8, o.id), 1, kind, body);
    if op.CreatePointer? {
      var head := Number(8, o.id) + Number(1, kind);
      assert b == head + body;
      LinkLayout(head, op);
    }
  }

  lemma LinkLayout(head: Bytes, op: Op)
    requires op.CreatePointer? && DeltaCodec.RefFits(op.from) && DeltaCodec.RefFits(op.to)
    requires op.relation < Size(4) && op.weight < Size(8)
    ensures var b := head + DeltaCodec.WrittenLink(op.from, op.to, op.relation, op.role, op.weight, op.lawDomain,
                                                   Sorted(op.attributes));
            var m := |head| + if op.from.ById? then 9 else 5;
            var n := m + if op.to.ById? then 9 else 5;
            && RefAt(b, |head|, op.from) && RefAt(b, m, op.to) && |b| >= n + 13
            && At(b, n, 4) == op.relation && At(b, n + 4, 1) == RoleCode(op.role) && At(b, n + 5, 8) == op.weight
  {
    hide Number, Text, ValueOf, Counted, Sorted, At, RefAt, DeltaCodec.WrittenRef, DeltaCodec.RefFits;
    SizeOne();
    hide Size;
    var rest3 := Text(op.lawDomain) + Counted(WrittenAttribute, Sorted(op.attributes));
    var rest2 := Number(8, op.weight) + rest3;
    var rest1 := Number(1, RoleCode(op.role)) + rest2;
    var rest := Number(4, op.relation) + rest1;
    var from, to := DeltaCodec.WrittenRef(op.from), DeltaCodec.WrittenRef(op.to);
    var b := head + (from + (to + rest));
    RefHead(head, op.from, to + rest);
    assert b == (head + from) + (to + rest);
    RefHead(head + from, op.to, rest);
    var h := head + from + to;
    assert b == h + rest;
    FieldAt(h, 4, op.relation, rest1);
    assert b == (h + Number(4, op.relation)) + rest1;
    FieldAt(h + Number(4, op.relation), 1, RoleCode(op.role), rest2);
    var h' := h + Number(4, op.relation) + Number(1, RoleCode(op.role));
    assert b == h' + rest2;
    FieldAt(h', 8, op.weight, rest3);
  }

  // What follows the kind: the target, or the pointer, or the name, and then the new content.
  ghost predicate BodyAt(b: Bytes, from: nat, op: Op) {
    match op
    case CreateObject(temp, name, typ, existence, attributes) =>
      var n := from + 12 + |name|;
      && |b| >= n + 13 && At(b, from, 4) == temp && TextAt(b, from + 4, name) && At(b, n, 4) == typ
      && At(b, n + 4, 1) == ExistenceCode(existence)
    case SetObjectType(target, typ) =>
      RefAt(b, from, target) && |b| >= 4 && At(b, |b| - 4, 4) == typ && |b| == from + RefSize(target) + 4
    case SetObjectExistence(target, existence) =>
      && RefAt(b, from, target) && |b| == from + RefSize(target) + 1
      && At(b, |b| - 1, 1) == ExistenceCode(existence)
    case SetObjectAttribute(target, a) => RefAt(b, from, target) && TextAt(b, from + RefSize(target), a.key)
    case RemoveObjectAttribute(target, key) => RefAt(b, from, target) && TextAt(b, from + RefSize(target), key)
    case AssertObject(target) => RefAt(b, from, target) && |b| == from + RefSize(target)
    case ExpirePointer(pointer) => |b| == from + 8 && At(b, from, 8) == pointer
    case SetPointerWeight(pointer, weight) =>
      |b| == from + 16 && At(b, from, 8) == pointer && At(b, from + 8, 8) == weight
    case SetPointerAttribute(pointer, a) =>
      |b| >= from + 8 && At(b, from, 8) == pointer && TextAt(b, from + 8, a.key)
    case RemovePointerAttribute(pointer, key) =>
      |b| >= from + 8 && At(b, from, 8) == pointer && TextAt(b, from + 8, key)
    case AssertPointer(pointer) => |b| == from + 8 && At(b, from, 8) == pointer
    case InternType(name, symbol) =>
      |b| == from + 12 + |name| && TextAt(b, from, name) && At(b, |b| - 4, 4) == symbol
    case InternRelation(name, symbol) =>
      |b| == from + 12 + |name| && TextAt(b, from, name) && At(b, |b| - 4, 4) == symbol
    case _ => true
  }

  function RefSize(r: Ref): nat {
    if r.ById? then 9 else 5
  }

  lemma TextField(head: Bytes, s: string, rest: Bytes)
    requires ByteText(s)
    ensures TextAt(head + (Text(s) + rest), |head|, s) && |Text(s)| == 8 + |s|
  {
    TextHead(s, rest);
    TextTail(head, Text(s) + rest, 0, s);
  }

  lemma ObjectBodyLayout(c: DeltaCodec.Contents, head: Bytes, op: Op)
    requires op.SetObjectType? || op.SetObjectExistence? || op.SetObjectAttribute? || op.RemoveObjectAttribute? ||
             op.AssertObject?
    requires DeltaCodec.OpFits(c, op)
    ensures BodyAt(head + DeltaCodec.WrittenBody(c, op), |head|, op)
  {
    hide Number, Text, ValueOf, At, RefAt, TextAt, ByteText, WrittenValue, DeltaCodec.WrittenRef, DeltaCodec.RefFits;
    SizeOne();
    hide Size;
    var ref := DeltaCodec.WrittenRef(op.target);
    var rest := DeltaCodec.WrittenBody(c, op)[|ref|..];
    assert DeltaCodec.WrittenBody(c, op) == ref + rest;
    RefHead(head, op.target, rest);
    assert head + (ref + rest) == (head + ref) + rest;
    match op
    case SetObjectType(_, typ) => NumberField(head + ref, 4, typ);
    case SetObjectExistence(_, existence) => NumberField(head + ref, 1, ExistenceCode(existence));
    case SetObjectAttribute(_, a) => TextField(head + ref, a.key, WrittenValue(a.value));
    case RemoveObjectAttribute(_, key) =>
      TextField(head + ref, key, []);
      assert Text(key) + [] == Text(key);
    case AssertObject(_) =>
  }

  lemma PointerBodyLayout(c: DeltaCodec.Contents, head: Bytes, op: Op)
    requires op.ExpirePointer? || op.SetPointerWeight? || op.SetPointerAttribute? || op.RemovePointerAttribute? ||
             op.AssertPointer?
    requires DeltaCodec.OpFits(c, op)
    ensures BodyAt(head + DeltaCodec.WrittenBody(c, op), |head|, op)
  {
    hide Number, Text, ValueOf, At, TextAt, ByteText, WrittenValue, Size;
    var id := Number(8, op.pointer);
    var rest := DeltaCodec.WrittenBody(c, op)[|id|..];
    assert DeltaCodec.WrittenBody(c, op) == id + rest;
    FieldAt(head, 8, op.pointer, rest);
    assert head + (id + rest) == (head + id) + rest;
    match op
    case SetPointerWeight(_, weight) => NumberField(head + id, 8, weight);
    case SetPointerAttribute(_, a) => TextField(head + id, a.key, WrittenValue(a.value));
    case RemovePointerAttribute(_, key) =>
      TextField(head + id, key, []);
      assert Text(key) + [] == Text(key);
    case _ =>
  }

  lemma InternBodyLayout(c: DeltaCodec.Contents, head: Bytes, op: Op)
    requires op.InternType? || op.InternRelation?
    requires DeltaCodec.OpFits(c, op)
    ensures BodyAt(head + DeltaCodec.WrittenBody(c, op), |head|, op)
  {
    hide Number, Text, ValueOf, At, TextAt, ByteText, Size;
    TextField(head, op.name, Number(4, op.symbol));
    assert head + (Text(op.name) + Number(4, op.symbol)) == (head + Text(op.name)) + Number(4, op.symbol);
    NumberField(head + Text(op.name), 4, op.symbol);
  }

  lemma CreateBodyLayout(c: DeltaCodec.Contents, head: Bytes, op: Op)
    requires op.CreateObject? && DeltaCodec.OpFits(c, op)
    ensures BodyAt(head + DeltaCodec.WrittenBody(c, op), |head|, op)
  {
    hide Number, Text, ValueOf, At, TextAt, ByteText, Listed, AttributesFit, Sorted;
    SizeOne();
    hide Size;
    var list := Counted(WrittenAttribute, Sorted(op.attributes));
    var rest2 := Number(1, ExistenceCode(op.existence)) + list;
    var rest1 := Number(4, op.typ) + rest2;
    var rest := Text(op.name) + rest1;
    var b := head + DeltaCodec.WrittenBody(c, op);
    assert b == head + (Number(4, op.temp) + rest);
    FieldAt(head, 4, op.temp, rest);
    var h1 := head + Number(4, op.temp);
    assert b == h1 + rest;
    TextField(h1, op.name, rest1);
    var h2 := h1 + Text(op.name);
    assert b == h2 + rest1;
    FieldAt(h2, 4, op.typ, rest2);
    assert b == (h2 + Number(4, op.typ)) + rest2;
    FieldAt(h2 + Number(4, op.typ), 1, ExistenceCode(op.existence), list);
  }

  // The body of every kind but events and facts, whose bytes are given.
  lemma BodyLayout(c: DeltaCodec.Contents, o: DeltaCodec.Operation)
    requires DeltaCodec.OpFits(c, o.op)
    ensures BodyAt(DeltaCodec.WrittenOperation(c, o), 9, o.op)
  {
    hide DeltaCodec.WrittenBody, DeltaCodec.OpFits, BodyAt, Number, DeltaCodec.KindCode;
    var op := o.op;
    var head := Number(8, o.id) + Number(1, DeltaCodec.KindCode(op));
    assert DeltaCodec.WrittenOperation(c, o) == head + DeltaCodec.WrittenBody(c, op);
    if op.CreateObject? {
      CreateBodyLayout(c, head, op);
    } else if op.InternType? || op.InternRelation? {
      InternBodyLayout(c, head, op);
    } else if op.ExpirePointer? || op.SetPointerWeight? || op.SetPointerAttribute? || op.RemovePointerAttribute? ||
      op.AssertPointer? {
      PointerBodyLayout(c, head, op);
    } else if op.CreatePointer? || op.EmitEvent? || op.AssertFact? {
      OtherBody(head + DeltaCodec.WrittenBody(c, op), op);
    } else {
      ObjectBodyLayout(c, head, op);
    }
  }

  lemma OtherBody(b: Bytes, op: Op)
    requires op.CreatePointer? || op.EmitEvent? || op.AssertFact?
    ensures BodyAt(b, 9, op)
  {
  }

  // ---- snapshots and instructions

  // The tag, the world, its name and the epoch stand first.
  lemma SnapshotLayout(h: FactCodec.Hasher, s: Snapshot)
    requires s.world < Size(8) && ByteText(s.worldName) && s.epoch < Size(8)
    ensures var b, n := SnapshotCodec.Written(h, s), 40 + |s.worldName|;
            && TextAt(b, 0, "WorldSnapshot:v2") && |b| >= n + 8 && At(b, 24, 8) == s.world
            && TextAt(b, 32, s.worldName) && At(b, n, 8) == s.epoch
  {
    SnapshotTag();
    hide Number, Text, ValueOf, At, TextAt, ByteText, Size, SnapshotCodec.Body, FactCodec.Records, Counted;
    var b := SnapshotCodec.Written(h, s);
    var tag := Text("WorldSnapshot:v2");
    var rest2 := SnapshotCodec.Body(s) + Counted(FactCodec.WrittenRecord, FactCodec.Records(h, s));
    var rest1 := Text(s.worldName) + (Number(8, s.epoch) + rest2);
    assert b == [] + (tag + (Number(8, s.world) + rest1));
    TextField([], "WorldSnapshot:v2", Number(8, s.world) + rest1);
    assert b == tag + (Number(8, s.world) + rest1);
    FieldAt(tag, 8, s.world, rest1);
    var head := tag + Number(8, s.world);
    assert b == head + rest1;
    TextField(head, s.worldName, Number(8, s.epoch) + rest2);
    assert b == (head + Text(s.worldName)) + (Number(8, s.epoch) + rest2);
    FieldAt(head + Text(s.worldName), 8, s.epoch, rest2);
  }

  lemma SnapshotTag()
    ensures ByteText("WorldSnapshot:v2") && |Text("WorldSnapshot:v2")| == 24
  {
    ByteTag("WorldSnapshot:v2");
  }

  lemma ByteTag(tag: string)
    requires |tag| < 256 && forall i :: 0 <= i < |tag| ==> tag[i] as int < 256
    ensures ByteText(tag) && |Text(tag)| == 8 + |tag|
  {
    SizeOne();
  }

  // The tag, the opcode and the number of operands.
  lemma InstructionLayout(c: ProgramCodec.Operands, i: Instruction)
    requires ProgramCodec.InstructionFits(c, i)
    ensures var b := ProgramCodec.WrittenInstruction(c, i);
            && TextAt(b, 0, "Instruction:v1") && |b| >= 31
            && At(b, 22, 1) == ProgramCodec.Byte(i) && At(b, 23, 8) == |ProgramCodec.Args(c, i)|
  {
    ProgramCodec.ByteFits(i);
    hide Number, Text, At, TextAt, Size, ValueFits, Listed;
    var args := ProgramCodec.Args(c, i);
    TaggedLayout("Instruction:v1", ProgramCodec.Byte(i), |args|, Listed(WrittenValue, args));
  }

  lemma TaggedLayout(tag: string, code: nat, n: nat, list: Bytes)
    requires |tag| < 256 && (forall i :: 0 <= i < |tag| ==> tag[i] as int < 256) && code < Size(1) && n < Size(8)
    ensures var b := Text(tag) + (Number(1, code) + (Number(8, n) + list));
            && TextAt(b, 0, tag) && |b| >= |tag| + 17
            && At(b, |tag| + 8, 1) == code && At(b, |tag| + 9, 8) == n
  {
    ByteTag(tag);
    hide Number, Text, ValueOf, At, TextAt, ByteText, Size;
    var rest := Number(8, n) + list;
    var b := Text(tag) + (Number(1, code) + rest);
    assert b == [] + (Text(tag) + (Number(1, code) + rest));
    TextField([], tag, Number(1, code) + rest);
    FieldAt(Text(tag), 1, code, rest);
    assert b == (Text(tag) + Number(1, code)) + rest;
    FieldAt(Text(tag) + Number(1, code), 8, n, list);
  }
}
