// Deltas as bytes. An operation is written with its id and kind; on reading, an operation of
// an unknown kind is passed over and one without an id is numbered anew.

module DeltaCodec {
  import opened Wrappers
  import opened Model
  import opened Attributes
  import opened Programs
  import opened Codec
  import AttributeOrder
  import SnapshotCodec

  // Identifier 0 is the invalid one.
  datatype Operation = Operation(id: nat, op: Op)

  // How the payload of an event and the id of a fact are written and read.
  datatype Contents = Contents(
    event: Event -> Bytes, readEvent: Bytes -> Got<Event>, fact: Fact -> Bytes, readFact: Bytes -> Got<Fact>)

  // ---- references

  function WrittenRef(r: Ref): Bytes {
    match r
    case ById(id) => Number(1, 0) + WrittenId(id)
    case ByTemp(temp) => Number(1, 1) + Number(4, temp)
  }

  function ReadRef(b: Bytes): Got<Ref> {
    match ReadNumber(1, b)
    case Failed => Failed
    case Got(tag, rest) =>
      if tag == 0 then Mapped(ReadId(rest), id => ById(id))
      else if tag == 1 then Mapped(ReadNumber(4, rest), (temp: nat) => ByTemp(temp))
      else Failed
  }

  predicate RefFits(r: Ref) {
    match r case ById(id) => IdFits(id) case ByTemp(temp) => temp < Size(4)
  }

  lemma RefRead(r: Ref, rest: Bytes)
    requires RefFits(r)
    ensures ReadRef(WrittenRef(r) + rest) == Got(r, rest)
  {
    hide Number, ReadNumber, WrittenId, ReadId;
    assert Size(1) == 256;
    match r
    case ById(id) =>
      assert WrittenRef(r) + rest == Number(1, 0) + (WrittenId(id) + rest);
      NumberRead(1, 0, WrittenId(id) + rest);
      IdRead(id, rest);
    case ByTemp(temp) =>
      assert WrittenRef(r) + rest == Number(1, 1) + (Number(4, temp) + rest);
      NumberRead(1, 1, Number(4, temp) + rest);
      NumberRead(4, temp, rest);
  }

  // ---- the body of an operation

  function KindCode(op: Op): nat {
    match op
    case CreateObject(_, _, _, _, _) => 0
    case SetObjectType(_, _) => 1
    case SetObjectExistence(_, _) => 2
    case SetObjectAttribute(_, _) => 3
    case RemoveObjectAttribute(_, _) => 4
    case CreatePointer(_, _, _, _, _, _, _) => 5
    case ExpirePointer(_) => 6
    case SetPointerWeight(_, _) => 7
    case SetPointerAttribute(_, _) => 8
    case RemovePointerAttribute(_, _) => 9
    case EmitEvent(_) => 10
    case InternType(_, _) => 11
    case InternRelation(_, _) => 12
    case AssertObject(_) => 13
    case AssertPointer(_) => 14
    case AssertFact(_) => 15
  }

  const KINDS: nat := 16

  function WrittenCreate(temp: nat, name: string, typ: nat, existence: Existence, attributes: seq<Attribute>): Bytes {
    Number(4, temp) + (Text(name) + (Number(4, typ) + (Number(1, ExistenceCode(existence)) +
      Counted(WrittenAttribute, attributes))))
  }

  function WrittenLink(from: Ref, to: Ref, relation: nat, role: Role, weight: Double, domain: string,
                       attributes: seq<Attribute>): Bytes {
    WrittenRef(from) + (WrittenRef(to) + (Number(4, relation) +
      (Number(1, RoleCode(role)) + (Number(8, weight) + (Text(domain) +
    Counted(WrittenAttribute, attributes))))))
  }

  function WrittenBody(c: Contents, op: Op): Bytes {
    match op
    case CreateObject(temp, name, typ, existence, attributes) =>
      WrittenCreate(temp, name, typ, existence, Sorted(attributes))
    case SetObjectType(target, typ) => WrittenRef(target) + Number(4, typ)
    case SetObjectExistence(target, existence) => WrittenRef(target) + Number(1, ExistenceCode(existence))
    case SetObjectAttribute(target, attribute) => WrittenRef(target) + WrittenAttribute(attribute)
    case RemoveObjectAttribute(target, key) => WrittenRef(target) + Text(key)
    case CreatePointer(from, to, relation, role, weight, domain, attributes) =>
      WrittenLink(from, to, relation, role, weight, domain, Sorted(attributes))
    case ExpirePointer(pointer) => Number(8, pointer)
    case SetPointerWeight(pointer, weight) => Number(8, pointer) + Number(8, weight)
    case SetPointerAttribute(pointer, attribute) => Number(8, pointer) + WrittenAttribute(attribute)
    case RemovePointerAttribute(pointer, key) => Number(8, pointer) + Text(key)
    case EmitEvent(event) => c.event(event)
    case InternType(name, symbol) => Text(name) + Number(4, symbol)
    case InternRelation(name, symbol) => Text(name) + Number(4, symbol)
    case AssertObject(target) => WrittenRef(target)
    case AssertPointer(pointer) => Number(8, pointer)
    case AssertFact(fact) => c.fact(fact)
  }

  function ReadCreate(b: Bytes): Got<Op> {
    match Both(Read4, ReadText, b)
    case Failed => Failed
    case Got((temp, name), b1) =>
      match Both(Read4, ReadExistence, b1)
      case Failed => Failed
      case Got((typ, existence), b2) =>
        Mapped(ReadAttributes(b2), attributes => CreateObject(temp, name, typ, existence, attributes))
  }

  function ReadLink(b: Bytes): Got<Op> {
    match Both(ReadRef, ReadRef, b)
    case Failed => Failed
    case Got((from, to), b1) =>
      match Both(Read4, ReadRole, b1)
      case Failed => Failed
      case Got((relation, role), b2) =>
        match Both(Read8, ReadText, b2)
        case Failed => Failed
        case Got((weight, domain), b3) =>
          Mapped(ReadAttributes(b3), attributes => CreatePointer(from, to, relation, role, weight, domain, attributes))
  }

  function ReadOp(c: Contents, kind: nat, b: Bytes): Got<Op>
    requires kind < KINDS
  {
    match kind
    case 0 => ReadCreate(b)
    case 1 => Mapped(Both(ReadRef, Read4, b), (t: (Ref, nat)) => SetObjectType(t.0, t.1))
    case 2 => Mapped(Both(ReadRef, ReadExistence, b), (t: (Ref, Existence)) => SetObjectExistence(t.0, t.1))
    case 3 => Mapped(Both(ReadRef, ReadAttribute, b), (t: (Ref, Attribute)) => SetObjectAttribute(t.0, t.1))
    case 4 => Mapped(Both(ReadRef, ReadText, b), (t: (Ref, string)) => RemoveObjectAttribute(t.0, t.1))
    case 5 => ReadLink(b)
    case 6 => Mapped(Read8(b), (p: nat) => ExpirePointer(p))
    case 7 => Mapped(Both(Read8, Read8, b), (t: (nat, nat)) => SetPointerWeight(t.0, t.1))
    case 8 => Mapped(Both(Read8, ReadAttribute, b), (t: (nat, Attribute)) => SetPointerAttribute(t.0, t.1))
    case 9 => Mapped(Both(Read8, ReadText, b), (t: (nat, string)) => RemovePointerAttribute(t.0, t.1))
    case 10 => Mapped(c.readEvent(b), event => EmitEvent(event))
    case 11 => Mapped(Both(ReadText, Read4, b), (t: (string, nat)) => InternType(t.0, t.1))
    case 12 => Mapped(Both(ReadText, Read4, b), (t: (string, nat)) => InternRelation(t.0, t.1))
    case 13 => Mapped(ReadRef(b), r => AssertObject(r))
    case 14 => Mapped(Read8(b), (p: nat) => AssertPointer(p))
    case 15 => Mapped(c.readFact(b), fact => AssertFact(fact))
  }

  // ---- the round trip of a body

  function TidyOp(op: Op): Op {
    match op
    case CreateObject(temp, name, typ, existence, attributes) =>
      CreateObject(temp, name, typ, existence, Sorted(attributes))
    case CreatePointer(from, to, relation, role, weight, domain, attributes) =>
      CreatePointer(from, to, relation, role, weight, domain, Sorted(attributes))
    case _ => op
  }

  // The widths of the fields, and that events and facts are read back.
  ghost predicate OpFits(c: Contents, op: Op) {
    match op
    case CreateObject(temp, name, typ, _, attributes) => temp < Size(4) && ByteText(name) && typ < Size(4) &&
      AttributesFit(attributes)
    case SetObjectType(target, typ) => RefFits(target) && typ < Size(4)
    case SetObjectExistence(target, _) => RefFits(target)
    case SetObjectAttribute(target, attribute) => RefFits(target) && AttributeFits(attribute)
    case RemoveObjectAttribute(target, key) => RefFits(target) && ByteText(key)
    case CreatePointer(from, to, relation, _, weight, domain, attributes) =>
      RefFits(from) && RefFits(to) && relation < Size(4) && weight < Size(8) && ByteText(domain) &&
        AttributesFit(attributes)
    case ExpirePointer(pointer) => pointer < Size(8)
    case SetPointerWeight(pointer, weight) => pointer < Size(8) && weight < Size(8)
    case SetPointerAttribute(pointer, attribute) => pointer < Size(8) && AttributeFits(attribute)
    case RemovePointerAttribute(pointer, key) => pointer < Size(8) && ByteText(key)
    case EmitEvent(event) => Reads(c.event, c.readEvent, event)
    case InternType(name, symbol) => ByteText(name) && symbol < Size(4)
    case InternRelation(name, symbol) => ByteText(name) && symbol < Size(4)
    case AssertObject(target) => RefFits(target)
    case AssertPointer(pointer) => pointer < Size(8)
    case AssertFact(fact) => Reads(c.fact, c.readFact, fact)
  }

  lemma CreateRead(op: Op, c: Contents, rest: Bytes)
    requires op.CreateObject? && OpFits(c, op)
    ensures ReadOp(c, KindCode(op), WrittenBody(c, op) + rest) == Got(TidyOp(op), rest)
  {
    hide Number, ReadNumber, Text, ReadText, Counted, ReadCounted, Sorted, AttributesFit, ByteText, Size, ExistenceCode,
         ExistenceOf;
    var attributes := Sorted(op.attributes);
    var n3 := Counted(WrittenAttribute, attributes) + rest;
    var n2 := Number(1, ExistenceCode(op.existence)) + n3;
    var n1 := Number(4, op.typ) + n2;
    var n0 := Text(op.name) + n1;
    assert WrittenBody(c, op) + rest == Number(4, op.temp) + n0;
    NumberRead(4, op.temp, n0);
    TextRead(op.name, n1);
    NumberRead(4, op.typ, n2);
    ExistenceRead(op.existence, n3);
    SnapshotCodec.SortedFits(op.attributes);
    AttributesRead(attributes, rest);
  }

  lemma LinkRead(op: Op, c: Contents, rest: Bytes)
    requires op.CreatePointer? && OpFits(c, op)
    ensures ReadOp(c, KindCode(op), WrittenBody(c, op) + rest) == Got(TidyOp(op), rest)
  {
    hide Number, ReadNumber, Text, ReadText, Counted, ReadCounted, Sorted, AttributesFit, ByteText, Size, WrittenRef,
         ReadRef, RefFits,
         RoleCode, RoleOf;
    var attributes := Sorted(op.attributes);
    var n5 := Counted(WrittenAttribute, attributes) + rest;
    var n4 := Text(op.lawDomain) + n5;
    var n3 := Number(8, op.weight) + n4;
    var n2 := Number(1, RoleCode(op.role)) + n3;
    var n1 := Number(4, op.relation) + n2;
    var n0 := WrittenRef(op.to) + n1;
    assert WrittenBody(c, op) + rest == WrittenRef(op.from) + n0;
    RefRead(op.from, n0);
    RefRead(op.to, n1);
    NumberRead(4, op.relation, n2);
    RoleRead(op.role, n3);
    NumberRead(8, op.weight, n4);
    TextRead(op.lawDomain, n5);
    SnapshotCodec.SortedFits(op.attributes);
    AttributesRead(attributes, rest);
  }

  // Operations on objects and symbols.
  lemma ObjectOpRead(op: Op, c: Contents, rest: Bytes)
    requires OpFits(c, op)
    requires op.SetObjectType? || op.SetObjectExistence? || op.SetObjectAttribute? || op.RemoveObjectAttribute? ||
             op.AssertObject?
          || op.InternType? || op.InternRelation?
    ensures ReadOp(c, KindCode(op), WrittenBody(c, op) + rest) == Got(op, rest)
  {
    hide Number, ReadNumber, Text, ReadText, ByteText, Size, WrittenRef, ReadRef, RefFits, ExistenceCode, ExistenceOf,
         Both, AttributeFits,
         WrittenAttribute, ReadAttribute;
    match op
    case SetObjectType(target, typ) =>
      RefRead(target, Number(4, typ) + rest);
      NumberRead(4, typ, rest);
      BothRead(WrittenRef(target), Number(4, typ), rest, ReadRef, Read4, target, typ);
    case SetObjectExistence(target, existence) =>
      RefRead(target, Number(1, ExistenceCode(existence)) + rest);
      ExistenceRead(existence, rest);
      BothRead(WrittenRef(target), Number(1, ExistenceCode(existence)), rest, ReadRef, ReadExistence, target,
        existence);
    case SetObjectAttribute(target, attribute) =>
      RefRead(target, WrittenAttribute(attribute) + rest);
      AttributeRead(attribute);
      BothRead(WrittenRef(target), WrittenAttribute(attribute), rest, ReadRef, ReadAttribute, target, attribute);
    case RemoveObjectAttribute(target, key) =>
      RefRead(target, Text(key) + rest);
      TextRead(key, rest);
      BothRead(WrittenRef(target), Text(key), rest, ReadRef, ReadText, target, key);
    case AssertObject(target) => RefRead(target, rest);
    case InternType(name, symbol) =>
      TextRead(name, Number(4, symbol) + rest);
      NumberRead(4, symbol, rest);
      BothRead(Text(name), Number(4, symbol), rest, ReadText, Read4, name, symbol);
    case InternRelation(name, symbol) =>
      TextRead(name, Number(4, symbol) + rest);
      NumberRead(4, symbol, rest);
      BothRead(Text(name), Number(4, symbol), rest, ReadText, Read4, name, symbol);
  }

  lemma PointerOpRead(op: Op, c: Contents, rest: Bytes)
    requires OpFits(c, op)
    requires op.ExpirePointer? || op.SetPointerWeight? || op.SetPointerAttribute? || op.RemovePointerAttribute? ||
             op.AssertPointer?
    ensures ReadOp(c, KindCode(op), WrittenBody(c, op) + rest) == Got(op, rest)
  {
    hide Number, ReadNumber, Text, ReadText, ByteText, Size, Both, AttributeFits, WrittenAttribute, ReadAttribute;
    match op
    case ExpirePointer(pointer) => NumberRead(8, pointer, rest);
    case AssertPointer(pointer) => NumberRead(8, pointer, rest);
    case SetPointerWeight(pointer, weight) =>
      NumberRead(8, pointer, Number(8, weight) + rest);
      NumberRead(8, weight, rest);
      BothRead(Number(8, pointer), Number(8, weight), rest, Read8, Read8, pointer, weight);
    case SetPointerAttribute(pointer, attribute) =>
      NumberRead(8, pointer, WrittenAttribute(attribute) + rest);
      AttributeRead(attribute);
      BothRead(Number(8, pointer), WrittenAttribute(attribute), rest, Read8, ReadAttribute, pointer, attribute);
    case RemovePointerAttribute(pointer, key) =>
      NumberRead(8, pointer, Text(key) + rest);
      TextRead(key, rest);
      BothRead(Number(8, pointer), Text(key), rest, Read8, ReadText, pointer, key);
  }

  lemma ContentRead(op: Op, c: Contents, rest: Bytes)
    requires (op.EmitEvent? || op.AssertFact?) && OpFits(c, op)
    ensures ReadOp(c, KindCode(op), WrittenBody(c, op) + rest) == Got(op, rest)
  {
    hide Number, ReadNumber, Text, ReadText, ByteText, Size, Both, ReadCreate, ReadLink;
  }

  lemma OpRead(op: Op, c: Contents, rest: Bytes)
    requires OpFits(c, op)
    ensures ReadOp(c, KindCode(op), WrittenBody(c, op) + rest) == Got(TidyOp(op), rest)
  {
    hide WrittenBody, OpFits, ReadOp, KindCode, Sorted;
    if op.CreateObject? {
      CreateRead(op, c, rest);
    } else if op.CreatePointer? {
      LinkRead(op, c, rest);
    } else if op.EmitEvent? || op.AssertFact? {
      ContentRead(op, c, rest);
    } else if op.ExpirePointer? || op.SetPointerWeight? || op.SetPointerAttribute? || op.RemovePointerAttribute? ||
      op.AssertPointer? {
      PointerOpRead(op, c, rest);
    } else {
      ObjectOpRead(op, c, rest);
    }
  }

  // ---- a delta

  const DELTA_TAG: string := "Delta:v3"

  function WrittenOperation(c: Contents, o: Operation): Bytes {
    Number(8, o.id) + (Number(1, KindCode(o.op)) + WrittenBody(c, o.op))
  }

  function WrittenOperations(c: Contents, ops: seq<Operation>): Bytes {
    if ops == [] then [] else WrittenOperations(c, ops[..|ops| - 1]) + WrittenOperation(c, ops[|ops| - 1])
  }

  function Written(c: Contents, ops: seq<Operation>): Bytes {
    Text(DELTA_TAG) + (Number(8, |ops|) + WrittenOperations(c, ops))
  }

  // One above every id there is, in 64 bits, and at least 1.
  function NextId(ops: seq<Operation>): (next: nat)
    ensures next >= 1
  {
    if ops == [] then 1 else Max(NextId(ops[..|ops| - 1]), (ops[|ops| - 1].id + 1) % Size(8))
  }

  function Appended(ops: seq<Operation>, o: Operation): seq<Operation> {
    ops + [if o.id == 0 then o.(id := NextId(ops)) else o]
  }

  function Numbered(ops: seq<Operation>): seq<Operation> {
    if ops == [] then [] else Appended(Numbered(ops[..|ops| - 1]), ops[|ops| - 1])
  }

  // An operation of an unknown kind is read as nothing, and what follows is read on.
  function ReadOperation(c: Contents, b: Bytes): Got<Option<Operation>> {
    match Both(Read8, b' => ReadNumber(1, b'), b)
    case Failed => Failed
    case Got((id, kind), rest) =>
      if kind >= KINDS then Got(None, rest) else Mapped(ReadOp(c, kind, rest), op => Some(Operation(id, op)))
  }

  function ReadOperations(c: Contents, n: nat, b: Bytes): Got<seq<Operation>> {
    if n == 0 then Got([], b)
    else match ReadOperations(c, n - 1, b)
      case Failed => Failed
      case Got(ops, rest) =>
        match ReadOperation(c, rest)
        case Failed => Failed
        case Got(o, more) => Got(if o.None? then ops else Appended(ops, o.value), more)
  }

  function ReadDelta(c: Contents, b: Bytes): Got<seq<Operation>> {
    match ReadText(b)
    case Failed => Failed
    case Got(tag, b1) =>
      if tag != DELTA_TAG then Failed
      else match ReadNumber(8, b1)
        case Failed => Failed
        case Got(n, b2) => ReadOperations(c, n, b2)
  }

  function Tidy(ops: seq<Operation>): seq<Operation> {
    seq(|ops|, i requires 0 <= i < |ops| => Operation(ops[i].id, TidyOp(ops[i].op)))
  }

  ghost predicate Fits(c: Contents, ops: seq<Operation>) {
    |ops| < Size(8) && forall i :: 0 <= i < |ops| ==> ops[i].id < Size(8) && OpFits(c, ops[i].op)
  }

  lemma TagFits()
    ensures ByteText(DELTA_TAG)
  {
  }

  lemma KindFits(op: Op)
    ensures KindCode(op) < KINDS < Size(1)
  {
  }

  lemma OperationRead(c: Contents, o: Operation, rest: Bytes)
    requires o.id < Size(8) && OpFits(c, o.op)
    ensures ReadOperation(c, WrittenOperation(c, o) + rest) == Got(Some(Operation(o.id, TidyOp(o.op))), rest)
  {
    KindFits(o.op);
    hide Number, ReadNumber, WrittenBody, ReadOp, TidyOp, OpFits, Size;
    var body := WrittenBody(c, o.op) + rest;
    assert WrittenOperation(c, o) + rest == Number(8, o.id) + (Number(1, KindCode(o.op)) + body);
    NumberRead(8, o.id, Number(1, KindCode(o.op)) + body);
    NumberRead(1, KindCode(o.op), body);
    OpRead(o.op, c, rest);
  }

  lemma {:induction false} OperationsRead(c: Contents, ops: seq<Operation>, rest: Bytes)
    requires forall i :: 0 <= i < |ops| ==> ops[i].id < Size(8) && OpFits(c, ops[i].op)
    ensures ReadOperations(c, |ops|, WrittenOperations(c, ops) + rest) == Got(Numbered(Tidy(ops)), rest)
    decreases |ops|
  {
    hide WrittenOperation, ReadOperation, TidyOp, OpFits, Size;
    if ops != [] {
      var init, last := ops[..|ops| - 1], ops[|ops| - 1];
      assert WrittenOperations(c, ops) + rest == WrittenOperations(c, init) + (WrittenOperation(c, last) + rest);
      OperationsRead(c, init, WrittenOperation(c, last) + rest);
      OperationRead(c, last, rest);
      assert Tidy(ops)[..|ops| - 1] == Tidy(init);
    }
  }

  // Reading back what was written gives the same operations with sorted attributes, those
  // without an id numbered, and nothing of what follows.
  lemma DeltaRead(c: Contents, ops: seq<Operation>, rest: Bytes)
    requires Fits(c, ops)
    ensures ReadDelta(c, Written(c, ops) + rest) == Got(Numbered(Tidy(ops)), rest)
  {
    TagFits();
    hide Number, ReadNumber, Text, ReadText, WrittenOperations, ReadOperations, OpFits, Size;
    var n1 := WrittenOperations(c, ops) + rest;
    var n0 := Number(8, |ops|) + n1;
    assert Written(c, ops) + rest == Text(DELTA_TAG) + n0;
    TextRead(DELTA_TAG, n0);
    NumberRead(8, |ops|, n1);
    OperationsRead(c, ops, rest);
  }

  // Numbering leaves a delta alone exactly when every operation has an id.
  lemma {:induction false} NumberedSame(ops: seq<Operation>)
    ensures Numbered(ops) == ops <==> forall i :: 0 <= i < |ops| ==> ops[i].id != 0
    ensures |Numbered(ops)| == |ops|
    decreases |ops|
  {
    if ops != [] {
      var init, last := ops[..|ops| - 1], ops[|ops| - 1];
      NumberedSame(init);
      assert ops == init + [last];
      if Numbered(ops) == ops {
        assert Numbered(ops)[..|init|] == Numbered(init) && ops[..|init|] == init;
        assert Numbered(ops)[|init|] == last;
      }
    }
  }

  // Two deltas whose operations have ids have the same bytes exactly when they are the same
  // up to the order of attributes.
  lemma SameBytes(c: Contents, a: seq<Operation>, b: seq<Operation>)
    requires Fits(c, a) && Fits(c, b)
    requires (forall i :: 0 <= i < |a| ==> a[i].id != 0) && (forall i :: 0 <= i < |b| ==> b[i].id != 0)
    ensures Written(c, a) == Written(c, b) <==> Tidy(a) == Tidy(b)
  {
    hide Written, ReadDelta, TidyOp, Fits;
    NumberedSame(Tidy(a));
    NumberedSame(Tidy(b));
    DeltaRead(c, a, []);
    DeltaRead(c, b, []);
    if Tidy(a) == Tidy(b) {
      WrittenTidy(c, a);
      WrittenTidy(c, b);
    } else {
      assert ReadDelta(c, Written(c, a) + []) != ReadDelta(c, Written(c, b) + []);
    }
  }

  lemma WrittenTidy(c: Contents, ops: seq<Operation>)
    ensures Written(c, Tidy(ops)) == Written(c, ops)
  {
    OperationsTidy(c, ops);
  }

  lemma {:induction false} OperationsTidy(c: Contents, ops: seq<Operation>)
    ensures WrittenOperations(c, Tidy(ops)) == WrittenOperations(c, ops)
    decreases |ops|
  {
    hide WrittenOperation, TidyOp;
    if ops != [] {
      var init, last := ops[..|ops| - 1], ops[|ops| - 1];
      OperationsTidy(c, init);
      assert Tidy(ops)[..|ops| - 1] == Tidy(init);
      OperationTidy(c, last);
    }
  }

  lemma OperationTidy(c: Contents, o: Operation)
    ensures WrittenOperation(c, Operation(o.id, TidyOp(o.op))) == WrittenOperation(c, o)
  {
    hide Number, Sorted, Text, WrittenRef, WrittenAttribute, Counted;
    match o.op
    case CreateObject(_, _, _, _, attributes) => AttributeOrder.SortedTwice(attributes);
    case CreatePointer(_, _, _, _, _, _, attributes) => AttributeOrder.SortedTwice(attributes);
    case _ =>
  }
}
