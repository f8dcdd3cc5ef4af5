// The canonical encoding of snapshots: what is written, what is read back, and why two
// snapshots have the same bytes exactly when they have the same canonical form.

module Codec {
  import opened Wrappers
  import opened Model
  import opened Attributes
  import opened Programs

  type Byte = x: int | 0 <= x < 256

  type Bytes = seq<Byte>

  datatype Got<T> = Got(value: T, rest: Bytes) | Failed

  // ---- numbers, most significant byte first

  function Size(width: nat): nat {
    if width == 0 then 1 else 256 * Size(width - 1)
  }

  function Number(width: nat, v: nat): (r: Bytes)
    ensures |r| == width
  {
    if width == 0 then [] else Number(width - 1, v / 256) + [v % 256]
  }

  function ValueOf(b: Bytes): nat {
    if b == [] then 0 else 256 * ValueOf(b[..|b| - 1]) + b[|b| - 1]
  }

  function ReadNumber(width: nat, b: Bytes): Got<nat> {
    if |b| < width then Failed else Got(ValueOf(b[..width]), b[width..])
  }

  lemma {:induction false} NumberBack(width: nat, v: nat)
    requires v < Size(width)
    ensures ValueOf(Number(width, v)) == v
  {
    if width > 0 {
      NumberBack(width - 1, v / 256);
      assert Number(width, v)[..width - 1] == Number(width - 1, v / 256);
    }
  }

  lemma NumberRead(width: nat, v: nat, rest: Bytes)
    requires v < Size(width)
    ensures ReadNumber(width, Number(width, v) + rest) == Got(v, rest)
  {
    NumberBack(width, v);
    var b := Number(width, v) + rest;
    assert b[..width] == Number(width, v) && b[width..] == rest;
  }

  // ---- text, counted and then byte by byte

  predicate ByteText(s: string) {
    |s| < Size(8) && forall i :: 0 <= i < |s| ==> s[i] as int < 256
  }

  function Codes(s: string): Bytes {
    seq(|s|, i requires 0 <= i < |s| => s[i] as int % 256)
  }

  function Chars(b: Bytes): string {
    seq(|b|, i requires 0 <= i < |b| => b[i] as char)
  }

  function Text(s: string): Bytes {
    Number(8, |s|) + Codes(s)
  }

  function ReadText(b: Bytes): Got<string> {
    match ReadNumber(8, b)
    case Failed => Failed
    case Got(n, rest) => if |rest| < n then Failed else Got(Chars(rest[..n]), rest[n..])
  }

  lemma TextRead(s: string, rest: Bytes)
    requires ByteText(s)
    ensures ReadText(Text(s) + rest) == Got(s, rest)
  {
    hide Number, Size;
    assert Text(s) + rest == Number(8, |s|) + (Codes(s) + rest);
    NumberRead(8, |s|, Codes(s) + rest);
    var tail := Codes(s) + rest;
    assert tail[..|s|] == Codes(s) && tail[|s|..] == rest && Chars(Codes(s)) == s;
  }

  // ---- lists, whose length is written before them

  function Listed<T>(f: T -> Bytes, xs: seq<T>): Bytes {
    if xs == [] then [] else Listed(f, xs[..|xs| - 1]) + f(xs[|xs| - 1])
  }

  function ReadListed<T>(r: Bytes -> Got<T>, n: nat, b: Bytes): Got<seq<T>> {
    if n == 0 then Got([], b)
    else match ReadListed(r, n - 1, b)
      case Failed => Failed
      case Got(xs, rest) =>
        match r(rest)
        case Failed => Failed
        case Got(x, more) => Got(xs + [x], more)
  }

  // What is read back from an item is the item.
  ghost predicate Reads<T(!new)>(f: T -> Bytes, r: Bytes -> Got<T>, x: T) {
    forall rest: Bytes :: r(f(x) + rest) == Got(x, rest)
  }

  lemma {:induction false} ListedRead<T(!new)>(f: T -> Bytes, r: Bytes -> Got<T>, xs: seq<T>, rest: Bytes)
    requires forall x :: x in xs ==> Reads(f, r, x)
    ensures ReadListed(r, |xs|, Listed(f, xs) + rest) == Got(xs, rest)
    decreases |xs|
  {
    if xs != [] {
      var init, last := xs[..|xs| - 1], xs[|xs| - 1];
      assert xs == init + [last];
      assert Listed(f, xs) + rest == Listed(f, init) + (f(last) + rest);
      ListedRead(f, r, init, f(last) + rest);
      assert Reads(f, r, last);
    }
  }

  function Counted<T>(f: T -> Bytes, xs: seq<T>): Bytes {
    Number(8, |xs|) + Listed(f, xs)
  }

  function ReadCounted<T>(r: Bytes -> Got<T>, b: Bytes): Got<seq<T>> {
    match ReadNumber(8, b)
    case Failed => Failed
    case Got(n, rest) => ReadListed(r, n, rest)
  }

  lemma CountedRead<T(!new)>(f: T -> Bytes, r: Bytes -> Got<T>, xs: seq<T>, rest: Bytes)
    requires |xs| < Size(8) && forall x :: x in xs ==> Reads(f, r, x)
    ensures ReadCounted(r, Counted(f, xs) + rest) == Got(xs, rest)
  {
    hide Number, Size, Reads;
    assert Counted(f, xs) + rest == Number(8, |xs|) + (Listed(f, xs) + rest);
    NumberRead(8, |xs|, Listed(f, xs) + rest);
    ListedRead(f, r, xs, rest);
  }

  // ---- values and attributes

  const HASH_BYTES: nat := 32

  predicate IdFits(id: ObjectId) {
    id.index < Size(4) && id.generation < Size(4)
  }

  // The widths of the fields: what their types allow.
  predicate ValueFits(v: Value) {
    match v
    case Int64(i) => -(Size(8) / 2) <= i < Size(8) / 2
    case UInt64(u) => u < Size(8)
    case Float64(d) => d < Size(8)
    case String(s) => ByteText(s)
    case Hash(h) => h < Size(HASH_BYTES)
    case ObjectValue(id) => IdFits(id)
    case _ => true
  }

  function WrittenId(id: ObjectId): Bytes {
    Number(4, id.index) + Number(4, id.generation)
  }

  function ReadId(b: Bytes): Got<ObjectId> {
    match ReadNumber(4, b)
    case Failed => Failed
    case Got(index, rest) =>
      match ReadNumber(4, rest)
      case Failed => Failed
      case Got(generation, more) => Got(ObjectId(index, generation), more)
  }

  lemma IdRead(id: ObjectId, rest: Bytes)
    requires IdFits(id)
    ensures ReadId(WrittenId(id) + rest) == Got(id, rest)
  {
    hide Number, Size;
    assert WrittenId(id) + rest == Number(4, id.index) + (Number(4, id.generation) + rest);
    NumberRead(4, id.index, Number(4, id.generation) + rest);
    NumberRead(4, id.generation, rest);
  }

  // Two's complement in eight bytes.
  function Unsigned(i: int): nat {
    i % Size(8)
  }

  function Signed(u: nat): int {
    if u < Size(8) / 2 then u else u - Size(8)
  }

  function ValueBody(v: Value): Bytes {
    match v
    case Null => []
    case Bool(b) => Number(1, if b then 1 else 0)
    case Int64(i) => Number(8, Unsigned(i))
    case UInt64(u) => Number(8, u)
    case Float64(d) => Number(8, d)
    case String(s) => Text(s)
    case Hash(h) => Number(HASH_BYTES, h)
    case ObjectValue(id) => WrittenId(id)
  }

  function WrittenValue(v: Value): Bytes {
    Number(1, Kind(v)) + ValueBody(v)
  }

  function Mapped<T, U>(g: Got<T>, f: T -> U): Got<U> {
    match g case Failed => Failed case Got(x, rest) => Got(f(x), rest)
  }

  function ReadValueBody(kind: nat, b: Bytes): Got<Value> {
    match kind
    case 0 => Got(Null, b)
    case 1 => Mapped(ReadNumber(1, b), (n: nat) => Bool(n != 0))
    case 2 => Mapped(ReadNumber(8, b), (n: nat) => Int64(Signed(n)))
    case 3 => Mapped(ReadNumber(8, b), (n: nat) => UInt64(n))
    case 4 => Mapped(ReadNumber(8, b), (n: nat) => Float64(n))
    case 5 => Mapped(ReadText(b), s => String(s))
    case 6 => Mapped(ReadNumber(HASH_BYTES, b), (n: nat) => Hash(n))
    case 7 => Mapped(ReadId(b), id => ObjectValue(id))
    case _ => Failed
  }

  function ReadValue(b: Bytes): Got<Value> {
    match ReadNumber(1, b)
    case Failed => Failed
    case Got(kind, rest) => ReadValueBody(kind, rest)
  }

  lemma ValueBodyRead(v: Value, rest: Bytes)
    requires ValueFits(v)
    ensures ReadValueBody(Kind(v), ValueBody(v) + rest) == Got(v, rest)
  {
    hide Number, ReadNumber, ReadText, ReadId, Text, WrittenId;
    assert Size(8) == 0x1_0000_0000_0000_0000;
    match v
    case Null =>
    case Bool(b) => NumberRead(1, if b then 1 else 0, rest);
    case Int64(i) => NumberRead(8, Unsigned(i), rest);
    case UInt64(u) => NumberRead(8, u, rest);
    case Float64(d) => NumberRead(8, d, rest);
    case String(s) => TextRead(s, rest);
    case Hash(h) => NumberRead(HASH_BYTES, h, rest);
    case ObjectValue(id) => IdRead(id, rest);
  }

  lemma ValueRead(v: Value, rest: Bytes)
    requires ValueFits(v)
    ensures ReadValue(WrittenValue(v) + rest) == Got(v, rest)
  {
    hide Number, ValueBody, ReadValueBody, ReadNumber;
    assert WrittenValue(v) + rest == Number(1, Kind(v)) + (ValueBody(v) + rest);
    assert Size(1) == 256;
    NumberRead(1, Kind(v), ValueBody(v) + rest);
    ValueBodyRead(v, rest);
  }

  predicate AttributeFits(a: Attribute) {
    ByteText(a.key) && ValueFits(a.value)
  }

  predicate AttributesFit(attributes: seq<Attribute>) {
    |attributes| < Size(8) && forall i :: 0 <= i < |attributes| ==> AttributeFits(attributes[i])
  }

  function WrittenAttribute(a: Attribute): Bytes {
    Text(a.key) + WrittenValue(a.value)
  }

  function ReadAttribute(b: Bytes): Got<Attribute> {
    match ReadText(b)
    case Failed => Failed
    case Got(key, rest) =>
      match ReadValue(rest)
      case Failed => Failed
      case Got(v, more) => Got(Attribute(key, v), more)
  }

  lemma AttributeRead(a: Attribute)
    requires AttributeFits(a)
    ensures Reads(WrittenAttribute, ReadAttribute, a)
  {
    hide Text, WrittenValue, ReadText, ReadValue;
    forall rest: Bytes ensures ReadAttribute(WrittenAttribute(a) + rest) == Got(a, rest) {
      assert WrittenAttribute(a) + rest == Text(a.key) + (WrittenValue(a.value) + rest);
      TextRead(a.key, WrittenValue(a.value) + rest);
      ValueRead(a.value, rest);
    }
  }

  lemma AttributesRead(attributes: seq<Attribute>, rest: Bytes)
    requires AttributesFit(attributes)
    ensures ReadCounted(ReadAttribute, Counted(WrittenAttribute, attributes) + rest) == Got(attributes, rest)
  {
    hide AttributeFits, Reads, Counted, ReadCounted, WrittenAttribute, ReadAttribute;
    forall a | a in attributes ensures Reads(WrittenAttribute, ReadAttribute, a) {
      AttributeRead(a);
    }
    CountedRead(WrittenAttribute, ReadAttribute, attributes, rest);
  }

  // ---- objects

  predicate ObjectFits(o: Object) {
    && IdFits(o.id) && ByteText(o.name) && o.typ < Size(4) && AttributesFit(o.attributes)
    && o.incoming < Size(8) && o.outgoing < Size(8)
  }

  // What comes after the name.
  function ObjectTail(o: Object): Bytes {
    Number(4, o.typ) + (Number(1, ExistenceCode(o.existence)) + (Counted(WrittenAttribute, o.attributes) +
    (Number(8, o.incoming) + Number(8, o.outgoing))))
  }

  function WrittenObject(o: Object): Bytes {
    WrittenId(o.id) + (Text(o.name) + ObjectTail(o))
  }

  function ReadObjectTail(id: ObjectId, name: string, b: Bytes): Got<Object> {
    match ReadNumber(4, b)
    case Failed => Failed
    case Got(typ, b1) =>
      match ReadNumber(1, b1)
      case Failed => Failed
      case Got(code, b2) =>
        match (ExistenceOf(code), ReadCounted(ReadAttribute, b2))
        case (Some(existence), Got(attributes, b3)) =>
          (match ReadNumber(8, b3)
           case Failed => Failed
           case Got(incoming, b4) =>
             match ReadNumber(8, b4)
             case Failed => Failed
             case Got(outgoing, b5) => Got(Object(id, name, typ, existence, attributes, incoming, outgoing), b5))
        case _ => Failed
  }

  function ReadObject(b: Bytes): Got<Object> {
    match ReadId(b)
    case Failed => Failed
    case Got(id, b1) =>
      match ReadText(b1)
      case Failed => Failed
      case Got(name, b2) => ReadObjectTail(id, name, b2)
  }

  lemma ExistenceRead(e: Existence, rest: Bytes)
    ensures ReadNumber(1, Number(1, ExistenceCode(e)) + rest) == Got(ExistenceCode(e), rest) &&
            ExistenceOf(ExistenceCode(e)) == Some(e)
  {
    hide Number, ReadNumber;
    assert Size(1) == 256;
    NumberRead(1, ExistenceCode(e), rest);
  }

  lemma ObjectTailRead(o: Object, rest: Bytes)
    requires ObjectFits(o)
    ensures ReadObjectTail(o.id, o.name, ObjectTail(o) + rest) == Got(o, rest)
  {
    hide Number, ReadNumber, Counted, ReadCounted, AttributesFit, IdFits, ByteText, Size, ExistenceOf, ExistenceCode;
    var n5 := Number(8, o.outgoing) + rest;
    var n4 := Number(8, o.incoming) + n5;
    var n3 := Counted(WrittenAttribute, o.attributes) + n4;
    var n2 := Number(1, ExistenceCode(o.existence)) + n3;
    assert ObjectTail(o) + rest == Number(4, o.typ) + n2;
    NumberRead(4, o.typ, n2);
    ExistenceRead(o.existence, n3);
    AttributesRead(o.attributes, n4);
    NumberRead(8, o.incoming, n5);
    NumberRead(8, o.outgoing, rest);
  }

  lemma ObjectRead(o: Object)
    requires ObjectFits(o)
    ensures Reads(WrittenObject, ReadObject, o)
  {
    hide Text, WrittenId, ReadText, ReadId, ObjectTail, ReadObjectTail, AttributesFit, IdFits, ByteText, Size;
    forall rest: Bytes ensures ReadObject(WrittenObject(o) + rest) == Got(o, rest) {
      var tail := ObjectTail(o) + rest;
      assert WrittenObject(o) + rest == WrittenId(o.id) + (Text(o.name) + tail);
      IdRead(o.id, Text(o.name) + tail);
      TextRead(o.name, tail);
      ObjectTailRead(o, rest);
    }
  }

  // ---- pointers

  predicate PointerFits(p: Pointer) {
    && p.id < Size(8) && IdFits(p.from) && IdFits(p.to) && p.relation < Size(4) && p.weight < Size(8) &&
      p.bornAt < Size(8)
    && (p.expiresAt.Some? ==> p.expiresAt.value < Size(8)) && ByteText(p.lawDomain) && AttributesFit(p.attributes)
  }

  function WrittenExpiry(e: Option<nat>): Bytes {
    match e case None => Number(1, 0) case Some(at) => Number(1, 1) + Number(8, at)
  }

  function ReadExpiry(b: Bytes): Got<Option<nat>> {
    match ReadNumber(1, b)
    case Failed => Failed
    case Got(flag, rest) => if flag == 0 then Got(None, rest) else Mapped(ReadNumber(8, rest), (at: nat) => Some(at))
  }

  lemma ExpiryRead(e: Option<nat>, rest: Bytes)
    requires e.Some? ==> e.value < Size(8)
    ensures ReadExpiry(WrittenExpiry(e) + rest) == Got(e, rest)
  {
    hide Number, ReadNumber;
    assert Size(1) == 256;
    match e
    case None => NumberRead(1, 0, rest);
    case Some(at) =>
      assert WrittenExpiry(e) + rest == Number(1, 1) + (Number(8, at) + rest);
      NumberRead(1, 1, Number(8, at) + rest);
      NumberRead(8, at, rest);
  }

  // Who is pointed at by whom, and as what.
  function PointerHead(p: Pointer): Bytes {
    Number(8, p.id) + (WrittenId(p.from) + (WrittenId(p.to) + (Number(4, p.relation) + Number(1, RoleCode(p.role)))))
  }

  function PointerTail(p: Pointer): Bytes {
    Number(8, p.weight) + (Number(8, p.bornAt) + (WrittenExpiry(p.expiresAt) +
      (Text(p.lawDomain) + Counted(WrittenAttribute, p.attributes))))
  }

  function WrittenPointer(p: Pointer): Bytes {
    PointerHead(p) + PointerTail(p)
  }

  datatype Head = Head(id: nat, from: ObjectId, to: ObjectId, relation: nat, role: Role)

  function HeadOf(p: Pointer): Head {
    Head(p.id, p.from, p.to, p.relation, p.role)
  }

  function ReadHead(b: Bytes): Got<Head> {
    match ReadNumber(8, b)
    case Failed => Failed
    case Got(id, b1) =>
      match ReadId(b1)
      case Failed => Failed
      case Got(from, b2) =>
        match ReadId(b2)
        case Failed => Failed
        case Got(to, b3) =>
          match ReadNumber(4, b3)
          case Failed => Failed
          case Got(relation, b4) =>
            match ReadNumber(1, b4)
            case Failed => Failed
            case Got(code, b5) => if RoleOf(code).Some? then Got(Head(id, from, to, relation, RoleOf(code).value), b5)
              else Failed
  }

  function ReadPointerTail(h: Head, b: Bytes): Got<Pointer> {
    match ReadNumber(8, b)
    case Failed => Failed
    case Got(weight, b1) =>
      match ReadNumber(8, b1)
      case Failed => Failed
      case Got(born, b2) =>
        match ReadExpiry(b2)
        case Failed => Failed
        case Got(expires, b3) =>
          match ReadText(b3)
          case Failed => Failed
          case Got(domain, b4) =>
            match ReadCounted(ReadAttribute, b4)
            case Failed => Failed
            case Got(attributes, b5) =>
              Got(Pointer(h.id, h.from, h.to, h.relation, h.role, weight, born, expires, domain, attributes), b5)
  }

  function ReadPointer(b: Bytes): Got<Pointer> {
    match ReadHead(b)
    case Failed => Failed
    case Got(h, rest) => ReadPointerTail(h, rest)
  }

  lemma RoleRead(r: Role, rest: Bytes)
    ensures ReadNumber(1, Number(1, RoleCode(r)) + rest) == Got(RoleCode(r), rest) && RoleOf(RoleCode(r)) == Some(r)
  {
    hide Number, ReadNumber;
    assert Size(1) == 256;
    NumberRead(1, RoleCode(r), rest);
  }

  lemma HeadRead(p: Pointer, rest: Bytes)
    requires PointerFits(p)
    ensures ReadHead(PointerHead(p) + rest) == Got(HeadOf(p), rest)
  {
    hide Number, ReadNumber, WrittenId, ReadId, AttributesFit, ByteText, IdFits, Size, RoleOf, RoleCode;
    var n4 := Number(1, RoleCode(p.role)) + rest;
    var n3 := Number(4, p.relation) + n4;
    var n2 := WrittenId(p.to) + n3;
    var n1 := WrittenId(p.from) + n2;
    assert PointerHead(p) + rest == Number(8, p.id) + n1;
    NumberRead(8, p.id, n1);
    IdRead(p.from, n2);
    IdRead(p.to, n3);
    NumberRead(4, p.relation, n4);
    RoleRead(p.role, rest);
  }

  lemma PointerTailRead(p: Pointer, rest: Bytes)
    requires PointerFits(p)
    ensures ReadPointerTail(HeadOf(p), PointerTail(p) + rest) == Got(p, rest)
  {
    hide Number, ReadNumber, WrittenExpiry, ReadExpiry, Text, ReadText, Counted, ReadCounted, AttributesFit, ByteText,
         IdFits, Size;
    var n4 := Counted(WrittenAttribute, p.attributes) + rest;
    var n3 := Text(p.lawDomain) + n4;
    var n2 := WrittenExpiry(p.expiresAt) + n3;
    var n1 := Number(8, p.bornAt) + n2;
    assert PointerTail(p) + rest == Number(8, p.weight) + n1;
    NumberRead(8, p.weight, n1);
    NumberRead(8, p.bornAt, n2);
    ExpiryRead(p.expiresAt, n3);
    TextRead(p.lawDomain, n4);
    AttributesRead(p.attributes, rest);
  }

  lemma PointerRead(p: Pointer)
    requires PointerFits(p)
    ensures Reads(WrittenPointer, ReadPointer, p)
  {
    hide PointerHead, PointerTail, ReadHead, ReadPointerTail, PointerFits;
    forall rest: Bytes ensures ReadPointer(WrittenPointer(p) + rest) == Got(p, rest) {
      assert WrittenPointer(p) + rest == PointerHead(p) + (PointerTail(p) + rest);
      HeadRead(p, PointerTail(p) + rest);
      PointerTailRead(p, rest);
    }
  }

  // ---- one thing after another

  function Read4(b: Bytes): Got<nat> {
    ReadNumber(4, b)
  }

  function Read8(b: Bytes): Got<nat> {
    ReadNumber(8, b)
  }

  function ReadExistence(b: Bytes): Got<Existence> {
    match ReadNumber(1, b)
    case Failed => Failed
    case Got(code, rest) => if ExistenceOf(code).Some? then Got(ExistenceOf(code).value, rest) else Failed
  }

  function ReadRole(b: Bytes): Got<Role> {
    match ReadNumber(1, b)
    case Failed => Failed
    case Got(code, rest) => if RoleOf(code).Some? then Got(RoleOf(code).value, rest) else Failed
  }

  function ReadAttributes(b: Bytes): Got<seq<Attribute>> {
    ReadCounted(ReadAttribute, b)
  }

  function Both<T, U>(r: Bytes -> Got<T>, q: Bytes -> Got<U>, b: Bytes): Got<(T, U)> {
    match r(b)
    case Failed => Failed
    case Got(x, rest) =>
      match q(rest)
      case Failed => Failed
      case Got(y, more) => Got((x, y), more)
  }

  lemma BothRead<T, U>(x: Bytes, y: Bytes, rest: Bytes, r: Bytes -> Got<T>, q: Bytes -> Got<U>, t: T, u: U)
    requires r(x + (y + rest)) == Got(t, y + rest) && q(y + rest) == Got(u, rest)
    ensures Both(r, q, (x + y) + rest) == Got((t, u), rest)
  {
    assert (x + y) + rest == x + (y + rest);
  }
}
