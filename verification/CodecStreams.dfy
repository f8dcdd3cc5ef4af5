// The writer that appends to its bytes and the reader that advances through them. Each
// operation is tied to the functions of the codec: what is appended is what they give, and
// what is read is what they find in the bytes that are left.

module CodecStreams {
  import opened Wrappers
  import opened Model
  import opened Attributes
  import opened Programs
  import opened KeySort
  import opened CanonicalLists
  import opened Codec
  import opened FactDerivation
  import opened FactCodec
  import opened SnapshotCodec

  // ---- the byte at a position of a number

  lemma DivideTwice(v: nat, n: nat)
    requires n > 0
    ensures v / 256 / n == v / (256 * n)
  {
    var q, r := v / (256 * n), v % (256 * n);
    assert v == 256 * n * q + r;
    Quotient(v, 256, n * q + r / 256, r % 256) by {
      assert 256 * (n * q) == 256 * n * q;
    }
    assert r / 256 < n;
    Quotient(v / 256, n, q, r / 256);
  }

  lemma Quotient(v: nat, n: nat, q: nat, r: nat)
    requires v == n * q + r && r < n
    ensures v / n == q
  {
    var d := v / n - q;
    assert n * d == r - v % n by {
      assert v == n * (v / n) + v % n;
    }
    Scaled(n, d);
  }

  lemma Scaled(n: int, d: int)
    requires n > 0
    ensures d > 0 ==> n * d >= n
    ensures d < 0 ==> n * d <= -n
  {
  }

  lemma {:induction false} NumberAt(width: nat, v: nat, i: nat)
    requires i < width
    ensures Size(width - 1 - i) > 0
    ensures Number(width, v)[i] == v / Size(width - 1 - i) % 256
  {
    SizePositive(width - 1 - i);
    if i < width - 1 {
      NumberAt(width - 1, v / 256, i);
      DivideTwice(v, Size(width - 2 - i));
    }
  }

  lemma {:induction false} SizePositive(width: nat)
    ensures Size(width) > 0
  {
    if width > 0 {
      SizePositive(width - 1);
    }
  }

  // Sorting attributes leaves the head of a pointer alone.
  lemma HeadTidy(p: Pointer)
    ensures PointerHead(TidyPointer(p)) == PointerHead(p)
  {
  }

  class CanonicalWriter {
    var bytes: Bytes

    constructor ()
      ensures bytes == []
    {
      bytes := [];
    }

    // Most significant byte first.
    method BigEndian(v: nat, width: nat)
      modifies this
      ensures bytes == old(bytes) + Number(width, v)
    {
      ghost var start := bytes;
      var shift := width;
      while shift > 0
        invariant 0 <= shift <= width
        invariant bytes == start + Number(width, v)[..width - shift]
      {
        NumberAt(width, v, width - shift);
        bytes := bytes + [v / Size(shift - 1) % 256];
        shift := shift - 1;
      }
    }

    method U8(v: nat)
      modifies this
      ensures bytes == old(bytes) + Number(1, v)
    {
      BigEndian(v, 1);
    }

    method U32(v: nat)
      modifies this
      ensures bytes == old(bytes) + Number(4, v)
    {
      BigEndian(v, 4);
    }

    method U64(v: nat)
      modifies this
      ensures bytes == old(bytes) + Number(8, v)
    {
      BigEndian(v, 8);
    }

    method String(s: string)
      modifies this
      ensures bytes == old(bytes) + Text(s)
    {
      ghost var start := bytes;
      U64(|s|);
      for i := 0 to |s|
        invariant bytes == start + (Number(8, |s|) + Codes(s)[..i])
      {
        bytes := bytes + [s[i] as int % 256];
      }
    }

    method Id(id: ObjectId)
      modifies this
      ensures bytes == old(bytes) + WrittenId(id)
    {
      U32(id.index);
      U32(id.generation);
    }

    method Value(v: Value)
      modifies this
      ensures bytes == old(bytes) + WrittenValue(v)
    {
      hide Number, Text, WrittenId, Unsigned, Kind;
      U8(Kind(v));
      match v
      case Null =>
      case Bool(b) => U8(if b then 1 else 0);
      case Int64(i) => U64(Unsigned(i));
      case UInt64(u) => U64(u);
      case Float64(d) => U64(d);
      case String(s) => String(s);
      case Hash(h) => BigEndian(h, HASH_BYTES);
      case ObjectValue(id) => Id(id);
    }

    method Attribute(a: Attribute)
      modifies this
      ensures bytes == old(bytes) + WrittenAttribute(a)
    {
      hide Text, WrittenValue;
      String(a.key);
      Value(a.value);
    }

    method Attributes(attributes: seq<Attribute>)
      modifies this
      ensures bytes == old(bytes) + Counted(WrittenAttribute, Sorted(attributes))
    {
      hide Number, WrittenAttribute, Sorted;
      ghost var start := bytes;
      var sorted := Sorted(attributes);
      U64(|sorted|);
      for i := 0 to |sorted|
        invariant bytes == start + (Number(8, |sorted|) + Listed(WrittenAttribute, sorted[..i]))
      {
        Attribute(sorted[i]);
        assert sorted[..i + 1][..i] == sorted[..i];
      }
      assert sorted[..|sorted|] == sorted;
    }

    method Expiry(e: Option<nat>)
      modifies this
      ensures bytes == old(bytes) + WrittenExpiry(e)
    {
      hide Number;
      U8(if e.Some? then 1 else 0);
      if e.Some? {
        U64(e.value);
      }
    }

    method Object(o: Object)
      modifies this
      ensures bytes == old(bytes) + WrittenObject(TidyObject(o))
    {
      hide Number, Text, WrittenId, Counted, Sorted;
      Id(o.id);
      String(o.name);
      U32(o.typ);
      U8(ExistenceCode(o.existence));
      Attributes(o.attributes);
      U64(o.incoming);
      U64(o.outgoing);
    }

    method Ends(p: Pointer)
      modifies this
      ensures bytes == old(bytes) + PointerHead(p)
    {
      hide Number, WrittenId;
      U64(p.id);
      Id(p.from);
      Id(p.to);
      U32(p.relation);
      U8(RoleCode(p.role));
    }

    method Pointer(p: Pointer)
      modifies this
      ensures bytes == old(bytes) + WrittenPointer(TidyPointer(p))
    {
      HeadTidy(p);
      hide Number, Text, PointerHead, WrittenExpiry, Counted, Sorted;
      Ends(p);
      U64(p.weight);
      U64(p.bornAt);
      Expiry(p.expiresAt);
      String(p.lawDomain);
      Attributes(p.attributes);
    }

    method Entry(names: map<nat, string>, symbol: nat)
      modifies this
      ensures bytes == old(bytes) + WrittenEntry((symbol, Named(names, symbol)))
    {
      hide Number, Text;
      U32(symbol);
      String(if symbol in names then names[symbol] else "");
    }

    // The symbols are collected first, each once and ascending.
    method Names(names: map<nat, string>, symbols: seq<nat>)
      modifies this
      ensures bytes == old(bytes) + Counted(WrittenEntry, Table(names, Used(symbols)))
    {
      hide Number, WrittenEntry, Used;
      ghost var start := bytes;
      var used := Collect(symbols);
      ghost var table := Table(names, used);
      U64(|used|);
      for i := 0 to |used|
        invariant bytes == start + (Number(8, |table|) + Listed(WrittenEntry, table[..i]))
      {
        Entry(names, used[i]);
        assert table[..i + 1][..i] == table[..i] && table[i] == (used[i], Named(names, used[i]));
      }
      assert table[..|table|] == table;
    }

    method Subject(s: Subject)
      modifies this
      ensures bytes == old(bytes) + WrittenSubject(s)
    {
      hide Number, WrittenId;
      match s
      case ObjectSubject(oid) =>
        U8(0);
        Id(oid);
      case PointerSubject(pid) =>
        U8(1);
        U64(pid);
    }

    method PointerFields(p: Payload)
      requires p.PointerPayload?
      modifies this
      ensures bytes == old(bytes) + PayloadBody(p)
    {
      hide Number, Text, PointerHead, WrittenExpiry;
      Ends(HeadPointer(p));
      U64(p.weight);
      U64(p.bornAt);
      Expiry(p.expiresAt);
      String(p.lawDomain);
    }

    method LawFields(p: Payload)
      requires p.LawPayload?
      modifies this
      ensures bytes == old(bytes) + PayloadBody(p)
    {
      hide Number, Text;
      String(p.law);
      U8(if p.passed then 1 else 0);
      BigEndian(p.input, HASH_BYTES);
      BigEndian(p.output, HASH_BYTES);
    }

    // The fields of a payload, after what says its kind.
    method PayloadFields(p: Payload)
      modifies this
      ensures bytes == old(bytes) + PayloadBody(p)
    {
      hide Number, Text, WrittenId, PointerHead, WrittenExpiry, WrittenSubject, WrittenValue, ExistenceCode;
      match p
      case ObjectPayload(oid, name, typ, existence) =>
        Id(oid);
        String(name);
        U32(typ);
        U8(ExistenceCode(existence));
      case PointerPayload(_, _, _, _, _, _, _, _, _) => PointerFields(p);
      case AttributePayload(subject, key, v) =>
        Subject(subject);
        String(key);
        Value(v);
      case EvidencePayload(evidence, note) =>
        BigEndian(evidence, HASH_BYTES);
        String(note);
      case LawPayload(_, _, _, _) => LawFields(p);
    }

    method Fact(r: Record)
      modifies this
      ensures bytes == old(bytes) + WrittenRecord(r)
    {
      hide Number, WrittenExpiry, PayloadBody, PayloadCode;
      BigEndian(r.id, HASH_BYTES);
      U8(r.kind);
      U64(r.born);
      Expiry(r.expired);
      BigEndian(r.payloadHash, HASH_BYTES);
      U8(PayloadCode(r.payload));
      PayloadFields(r.payload);
    }

    // The facts are derived, made and sorted by id.
    method Facts(h: Hasher, s: Snapshot)
      modifies this
      ensures bytes == old(bytes) + Counted(WrittenRecord, Records(h, s))
    {
      hide Number, WrittenRecord, MakeFact, Arranged, FactList;
      ghost var start := bytes;
      var sorted := MakeRecords(h, s);
      U64(|sorted|);
      for i := 0 to |sorted|
        invariant bytes == start + (Number(8, |sorted|) + Listed(WrittenRecord, sorted[..i]))
      {
        Fact(sorted[i]);
        assert sorted[..i + 1][..i] == sorted[..i];
      }
      assert sorted[..|sorted|] == sorted;
    }

    method Snapshot(h: Hasher, s: Snapshot)
      modifies this
      ensures bytes == old(bytes) + Written(h, s)
    {
      hide Number, Text, Counted, Table, Used, Types, Relations, CanonicalObjects, CanonicalPointers, Records;
      String(SNAPSHOT_TAG);
      U64(s.world);
      String(s.worldName);
      U64(s.epoch);
      assert bytes == old(bytes) + Preamble(s);
      Names(s.typeNames, Types(s.objects));
      Names(s.relationNames, Relations(s.pointers));
      Objects(s.objects);
      Pointers(s.pointers);
      assert bytes == old(bytes) + Preamble(s) + Body(s);
      Facts(h, s);
    }

    method Objects(objects: seq<Object>)
      modifies this
      ensures bytes == old(bytes) + Counted(WrittenObject, CanonicalObjects(objects))
    {
      hide Number, WrittenObject, TidyObject, Arranged;
      ghost var start := bytes;
      var sorted := Arranged(ObjectKey, objects);
      ghost var tidy := CanonicalObjects(objects);
      U64(|sorted|);
      for i := 0 to |sorted|
        invariant bytes == start + (Number(8, |tidy|) + Listed(WrittenObject, tidy[..i]))
      {
        Object(sorted[i]);
        assert tidy[..i + 1][..i] == tidy[..i] && tidy[i] == TidyObject(sorted[i]);
      }
      assert tidy[..|tidy|] == tidy;
    }

    method Pointers(pointers: seq<Pointer>)
      modifies this
      ensures bytes == old(bytes) + Counted(WrittenPointer, CanonicalPointers(pointers))
    {
      hide Number, WrittenPointer, TidyPointer, Arranged;
      ghost var start := bytes;
      var sorted := Arranged(PointerKey, pointers);
      ghost var tidy := CanonicalPointers(pointers);
      U64(|sorted|);
      for i := 0 to |sorted|
        invariant bytes == start + (Number(8, |tidy|) + Listed(WrittenPointer, tidy[..i]))
      {
        Pointer(sorted[i]);
        assert tidy[..i + 1][..i] == tidy[..i] && tidy[i] == TidyPointer(sorted[i]);
      }
      assert tidy[..|tidy|] == tidy;
    }
  }

  // Insertion into an ordered set, one symbol after the other.
  method Collect(symbols: seq<nat>) returns (used: seq<nat>)
    ensures used == Used(symbols)
  {
    hide Used, Ascending;
    used := [];
    ShortAscends(SymbolKey, used);
    for i := 0 to |symbols|
      invariant Ascending(SymbolKey, used) && SameElements(used, symbols[..i])
    {
      assert symbols[..i + 1] == symbols[..i] + [symbols[i]];
      if symbols[i] !in used {
        PlacedIn(SymbolKey, symbols[i], used);
        PlacedAscends(SymbolKey, symbols[i], used);
        used := Placed(SymbolKey, symbols[i], used);
      }
    }
    assert symbols[..|symbols|] == symbols;
    UsedAscends(symbols);
    AscendingUnique(SymbolKey, used, Used(symbols));
  }

  // make_fact: the payload hashed, then the fact over that hash.
  method MakeRecord(h: Hasher, f: Fact) returns (r: Record)
    ensures r == MakeFact(h, f)
  {
    hide Number, Text, PayloadBody, WrittenExpiry, PayloadOf, FactKind, BornOf, ExpiredOf, PayloadTag;
    var payload := PayloadOf(f);
    var content := new CanonicalWriter();
    content.String(PayloadTag(payload));
    content.PayloadFields(payload);
    var payloadHash := h(content.bytes);
    var whole := new CanonicalWriter();
    whole.String(FACT_TAG);
    whole.U8(FactKind(f));
    whole.U64(BornOf(f));
    whole.Expiry(ExpiredOf(f));
    whole.BigEndian(payloadHash, HASH_BYTES);
    assert content.bytes == HashedPayload(payload) && whole.bytes ==
           HashedFact(FactKind(f), BornOf(f), ExpiredOf(f), payloadHash);
    r := FactCodec.Record(h(whole.bytes), FactKind(f), BornOf(f), ExpiredOf(f), payloadHash, payload);
  }

  method MakeRecords(h: Hasher, s: Snapshot) returns (records: seq<Record>)
    ensures records == Records(h, s)
  {
    hide MakeFact, Arranged, FactList;
    var facts := DeriveFacts(s);
    var made: seq<Record> := [];
    ghost var all := Made(h, facts);
    for i := 0 to |facts|
      invariant made == all[..i]
    {
      var record := MakeRecord(h, facts[i]);
      made := made + [record];
    }
    assert made == all;
    records := Arranged(RecordKey, made);
  }

  // ---- reading

  // Once an item is missing the list is.
  lemma {:induction false} ListFails<T>(r: Bytes -> Got<T>, m: nat, n: nat, b: Bytes)
    requires m <= n && ReadListed(r, m, b).Failed?
    ensures ReadListed(r, n, b).Failed?
  {
    if m < n {
      ListFails(r, m, n - 1, b);
    }
  }

  // The reader's exceptions are its empty results.
  class CanonicalReader {
    const bytes: Bytes
    var offset: nat

    constructor (stream: Bytes)
      ensures bytes == stream && offset == 0
    {
      bytes := stream;
      offset := 0;
    }

    ghost predicate Valid()
      reads this
    {
      offset <= |bytes|
    }

    // The bytes not read yet.
    ghost function Left(): Bytes
      requires Valid()
      reads this
    {
      bytes[offset..]
    }

    // What was returned is what was to be found, and the rest is left.
    ghost predicate Took<T>(r: Option<T>, found: Got<T>)
      requires Valid()
      reads this
    {
      match found
      case Failed => r.None?
      case Got(x, rest) => r == Some(x) && Left() == rest
    }

    method Read(count: nat) returns (r: Option<Bytes>)
      requires Valid()
      modifies this`offset
      ensures Valid()
      ensures r.Some? <==> count <= |old(Left())|
      ensures r.Some? ==> r.value == old(Left())[..count] && Left() == old(Left())[count..]
    {
      if count > |bytes| - offset {
        return None;
      }
      r := Some(bytes[offset..offset + count]);
      offset := offset + count;
    }

    method BigEndian(width: nat) returns (r: Option<nat>)
      requires Valid()
      modifies this`offset
      ensures Valid() && Took(r, ReadNumber(width, old(Left())))
    {
      var data := Read(width);
      if data.None? {
        return None;
      }
      var out: nat := 0;
      for i := 0 to |data.value|
        invariant out == ValueOf(data.value[..i])
      {
        out := 256 * out + data.value[i];
        assert data.value[..i + 1][..i] == data.value[..i];
      }
      assert data.value[..|data.value|] == data.value;
      r := Some(out);
    }

    method String() returns (r: Option<string>)
      requires Valid()
      modifies this`offset
      ensures Valid() && Took(r, ReadText(old(Left())))
    {
      hide ReadNumber;
      var size := BigEndian(8);
      if size.None? {
        return None;
      }
      var data := Read(size.value);
      if data.None? {
        return None;
      }
      var out: string := "";
      for i := 0 to |data.value|
        invariant out == Chars(data.value)[..i]
      {
        out := out + [data.value[i] as char];
      }
      assert out == Chars(data.value);
      r := Some(out);
    }

    method Tag(tag: string) returns (ok: bool)
      requires Valid()
      modifies this`offset
      ensures Valid()
      ensures ok <==> ReadText(old(Left())).Got? && ReadText(old(Left())).value == tag
      ensures ok ==> Left() == ReadText(old(Left())).rest
    {
      hide ReadText;
      var text := String();
      ok := text == Some(tag);
    }

    method Id() returns (r: Option<ObjectId>)
      requires Valid()
      modifies this`offset
      ensures Valid() && Took(r, ReadId(old(Left())))
    {
      hide ReadNumber;
      var index := BigEndian(4);
      if index.None? {
        return None;
      }
      var generation := BigEndian(4);
      r := if generation.None? then None else Some(ObjectId(index.value, generation.value));
    }

    method Value() returns (r: Option<Value>)
      requires Valid()
      modifies this`offset
      ensures Valid() && Took(r, ReadValue(old(Left())))
    {
      hide ReadNumber, ReadText, ReadId, Signed;
      var kind := BigEndian(1);
      if kind.None? {
        return None;
      }
      match kind.value
      case 0 => r := Some(Null);
      case 1 =>
        var n := BigEndian(1);
        r := if n.None? then None else Some(Bool(n.value != 0));
      case 2 =>
        var n := BigEndian(8);
        r := if n.None? then None else Some(Int64(Signed(n.value)));
      case 3 =>
        var n := BigEndian(8);
        r := if n.None? then None else Some(UInt64(n.value));
      case 4 =>
        var n := BigEndian(8);
        r := if n.None? then None else Some(Float64(n.value));
      case 5 =>
        var s := String();
        r := if s.None? then None else Some(Model.String(s.value));
      case 6 =>
        var n := BigEndian(HASH_BYTES);
        r := if n.None? then None else Some(Hash(n.value));
      case 7 =>
        var id := Id();
        r := if id.None? then None else Some(ObjectValue(id.value));
      case _ => r := None;
    }

    method Attribute() returns (r: Option<Attribute>)
      requires Valid()
      modifies this`offset
      ensures Valid() && Took(r, ReadAttribute(old(Left())))
    {
      hide ReadText, ReadValue;
      var key := String();
      if key.None? {
        return None;
      }
      var v := Value();
      r := if v.None? then None else Some(Model.Attribute(key.value, v.value));
    }

    method Attributes() returns (r: Option<seq<Attribute>>)
      requires Valid()
      modifies this`offset
      ensures Valid() && Took(r, ReadCounted(ReadAttribute, old(Left())))
    {
      hide ReadNumber, ReadAttribute;
      var count := BigEndian(8);
      if count.None? {
        return None;
      }
      ghost var start := Left();
      var out: seq<Attribute> := [];
      for i := 0 to count.value
        invariant Valid() && ReadListed(ReadAttribute, i, start) == Got(out, Left())
      {
        var x := Attribute();
        if x.None? {
          ListFails(ReadAttribute, i + 1, count.value, start);
          return None;
        }
        out := out + [x.value];
      }
      r := Some(out);
    }

    method Expiry() returns (r: Option<Option<nat>>)
      requires Valid()
      modifies this`offset
      ensures Valid() && Took(r, ReadExpiry(old(Left())))
    {
      hide ReadNumber;
      var flag := BigEndian(1);
      if flag.None? {
        return None;
      }
      if flag.value == 0 {
        return Some(None);
      }
      var at := BigEndian(8);
      r := if at.None? then None else Some(Some(at.value));
    }

    method Object() returns (r: Option<Object>)
      requires Valid()
      modifies this`offset
      ensures Valid() && Took(r, ReadObject(old(Left())))
    {
      hide ReadText, ReadId, ReadObjectTail;
      var id := Id();
      if id.None? {
        return None;
      }
      var name := String();
      if name.None? {
        return None;
      }
      r := ObjectRest(id.value, name.value);
    }

    method ObjectRest(id: ObjectId, name: string) returns (r: Option<Object>)
      requires Valid()
      modifies this`offset
      ensures Valid() && Took(r, ReadObjectTail(id, name, old(Left())))
    {
      hide ReadNumber, ReadCounted, ExistenceOf;
      var typ := BigEndian(4);
      if typ.None? {
        return None;
      }
      var code := BigEndian(1);
      if code.None? {
        return None;
      }
      if ExistenceOf(code.value).None? {
        return None;
      }
      var attributes := Attributes();
      if attributes.None? {
        return None;
      }
      var incoming := BigEndian(8);
      if incoming.None? {
        return None;
      }
      var outgoing := BigEndian(8);
      r := if outgoing.None? then None
           else Some(Model.Object(id, name, typ.value, ExistenceOf(code.value).value, attributes.value, incoming.value,
             outgoing.value));
    }

    method Ends() returns (r: Option<Head>)
      requires Valid()
      modifies this`offset
      ensures Valid() && Took(r, ReadHead(old(Left())))
    {
      hide ReadNumber, ReadId, RoleOf;
      var id := BigEndian(8);
      if id.None? {
        return None;
      }
      var from := Id();
      if from.None? {
        return None;
      }
      var to := Id();
      if to.None? {
        return None;
      }
      var relation := BigEndian(4);
      if relation.None? {
        return None;
      }
      var code := BigEndian(1);
      r := if code.None? || RoleOf(code.value).None? then None
           else Some(Head(id.value, from.value, to.value, relation.value, RoleOf(code.value).value));
    }

    method Pointer() returns (r: Option<Pointer>)
      requires Valid()
      modifies this`offset
      ensures Valid() && Took(r, ReadPointer(old(Left())))
    {
      hide ReadHead, ReadPointerTail;
      var ends := Ends();
      if ends.None? {
        return None;
      }
      r := PointerRest(ends.value);
    }

    method PointerRest(h: Head) returns (r: Option<Pointer>)
      requires Valid()
      modifies this`offset
      ensures Valid() && Took(r, ReadPointerTail(h, old(Left())))
    {
      hide ReadNumber, ReadExpiry, ReadText, ReadCounted;
      var weight := BigEndian(8);
      if weight.None? {
        return None;
      }
      var born := BigEndian(8);
      if born.None? {
        return None;
      }
      var expires := Expiry();
      if expires.None? {
        return None;
      }
      var domain := String();
      if domain.None? {
        return None;
      }
      var attributes := Attributes();
      r := if attributes.None? then None
           else Some(Model.Pointer(h.id, h.from, h.to, h.relation, h.role, weight.value, born.value, expires.value,
                                   domain.value, attributes.value));
    }

    method Objects() returns (r: Option<seq<Object>>)
      requires Valid()
      modifies this`offset
      ensures Valid() && Took(r, ReadCounted(ReadObject, old(Left())))
    {
      hide ReadNumber, ReadObject;
      var count := BigEndian(8);
      if count.None? {
        return None;
      }
      ghost var start := Left();
      var out: seq<Object> := [];
      for i := 0 to count.value
        invariant Valid() && ReadListed(ReadObject, i, start) == Got(out, Left())
      {
        var x := Object();
        if x.None? {
          ListFails(ReadObject, i + 1, count.value, start);
          return None;
        }
        out := out + [x.value];
      }
      r := Some(out);
    }

    method Pointers() returns (r: Option<seq<Pointer>>)
      requires Valid()
      modifies this`offset
      ensures Valid() && Took(r, ReadCounted(ReadPointer, old(Left())))
    {
      hide ReadNumber, ReadPointer;
      var count := BigEndian(8);
      if count.None? {
        return None;
      }
      ghost var start := Left();
      var out: seq<Pointer> := [];
      for i := 0 to count.value
        invariant Valid() && ReadListed(ReadPointer, i, start) == Got(out, Left())
      {
        var x := Pointer();
        if x.None? {
          ListFails(ReadPointer, i + 1, count.value, start);
          return None;
        }
        out := out + [x.value];
      }
      r := Some(out);
    }

    method Entry() returns (r: Option<Entry>)
      requires Valid()
      modifies this`offset
      ensures Valid() && Took(r, ReadEntry(old(Left())))
    {
      hide ReadNumber, ReadText;
      var symbol := BigEndian(4);
      if symbol.None? {
        return None;
      }
      var name := String();
      r := if name.None? then None else Some((symbol.value, name.value));
    }

    // The names are entered in a map as they are read.
    method Names() returns (r: Option<map<nat, string>>)
      requires Valid()
      modifies this`offset
      ensures Valid() && Took(r, Mapped(ReadCounted(ReadEntry, old(Left())), Emplaced))
    {
      hide ReadNumber, ReadEntry;
      var count := BigEndian(8);
      if count.None? {
        return None;
      }
      ghost var start := Left();
      ghost var table: seq<Entry> := [];
      var names: map<nat, string> := map[];
      for i := 0 to count.value
        invariant Valid() && ReadListed(ReadEntry, i, start) == Got(table, Left())
        invariant names == Emplaced(table)
      {
        var x := Entry();
        if x.None? {
          ListFails(ReadEntry, i + 1, count.value, start);
          return None;
        }
        if x.value.0 !in names {
          names := names[x.value.0 := x.value.1];
        }
        assert (table + [x.value])[..|table|] == table;
        table := table + [x.value];
      }
      r := Some(names);
    }

    method Start() returns (r: Option<Front>)
      requires Valid()
      modifies this`offset
      ensures Valid() && Took(r, ReadPreamble(old(Left())))
    {
      hide ReadNumber, ReadText;
      var ok := Tag(SNAPSHOT_TAG);
      if !ok {
        return None;
      }
      var world := BigEndian(8);
      if world.None? {
        return None;
      }
      var name := String();
      if name.None? {
        return None;
      }
      var epoch := BigEndian(8);
      r := if epoch.None? then None else Some(Front(world.value, name.value, epoch.value));
    }

    method Existence() returns (r: Option<Existence>)
      requires Valid()
      modifies this`offset
      ensures Valid() && Took(r, ReadExistence(old(Left())))
    {
      hide ReadNumber, ExistenceOf;
      var code := BigEndian(1);
      r := if code.None? then None else ExistenceOf(code.value);
    }

    method Subject() returns (r: Option<Subject>)
      requires Valid()
      modifies this`offset
      ensures Valid() && Took(r, ReadSubject(old(Left())))
    {
      hide ReadNumber, ReadId;
      var tag := BigEndian(1);
      if tag.None? {
        return None;
      }
      match tag.value
      case 0 =>
        var oid := Id();
        r := if oid.None? then None else Some(ObjectSubject(oid.value));
      case 1 =>
        var pid := BigEndian(8);
        r := if pid.None? then None else Some(PointerSubject(pid.value));
      case _ => r := None;
    }

    method ObjectPayload() returns (r: Option<Payload>)
      requires Valid()
      modifies this`offset
      ensures Valid() && Took(r, ReadObjectPayload(old(Left())))
    {
      hide ReadNumber, ReadId, ReadText, ReadExistence;
      var oid := Id();
      if oid.None? {
        return None;
      }
      var name := String();
      if name.None? {
        return None;
      }
      var typ := BigEndian(4);
      if typ.None? {
        return None;
      }
      var existence := Existence();
      r := if existence.None? then None else Some(FactCodec.ObjectPayload(oid.value, name.value, typ.value,
        existence.value));
    }

    method PointerPayload() returns (r: Option<Payload>)
      requires Valid()
      modifies this`offset
      ensures Valid() && Took(r, ReadPointerPayload(old(Left())))
    {
      hide ReadNumber, ReadHead, ReadText, ReadExpiry;
      var ends := Ends();
      if ends.None? {
        return None;
      }
      var weight := BigEndian(8);
      if weight.None? {
        return None;
      }
      var born := BigEndian(8);
      if born.None? {
        return None;
      }
      var expires := Expiry();
      if expires.None? {
        return None;
      }
      var domain := String();
      var h := ends.value;
      r := if domain.None? then None
           else Some(FactCodec.PointerPayload(h.id, h.from, h.to, h.relation, h.role, weight.value, born.value,
             expires.value, domain.value));
    }

    method AttributePayload() returns (r: Option<Payload>)
      requires Valid()
      modifies this`offset
      ensures Valid() && Took(r, ReadAttributePayload(old(Left())))
    {
      hide ReadSubject, ReadText, ReadValue;
      var subject := Subject();
      if subject.None? {
        return None;
      }
      var key := String();
      if key.None? {
        return None;
      }
      var v := Value();
      r := if v.None? then None else Some(FactCodec.AttributePayload(subject.value, key.value, v.value));
    }

    method EvidencePayload() returns (r: Option<Payload>)
      requires Valid()
      modifies this`offset
      ensures Valid() && Took(r, ReadPayloadBody(3, old(Left())))
    {
      hide ReadNumber, ReadText;
      var evidence := BigEndian(HASH_BYTES);
      if evidence.None? {
        return None;
      }
      var note := String();
      r := if note.None? then None else Some(FactCodec.EvidencePayload(evidence.value, note.value));
    }

    method LawPayload() returns (r: Option<Payload>)
      requires Valid()
      modifies this`offset
      ensures Valid() && Took(r, ReadLawPayload(old(Left())))
    {
      hide ReadNumber, ReadText;
      var law := String();
      if law.None? {
        return None;
      }
      var passed := BigEndian(1);
      if passed.None? {
        return None;
      }
      var input := BigEndian(HASH_BYTES);
      if input.None? {
        return None;
      }
      var output := BigEndian(HASH_BYTES);
      r := if output.None? then None
           else Some(FactCodec.LawPayload(law.value, passed.value != 0, input.value, output.value));
    }

    method Payload() returns (r: Option<Payload>)
      requires Valid()
      modifies this`offset
      ensures Valid() && Took(r, ReadPayload(old(Left())))
    {
      hide ReadNumber, ReadObjectPayload, ReadPointerPayload, ReadAttributePayload, ReadLawPayload, Both;
      var code := BigEndian(1);
      if code.None? {
        return None;
      }
      match code.value
      case 0 => r := ObjectPayload();
      case 1 => r := PointerPayload();
      case 2 => r := AttributePayload();
      case 3 => r := EvidencePayload();
      case 4 => r := LawPayload();
      case _ => r := None;
    }

    method Fact() returns (r: Option<Record>)
      requires Valid()
      modifies this`offset
      ensures Valid() && Took(r, ReadRecord(old(Left())))
    {
      hide ReadNumber, ReadContent;
      var id := BigEndian(HASH_BYTES);
      if id.None? {
        return None;
      }
      var kind := BigEndian(1);
      if kind.None? {
        return None;
      }
      r := FactContent(id.value, kind.value);
    }

    method FactContent(id: nat, kind: nat) returns (r: Option<Record>)
      requires Valid()
      modifies this`offset
      ensures Valid() && Took(r, ReadContent(id, kind, old(Left())))
    {
      hide ReadNumber, ReadExpiry, ReadPayload;
      var born := BigEndian(8);
      if born.None? {
        return None;
      }
      var expired := Expiry();
      if expired.None? {
        return None;
      }
      var payloadHash := BigEndian(HASH_BYTES);
      if payloadHash.None? {
        return None;
      }
      var payload := Payload();
      r := if payload.None? then None
           else Some(FactCodec.Record(id, kind, born.value, expired.value, payloadHash.value, payload.value));
    }

    method Facts() returns (r: Option<seq<Record>>)
      requires Valid()
      modifies this`offset
      ensures Valid() && Took(r, ReadCounted(ReadRecord, old(Left())))
    {
      hide ReadNumber, ReadRecord;
      var count := BigEndian(8);
      if count.None? {
        return None;
      }
      ghost var start := Left();
      var out: seq<Record> := [];
      for i := 0 to count.value
        invariant Valid() && ReadListed(ReadRecord, i, start) == Got(out, Left())
      {
        var x := Fact();
        if x.None? {
          ListFails(ReadRecord, i + 1, count.value, start);
          return None;
        }
        out := out + [x.value];
      }
      r := Some(out);
    }

    method BodyOf(f: Front) returns (r: Option<Snapshot>)
      requires Valid()
      modifies this`offset
      ensures Valid() && Took(r, ReadBody(f, old(Left())))
    {
      hide ReadCounted, Emplaced;
      var types := Names();
      if types.None? {
        return None;
      }
      var relations := Names();
      if relations.None? {
        return None;
      }
      var objects := Objects();
      if objects.None? {
        return None;
      }
      var pointers := Pointers();
      r := if pointers.None? then None
           else Some(Model.Snapshot(f.world, f.worldName, f.epoch, objects.value, pointers.value, types.value,
             relations.value));
    }

    method Snapshot() returns (r: Option<Stored>)
      requires Valid()
      modifies this`offset
      ensures Valid() && Took(r, ReadSnapshot(old(Left())))
    {
      hide ReadPreamble, ReadBody, ReadCounted;
      var front := Start();
      if front.None? {
        return None;
      }
      var s := BodyOf(front.value);
      if s.None? {
        return None;
      }
      var facts := Facts();
      r := if facts.None? then None else Some(Stored(s.value, facts.value));
    }
  }
}
