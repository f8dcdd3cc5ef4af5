// Snapshots as bytes: the canonical form of a snapshot, what is written for it, and why the
// bytes are a normal form.

module SnapshotCodec {
  import opened Wrappers
  import opened Model
  import opened Attributes
  import AttributeOrder
  import opened KeySort
  import opened CanonicalLists
  import opened Codec
  import FactDerivation
  import opened FactCodec

  function SymbolKey(n: nat): Key {
    (n, 0)
  }

  // ---- the symbols in use, ascending and each once

  function Used(xs: seq<nat>): seq<nat> {
    if xs == [] then []
    else
      var rest := Used(xs[1..]);
      if xs[0] in rest then rest else Placed(SymbolKey, xs[0], rest)
  }

  function Types(objects: seq<Object>): seq<nat> {
    seq(|objects|, i requires 0 <= i < |objects| => objects[i].typ)
  }

  function Relations(pointers: seq<Pointer>): seq<nat> {
    seq(|pointers|, i requires 0 <= i < |pointers| => pointers[i].relation)
  }

  // A symbol without a name is written with an empty one.
  function Named(names: map<nat, string>, symbol: nat): string {
    if symbol in names then names[symbol] else ""
  }

  function Restricted(names: map<nat, string>, symbols: seq<nat>): map<nat, string> {
    map n | n in symbols :: Named(names, n)
  }

  lemma {:induction false} UsedAscends(xs: seq<nat>)
    ensures SameElements(Used(xs), xs) && |Used(xs)| <= |xs|
    ensures Ascending(SymbolKey, Used(xs))
  {
    hide Ascending;
    if xs == [] {
      ShortAscends(SymbolKey, Used(xs));
    } else {
      assert xs == [xs[0]] + xs[1..];
      var rest := Used(xs[1..]);
      UsedAscends(xs[1..]);
      if xs[0] !in rest {
        PlacedIn(SymbolKey, xs[0], rest);
        forall y ensures y in Used(xs) <==> y in xs {
          assert y in rest + [xs[0]] <==> y in xs;
        }
        PlacedAscends(SymbolKey, xs[0], rest);
      }
    }
  }

  // ---- the canonical form

  function Canonical(s: Snapshot): Snapshot {
    s.(objects := CanonicalObjects(s.objects), pointers := CanonicalPointers(s.pointers),
       typeNames := Restricted(s.typeNames, Types(s.objects)), relationNames :=
         Restricted(s.relationNames, Relations(s.pointers)))
  }

  // ---- bytes

  type Entry = (nat, string)

  function Table(names: map<nat, string>, symbols: seq<nat>): seq<Entry> {
    seq(|symbols|, i requires 0 <= i < |symbols| => (symbols[i], Named(names, symbols[i])))
  }

  // An entry read later does not replace an earlier one.
  function Emplaced(table: seq<Entry>): map<nat, string> {
    if table == [] then map[]
    else
      var (symbol, name) := table[|table| - 1];
      var names := Emplaced(table[..|table| - 1]);
      if symbol in names then names else names[symbol := name]
  }

  function WrittenEntry(e: Entry): Bytes {
    Number(4, e.0) + Text(e.1)
  }

  function ReadEntry(b: Bytes): Got<Entry> {
    match ReadNumber(4, b)
    case Failed => Failed
    case Got(symbol, rest) => Mapped(ReadText(rest), name => (symbol, name))
  }

  const SNAPSHOT_TAG: string := "WorldSnapshot:v2"

  function TypeTable(s: Snapshot): seq<Entry> {
    Table(s.typeNames, Used(Types(s.objects)))
  }

  function RelationTable(s: Snapshot): seq<Entry> {
    Table(s.relationNames, Used(Relations(s.pointers)))
  }

  // What comes before the tables.
  function Preamble(s: Snapshot): Bytes {
    Text(SNAPSHOT_TAG) + (Number(8, s.world) + (Text(s.worldName) + Number(8, s.epoch)))
  }

  function Body(s: Snapshot): Bytes {
    Counted(WrittenEntry, TypeTable(s)) + (Counted(WrittenEntry, RelationTable(s)) +
    (Counted(WrittenObject, CanonicalObjects(s.objects)) + Counted(WrittenPointer, CanonicalPointers(s.pointers))))
  }

  function Written(h: Hasher, s: Snapshot): Bytes {
    Preamble(s) + (Body(s) + Counted(WrittenRecord, Records(h, s)))
  }

  // A snapshot as it is read: with its facts as they were stored.
  datatype Stored = Stored(snapshot: Snapshot, facts: seq<Record>)

  datatype Front = Front(world: nat, worldName: string, epoch: nat)

  function ReadPreamble(b: Bytes): Got<Front> {
    match ReadText(b)
    case Failed => Failed
    case Got(tag, b0) =>
      if tag != SNAPSHOT_TAG then Failed
      else match ReadNumber(8, b0)
        case Failed => Failed
        case Got(world, b1) =>
          match ReadText(b1)
          case Failed => Failed
          case Got(name, b2) => Mapped(ReadNumber(8, b2), (epoch: nat) => Front(world, name, epoch))
  }

  function ReadBody(f: Front, b: Bytes): Got<Snapshot> {
    match ReadCounted(ReadEntry, b)
    case Failed => Failed
    case Got(types, b1) =>
      match ReadCounted(ReadEntry, b1)
      case Failed => Failed
      case Got(relations, b2) =>
        match ReadCounted(ReadObject, b2)
        case Failed => Failed
        case Got(objects, b3) =>
          match ReadCounted(ReadPointer, b3)
          case Failed => Failed
          case Got(pointers, b4) =>
            Got(Snapshot(f.world, f.worldName, f.epoch, objects, pointers, Emplaced(types), Emplaced(relations)), b4)
  }

  function ReadSnapshot(b: Bytes): Got<Stored> {
    match ReadPreamble(b)
    case Failed => Failed
    case Got(front, rest) =>
      match ReadBody(front, rest)
      case Failed => Failed
      case Got(s, more) => Mapped(ReadCounted(ReadRecord, more), facts => Stored(s, facts))
  }

  // ---- the round trip

  // The widths of the fields: what their types allow.
  ghost predicate SnapshotFits(s: Snapshot) {
    && s.world < Size(8) && ByteText(s.worldName) && s.epoch < Size(8)
    && |s.objects| < Size(8) && |s.pointers| < Size(8) && |FactDerivation.FactList(s)| < Size(8)
    && (forall o :: o in s.objects ==> ObjectFits(o))
    && (forall p :: p in s.pointers ==> PointerFits(p))
    && (forall n :: n in s.typeNames ==> ByteText(s.typeNames[n]))
    && (forall n :: n in s.relationNames ==> ByteText(s.relationNames[n]))
  }

  lemma TagFits()
    ensures ByteText(SNAPSHOT_TAG) && ByteText("")
  {
  }

  lemma EntryRead(e: Entry)
    requires e.0 < Size(4) && ByteText(e.1)
    ensures Reads(WrittenEntry, ReadEntry, e)
  {
    hide Number, Text, ReadText, ReadNumber, ByteText, Size;
    forall rest: Bytes ensures ReadEntry(WrittenEntry(e) + rest) == Got(e, rest) {
      assert WrittenEntry(e) + rest == Number(4, e.0) + (Text(e.1) + rest);
      NumberRead(4, e.0, Text(e.1) + rest);
      TextRead(e.1, rest);
    }
  }

  lemma TableRead(names: map<nat, string>, xs: seq<nat>, rest: Bytes)
    requires |xs| < Size(8) && (forall n :: n in xs ==> n < Size(4)) && forall n :: n in names ==> ByteText(names[n])
    ensures ReadCounted(ReadEntry, Counted(WrittenEntry, Table(names, Used(xs))) + rest) ==
            Got(Table(names, Used(xs)), rest)
  {
    TagFits();
    hide ByteText, Size, Reads, Counted, ReadCounted, WrittenEntry, ReadEntry, Used, Ascending;
    UsedAscends(xs);
    forall e | e in Table(names, Used(xs)) ensures Reads(WrittenEntry, ReadEntry, e) {
      assert e.0 in Used(xs);
      EntryRead(e);
    }
    CountedRead(WrittenEntry, ReadEntry, Table(names, Used(xs)), rest);
  }

  lemma {:induction false} TableEmplaced(names: map<nat, string>, symbols: seq<nat>)
    ensures Emplaced(Table(names, symbols)) == Restricted(names, symbols)
  {
    if symbols != [] {
      var init, last := symbols[..|symbols| - 1], symbols[|symbols| - 1];
      assert symbols == init + [last];
      assert Table(names, symbols)[..|symbols| - 1] == Table(names, init);
      TableEmplaced(names, init);
    }
  }

  lemma SortedFits(attributes: seq<Attribute>)
    requires AttributesFit(attributes)
    ensures AttributesFit(Sorted(attributes))
  {
    hide AttributeFits, Sorted;
    AttributeOrder.Listings.SortedSame(attributes);
    var s := Sorted(attributes);
    assert |multiset(s)| == |s| && |multiset(attributes)| == |attributes|;
    forall i | 0 <= i < |s| ensures AttributeFits(s[i]) {
      assert s[i] in multiset(attributes);
    }
  }

  lemma TidyObjectFits(o: Object)
    requires ObjectFits(o)
    ensures ObjectFits(TidyObject(o))
  {
    hide Sorted, AttributesFit, ByteText, Size, IdFits;
    SortedFits(o.attributes);
  }

  lemma CanonicalObjectsRead(objects: seq<Object>, rest: Bytes)
    requires |objects| < Size(8) && forall o :: o in objects ==> ObjectFits(o)
    ensures ReadCounted(ReadObject, Counted(WrittenObject, CanonicalObjects(objects)) + rest) ==
            Got(CanonicalObjects(objects), rest)
  {
    hide Arranged, Ascending, Sorted, AttributesFit, ByteText, Size, Reads, Counted, ReadCounted, WrittenObject,
         ReadObject, IdFits;
    ArrangedSorts(ObjectKey, objects);
    var xs := CanonicalObjects(objects);
    forall o | o in xs ensures Reads(WrittenObject, ReadObject, o) {
      var i :| 0 <= i < |xs| && xs[i] == o;
      var was := Arranged(ObjectKey, objects)[i];
      assert was in Arranged(ObjectKey, objects) && was in objects;
      TidyObjectFits(was);
      ObjectRead(o);
    }
    CountedRead(WrittenObject, ReadObject, xs, rest);
  }

  lemma TidyPointerFits(p: Pointer)
    requires PointerFits(p)
    ensures PointerFits(TidyPointer(p))
  {
    hide Sorted, AttributesFit, ByteText, Size, IdFits;
    SortedFits(p.attributes);
  }

  lemma CanonicalPointersRead(pointers: seq<Pointer>, rest: Bytes)
    requires |pointers| < Size(8) && forall p :: p in pointers ==> PointerFits(p)
    ensures ReadCounted(ReadPointer, Counted(WrittenPointer, CanonicalPointers(pointers)) + rest) ==
            Got(CanonicalPointers(pointers), rest)
  {
    hide Arranged, Ascending, Sorted, AttributesFit, ByteText, Size, Reads, Counted, ReadCounted, WrittenPointer,
         ReadPointer, IdFits;
    ArrangedSorts(PointerKey, pointers);
    var xs := CanonicalPointers(pointers);
    forall p | p in xs ensures Reads(WrittenPointer, ReadPointer, p) {
      var i :| 0 <= i < |xs| && xs[i] == p;
      var was := Arranged(PointerKey, pointers)[i];
      assert was in Arranged(PointerKey, pointers) && was in pointers;
      TidyPointerFits(was);
      PointerRead(p);
    }
    CountedRead(WrittenPointer, ReadPointer, xs, rest);
  }

  lemma PreambleRead(s: Snapshot, rest: Bytes)
    requires SnapshotFits(s)
    ensures ReadPreamble(Preamble(s) + rest) == Got(Front(s.world, s.worldName, s.epoch), rest)
  {
    TagFits();
    hide Number, ReadNumber, Text, ReadText, ByteText, Size;
    var n2 := Number(8, s.epoch) + rest;
    var n1 := Text(s.worldName) + n2;
    var n0 := Number(8, s.world) + n1;
    assert Preamble(s) + rest == Text(SNAPSHOT_TAG) + n0;
    TextRead(SNAPSHOT_TAG, n0);
    NumberRead(8, s.world, n1);
    TextRead(s.worldName, n2);
    NumberRead(8, s.epoch, rest);
  }

  lemma SymbolsFit(s: Snapshot)
    requires SnapshotFits(s)
    ensures forall n :: n in Types(s.objects) ==> n < Size(4)
    ensures forall n :: n in Relations(s.pointers) ==> n < Size(4)
  {
    hide Size, AttributesFit, ByteText, IdFits;
    assert forall i :: 0 <= i < |s.objects| ==> ObjectFits(s.objects[i]);
    assert forall i :: 0 <= i < |s.pointers| ==> PointerFits(s.pointers[i]);
  }

  lemma BodyRead(s: Snapshot, rest: Bytes)
    requires SnapshotFits(s)
    ensures ReadBody(Front(s.world, s.worldName, s.epoch), Body(s) + rest) == Got(Canonical(s), rest)
  {
    hide Counted, ReadCounted, CanonicalObjects, CanonicalPointers, Used, Table, Emplaced, Restricted, Size, ByteText,
         ObjectFits, PointerFits, Ascending;
    var n3 := Counted(WrittenPointer, CanonicalPointers(s.pointers)) + rest;
    var n2 := Counted(WrittenObject, CanonicalObjects(s.objects)) + n3;
    var n1 := Counted(WrittenEntry, RelationTable(s)) + n2;
    assert Body(s) + rest == Counted(WrittenEntry, TypeTable(s)) + n1;
    SymbolsFit(s);
    TableRead(s.typeNames, Types(s.objects), n1);
    TableRead(s.relationNames, Relations(s.pointers), n2);
    CanonicalObjectsRead(s.objects, n3);
    CanonicalPointersRead(s.pointers, rest);
    NamesBack(s.typeNames, Types(s.objects));
    NamesBack(s.relationNames, Relations(s.pointers));
  }

  lemma NamesBack(names: map<nat, string>, xs: seq<nat>)
    ensures Emplaced(Table(names, Used(xs))) == Restricted(names, xs)
  {
    hide Used, Ascending, Emplaced, Table;
    TableEmplaced(names, Used(xs));
    UsedAscends(xs);
  }

  // Reading back what was written gives the canonical form with its facts in order, and
  // nothing of what follows.
  lemma SnapshotRead(h: Hasher, s: Snapshot, rest: Bytes)
    requires Hashing(h) && SnapshotFits(s)
    ensures ReadSnapshot(Written(h, s) + rest) == Got(Stored(Canonical(s), Records(h, s)), rest)
  {
    hide Preamble, Body, ReadPreamble, ReadBody, Canonical, SnapshotFits, Counted, ReadCounted, Records, Hashing;
    var n1 := Counted(WrittenRecord, Records(h, s)) + rest;
    var n0 := Body(s) + n1;
    assert Written(h, s) + rest == Preamble(s) + n0;
    PreambleRead(s, n0);
    BodyRead(s, n1);
    FactsFit(h, s, rest);
  }

  lemma FactsFit(h: Hasher, s: Snapshot, rest: Bytes)
    requires Hashing(h) && SnapshotFits(s)
    ensures ReadCounted(ReadRecord, Counted(WrittenRecord, Records(h, s)) + rest) == Got(Records(h, s), rest)
  {
    hide Counted, ReadCounted, Records, ObjectFits, PointerFits, ByteText, Size, FactDerivation.FactList;
    RecordsRead(h, s, rest);
  }
}
