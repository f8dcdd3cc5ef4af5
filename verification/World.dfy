// The mutable world: an arena of objects, registries, a name map, pointers and an index,
// all updated in place. It executes a delta as the overlay does on its snapshot.

module MutableWorld {
  import opened Wrappers
  import opened Model
  import opened Attributes
  import opened Overlay
  import opened Invariants
  import opened EpochView
  import opened Listings
  import opened Registry
  import opened WorldIndex

  datatype Entry = Entry(id: ObjectId, name: string, typ: nat, existence: Existence, attributes: map<string, Value>)

  datatype Edge = Edge(
    id: nat, from: ObjectId, to: ObjectId, relation: nat, role: Role, weight: Double,
    bornAt: nat, expiresAt: Option<nat>, lawDomain: string, attributes: map<string, Value>)

  // ---- what the snapshot shows of the world's own records

  ghost function EntryView(e: Entry): Object {
    Object(e.id, e.name, e.typ, e.existence, Listing(e.attributes), 0, 0)
  }

  ghost function EntryViews(entries: seq<Entry>): (r: seq<Object>)
    ensures |r| == |entries| && forall i :: 0 <= i < |r| ==> r[i] == EntryView(entries[i])
  {
    seq(|entries|, i requires 0 <= i < |entries| => EntryView(entries[i]))
  }

  ghost function EdgeView(e: Edge): Pointer {
    Pointer(e.id, e.from, e.to, e.relation, e.role, e.weight, e.bornAt, e.expiresAt, e.lawDomain, Listing(e.attributes))
  }

  ghost function EdgeViews(edges: seq<Edge>): (r: seq<Pointer>)
    ensures |r| == |edges| && forall i :: 0 <= i < |r| ==> r[i] == EdgeView(edges[i])
  {
    seq(|edges|, i requires 0 <= i < |edges| => EdgeView(edges[i]))
  }

  // The index of an object is its position; tokens are valid and names given.
  ghost predicate Dense(entries: seq<Entry>) {
    forall i :: 0 <= i < |entries| ==>
        entries[i].id.index == i && entries[i].id.generation != 0 && entries[i].name != ""
  }

  // The name map is the inverse of the arena.
  ghost predicate NamesOk(entries: seq<Entry>, names: map<string, ObjectId>) {
    && (forall i :: 0 <= i < |entries| ==> entries[i].name in names && names[entries[i].name] == entries[i].id)
    && (forall n :: n in names ==> names[n].index < |entries| && entries[names[n].index].name == n)
  }

  predicate Holds(entries: seq<Entry>, id: ObjectId) {
    id.generation != 0 && id.index < |entries| && entries[id.index].id == id
  }

  lemma {:induction false} DenseNext(entries: seq<Entry>)
    requires Dense(entries)
    ensures NextIndex(EntryViews(entries)) == |entries|
  {
    if entries != [] {
      var less := entries[..|entries| - 1];
      DenseNext(less);
      assert EntryViews(entries)[..|entries| - 1] == EntryViews(less);
    }
  }

  lemma DenseFind(entries: seq<Entry>, id: ObjectId)
    requires Dense(entries)
    ensures id in IdSet(EntryViews(entries)) <==> Holds(entries, id)
    ensures FindObject(EntryViews(entries), id) == if Holds(entries, id) then Some(id.index) else None
  {
    var views := EntryViews(entries);
    assert forall i :: 0 <= i < |entries| ==> views[i].id == entries[i].id;
    if Holds(entries, id) {
      assert views[id.index].id == id;
    }
  }

  lemma NamesKnown(entries: seq<Entry>, names: map<string, ObjectId>)
    requires NamesOk(entries, names)
    ensures NameSet(EntryViews(entries)) == names.Keys
  {
    var views := EntryViews(entries);
    forall n | n in names ensures n in NameSet(views) {
      assert views[names[n].index].name == n;
    }
  }

  // ---- edits of a record and of its view

  function EditEntry(e: Entry, op: Op): Entry {
    match op
    case SetObjectType(_, typ) => e.(typ := typ)
    case SetObjectExistence(_, existence) => e.(existence := existence)
    case SetObjectAttribute(_, a) => e.(attributes := e.attributes[a.key := a.value])
    case RemoveObjectAttribute(_, key) => e.(attributes := e.attributes - {key})
    case _ => e
  }

  function EditEdge(e: Edge, op: Op, epoch: nat): Edge {
    match op
    case ExpirePointer(_) => e.(expiresAt := Some(epoch))
    case SetPointerWeight(_, w) => e.(weight := w)
    case SetPointerAttribute(_, a) => e.(attributes := e.attributes[a.key := a.value])
    case RemovePointerAttribute(_, key) => e.(attributes := e.attributes - {key})
    case _ => e
  }

  lemma EntryEdited(entries: seq<Entry>, i: nat, op: Op)
    requires i < |entries| && ObjectOp(op)
    ensures EntryViews(entries[i := EditEntry(entries[i], op)]) ==
            EntryViews(entries)[i := EditObject(EntryViews(entries)[i], op)]
  {
    hide Listing, SetAttribute, RemoveAttribute;
    match op
    case SetObjectAttribute(_, a) => SetListing(entries[i].attributes, a);
    case RemoveObjectAttribute(_, key) => RemoveListing(entries[i].attributes, key);
    case _ =>
  }

  lemma EdgeEdited(edges: seq<Edge>, i: nat, op: Op, epoch: nat)
    requires i < |edges| && PointerOp(op)
    ensures EdgeViews(edges[i := EditEdge(edges[i], op, epoch)]) ==
            EdgeViews(edges)[i := EditPointer(EdgeViews(edges)[i], op, epoch)]
  {
    hide Listing, SetAttribute, RemoveAttribute;
    match op
    case SetPointerAttribute(_, a) => SetListing(edges[i].attributes, a);
    case RemovePointerAttribute(_, key) => RemoveListing(edges[i].attributes, key);
    case _ =>
  }

  lemma EdgeIds(edges: seq<Edge>, other: seq<Edge>)
    requires |edges| == |other| && forall i :: 0 <= i < |edges| ==> edges[i].id == other[i].id
    ensures NextPointer(EdgeViews(edges)) == NextPointer(EdgeViews(other))
  {
    SamePointerIndex(EdgeViews(edges), EdgeViews(other));
  }

  // Regular along the run the overlay makes.
  ghost predicate RegularRun(st: State, ops: Delta)
    decreases |ops|
  {
    ops == [] || (RegularOp(st, ops[0]) && (Step(st, ops[0]).Ok? ==> RegularRun(Step(st, ops[0]).value, ops[1..])))
  }

  lemma {:induction false} RegularView(st: State, ops: Delta, k: nat)
    requires RegularRun(st, ops) && k <= st.snap.epoch
    ensures RegularRun(ViewState(st, k), ops)
    ensures Run(ViewState(st, k), ops) == ViewResult(Run(st, ops), k)
    ensures Run(st, ops).Ok? ==> Run(st, ops).value.snap.epoch == st.snap.epoch
    decreases |ops|
  {
    hide Step, ViewState, View;
    if ops != [] {
      RegularOpView(st, ops[0], k);
      RegularAsserts(st, ops[0]);
      ViewStep(st, ops[0], k);
      if Step(st, ops[0]).Ok? {
        RegularView(Step(st, ops[0]).value, ops[1..], k);
      }
    }
  }

  lemma RegularOpView(st: State, op: Op, k: nat)
    requires RegularOp(st, op)
    ensures RegularOp(ViewState(st, k), op)
  {
    hide RegularIntern;
  }

  lemma RegularAsserts(st: State, op: Op)
    requires RegularOp(st, op)
    ensures !op.AssertFact?
  {
  }

  // A snapshot and the same one recounted go through a delta alike.
  lemma RunRecounted(s: Snapshot, delta: Delta)
    requires WellFormed(s) && BareAll(s.objects) == s.objects && RegularRun(Start(Recount(s)), delta)
    ensures ViewState(Start(Recount(s)), s.epoch + 1) == Start(s)
    ensures Run(Start(s), delta).Ok? <==> Apply(Recount(s), delta).Ok?
    ensures Run(Start(s), delta).Ok? ==> Apply(Recount(s), delta) == Ok(Recount(Run(Start(s), delta).value.snap))
  {
    hide Run, Step, Counted, WellFormed, RegularRun;
    var k, counted := s.epoch + 1, Start(Recount(s));
    BareRecount(s);
    WellFormedTimely(s);
    TimelyClamp(s, k);
    assert ViewState(counted, k) == Start(s);
    RegularView(counted, delta, k);
    var r := Run(counted, delta);
    if r.Ok? {
      RecountWell(s);
      StartKeeps(Recount(s));
      RunKeeps(counted, delta);
      var end := r.value.snap;
      StateTimely(r.value);
      RecountView(end, k);
      TimelyRecount(end);
      ClampIdle(Recount(end));
    }
  }

  lemma BareRecount(s: Snapshot)
    requires BareAll(s.objects) == s.objects
    ensures BareAll(Recount(s).objects) == s.objects
  {
    hide FindObject, Incoming, Outgoing;
    forall i | 0 <= i < |s.objects| ensures Bare(Recount(s).objects[i]) == s.objects[i] {
      assert s.objects[i] == BareAll(s.objects)[i];
    }
  }

  lemma TimelyClamp(s: Snapshot, k: nat)
    requires Timely(s) && s.epoch <= k
    ensures ClampPointers(s.pointers, k) == s.pointers
  {
    forall i | 0 <= i < |s.pointers| ensures ClampPointer(s.pointers[i], k) == s.pointers[i] {
    }
  }

  lemma RecountWell(s: Snapshot)
    requires WellFormed(s)
    ensures WellFormed(Recount(s))
  {
    RecountKeeps(s);
  }

  lemma StateTimely(st: State)
    requires StateOk(st)
    ensures Timely(st.snap)
  {
    WellFormedTimely(st.snap);
  }

  lemma TimelyRecount(s: Snapshot)
    requires Timely(s)
    ensures Timely(Recount(s))
  {
  }

  class ObjectArena {
    var objects: seq<Entry>

    constructor ()
      ensures objects == []
    {
      objects := [];
    }

    predicate Contains(id: ObjectId)
      reads this
    {
      Holds(objects, id)
    }

    method Create(name: string, typ: nat, existence: Existence) returns (r: Result<ObjectId, WorldError>)
      modifies this
      ensures r.Ok? <==> name != "" && typ != 0
      ensures r.Ok? ==>
                r.value == ObjectId(|old(objects)|, 1) &&
                objects == old(objects) + [Entry(r.value, name, typ, existence, map[])]
      ensures r.Err? ==> objects == old(objects)
    {
      if name == "" {
        return Err(EmptyName);
      }
      if typ == 0 {
        return Err(InvalidSymbolId);
      }
      var id := ObjectId(|objects|, 1);
      objects := objects + [Entry(id, name, typ, existence, map[])];
      r := Ok(id);
    }

    method SetExistence(id: ObjectId, existence: Existence)
      requires Contains(id)
      modifies this
      ensures objects == old(objects)[id.index := old(objects)[id.index].(existence := existence)]
    {
      objects := objects[id.index := objects[id.index].(existence := existence)];
    }

    method SetType(id: ObjectId, typ: nat) returns (r: Result<(), WorldError>)
      requires Contains(id)
      modifies this
      ensures r.Ok? <==> typ != 0
      ensures objects == if r.Ok? then old(objects)[id.index := old(objects)[id.index].(typ := typ)] else old(objects)
    {
      if typ == 0 {
        return Err(InvalidSymbolId);
      }
      objects := objects[id.index := objects[id.index].(typ := typ)];
      r := Ok(());
    }

    // The object is handed out by reference; only its attributes are changed through it.
    method PutAttributes(id: ObjectId, attributes: map<string, Value>)
      requires Contains(id)
      modifies this
      ensures objects == old(objects)[id.index := old(objects)[id.index].(attributes := attributes)]
    {
      objects := objects[id.index := objects[id.index].(attributes := attributes)];
    }
  }

  // Assigning a create's attributes one by one.
  method AssignAttributes(attributes: seq<Attribute>) returns (m: map<string, Value>)
    ensures m == Assigned(map[], attributes)
  {
    m := map[];
    for i := 0 to |attributes|
      invariant m == Assigned(map[], attributes[..i])
    {
      assert attributes[..i + 1][..i] == attributes[..i];
      m := m[attributes[i].key := attributes[i].value];
    }
    assert attributes[..|attributes|] == attributes;
  }

  method EditedEdge(edge: Edge, op: Op, epoch: nat) returns (e: Edge)
    requires PointerOp(op)
    ensures e == EditEdge(edge, op, epoch)
  {
    e := edge;
    match op {
    case ExpirePointer(_) => e := e.(expiresAt := Some(epoch));
    case SetPointerWeight(_, w) => e := e.(weight := w);
    case SetPointerAttribute(_, a) => e := e.(attributes := e.attributes[a.key := a.value]);
    case RemovePointerAttribute(_, key) => e := e.(attributes := e.attributes - {key});
    case _ =>
    }
  }

  // An operation the world and the overlay treat alike: interns are regular, new objects
  // have a name, and no attribute key is given twice. Fact assertions are left out: the two
  // look at different epochs.
  ghost predicate RegularOp(st: State, op: Op) {
    match op
    case InternType(name, symbol) => RegularIntern(st.snap.typeNames, symbol, name)
    case InternRelation(name, symbol) => RegularIntern(st.snap.relationNames, symbol, name)
    case CreateObject(_, name, _, _, attributes) => name != "" && UniqueKeys(attributes)
    case CreatePointer(_, _, _, _, _, _, attributes) => UniqueKeys(attributes)
    case AssertFact(_) => false
    case _ => true
  }

  // A create, on the arena and on what it shows.
  lemma Created(st: State, entries: seq<Entry>, names: map<string, ObjectId>, op: Op, e: Entry)
    requires op.CreateObject? && op.name != "" && UniqueKeys(op.attributes)
    requires st.snap.objects == EntryViews(entries) && Dense(entries) && NamesOk(entries, names) && op.name !in names
    requires e == Entry(ObjectId(|entries|, 1), op.name, op.typ, op.existence, Assigned(map[], op.attributes))
    ensures EntryViews(entries + [e]) == st.snap.objects + [NewObject(st, op)] && NewObject(st, op).id == e.id
    ensures Dense(entries + [e]) && NamesOk(entries + [e], names[op.name := e.id])
  {
    hide Listing, Sorted, Assigned, NextIndex;
    AssignAgrees(op.attributes);
    DenseNext(entries);
    assert EntryView(e) == NewObject(st, op);
    assert EntryViews(entries + [e]) == EntryViews(entries) + [EntryView(e)];
  }

  // When the overlay accepts a create.
  lemma CreateAccepted(st: State, entries: seq<Entry>, names: map<string, ObjectId>, types: seq<string>, op: Op)
    requires op.CreateObject? && st.snap.objects == EntryViews(entries) && NamesOk(entries, names)
    requires Full(types) && st.snap.typeNames == Table(types)
    ensures Step(st, op).Ok? <==> op.temp != 0 && op.temp !in st.temps && op.name !in names && 1 <= op.typ <= |types|
    ensures Step(st, op).Ok? ==>
              Step(st, op).value == State(st.snap.(objects := st.snap.objects + [NewObject(st, op)]),
                                          st.temps[op.temp := NewObject(st, op).id])
  {
    hide EntryViews, Table, Sorted, NextIndex;
    NamesKnown(entries, names);
    TableOk(types);
  }

  // When the overlay accepts an operation on an object, and what it leaves.
  lemma ObjectAccepted(st: State, entries: seq<Entry>, types: seq<string>, op: Op)
    requires ObjectOp(op) && StateOk(st) && st.snap.objects == EntryViews(entries) && Dense(entries)
    requires Full(types) && st.snap.typeNames == Table(types)
    ensures Step(st, op).Ok? <==> (op.SetObjectType? ==> 1 <= op.typ <= |types|) && Resolve(st, op.target).Some?
    ensures Resolve(st, op.target).Some? ==>
              var id := Resolve(st, op.target).value; Holds(entries, id) && 1 <= entries[id.index].typ <= |types|
    ensures Step(st, op).Ok? ==>
              var i := Resolve(st, op.target).value.index;
              Step(st, op).value == st.(snap := st.snap.(objects :=
                EntryViews(entries[i := EditEntry(entries[i], op)])))
  {
    hide EntryViews, Table, Dense, FindObject, EditObject, EditEntry, Full, ObjectsOk, PointersOk, SymbolsOk, IdSet;
    TableOk(types);
    if Resolve(st, op.target).Some? {
      var id := Resolve(st, op.target).value;
      DenseFind(entries, id);
      assert Holds(entries, id);
      TypeShown(st.snap, entries, id.index);
      if Step(st, op).Ok? {
        EntryEdited(entries, id.index, op);
      }
    }
  }

  lemma PointerAccepted(st: State, edges: seq<Edge>, op: Op)
    requires PointerOp(op) && st.snap.pointers == EdgeViews(edges)
    ensures Step(st, op).Ok? <==> FindPointer(st.snap.pointers, op.pointer).Some?
    ensures Step(st, op).Ok? ==>
              var i := FindPointer(st.snap.pointers, op.pointer).value;
              i < |edges| &&
              var after := EdgeViews(edges[i := EditEdge(edges[i], op, st.snap.epoch)]);
              Step(st, op).value == st.(snap := st.snap.(pointers := after)) &&
                NextPointer(after) == NextPointer(st.snap.pointers)
  {
    hide EdgeViews, FindPointer, NextPointer, EditPointer;
    if Step(st, op).Ok? {
      var i := FindPointer(st.snap.pointers, op.pointer).value;
      EdgeEdited(edges, i, op, st.snap.epoch);
      assert EditEdge(edges[i], op, st.snap.epoch).id == edges[i].id;
      EdgeIds(edges, edges[i := EditEdge(edges[i], op, st.snap.epoch)]);
    }
  }

  lemma TypeShown(s: Snapshot, entries: seq<Entry>, i: nat)
    requires WellFormed(s) && s.objects == EntryViews(entries) && i < |entries|
    ensures HasSymbol(s.typeNames, entries[i].typ)
  {
    hide Listing;
    assert s.objects[i] == EntryView(entries[i]);
  }

  lemma EntryKept(entries: seq<Entry>, names: map<string, ObjectId>, i: nat, op: Op)
    requires i < |entries| && Dense(entries) && NamesOk(entries, names)
    ensures Dense(entries[i := EditEntry(entries[i], op)]) && NamesOk(entries[i := EditEntry(entries[i], op)], names)
  {
  }

  lemma EdgeAt(edges: seq<Edge>, pointer: nat, i: nat)
    requires i < |edges| && edges[i].id == pointer && forall j :: 0 <= j < i ==> edges[j].id != pointer
    ensures FindPointer(EdgeViews(edges), pointer) == Some(i)
  {
    hide Listing, FindPointer;
    assert EdgeViews(edges)[i].id == pointer;
    assert forall j :: 0 <= j < i ==> EdgeViews(edges)[j].id != pointer;
  }

  lemma EdgeNowhere(edges: seq<Edge>, pointer: nat)
    requires forall j :: 0 <= j < |edges| ==> edges[j].id != pointer
    ensures FindPointer(EdgeViews(edges), pointer) == None
  {
    hide Listing;
    assert forall j :: 0 <= j < |edges| ==> EdgeViews(edges)[j].id != pointer;
  }

  lemma NothingShown(world: nat, name: string)
    ensures EntryViews([]) == [] && EdgeViews([]) == [] && Table([]) == map[] && NextPointer([]) == 1
    ensures var s := Snapshot(world, name, 0, [], [], map[], map[]); WellFormed(s) && Recount(s) == s
    ensures forall id :: OutIds([], 0, id) == InIds([], 0, id) == []
    ensures forall r: nat :: RelationIds([], 0, r) == []
    ensures Ascending([]) == []
  {
  }

  // ---- loading a snapshot

  // A table without gaps.
  ghost predicate UpTo(table: map<nat, string>, n: nat) {
    forall k: nat :: k in table <==> 1 <= k <= n
  }

  ghost predicate Gapless(table: map<nat, string>) {
    exists n: nat :: UpTo(table, n)
  }

  // What a world can show: a well-formed snapshot with objects at their index, named worlds
  // and objects, tables without gaps, and attributes sorted by distinct keys.
  ghost predicate Loadable(s: Snapshot) {
    && WellFormed(s) && s.worldName != "" && Gapless(s.typeNames) && Gapless(s.relationNames)
    && (forall i :: 0 <= i < |s.objects| ==>
          s.objects[i].id.index == i && s.objects[i].name != "" && KeySorted(s.objects[i].attributes))
    && (forall i :: 0 <= i < |s.pointers| ==> KeySorted(s.pointers[i].attributes))
  }

  lemma TableRestored(names: seq<string>, table: map<nat, string>)
    requires SymbolsOk(table) && Restored(names, table, {}) && (forall k :: k in table ==> k <= |names|)
    requires (|names| == 0 || |names| in table) && Gapless(table)
    ensures Full(names) && Table(names) == table
  {
    var n: nat :| UpTo(table, n);
    assert n > 0 ==> n in table;
    forall i | 0 <= i < |names| ensures i + 1 in table && names[i] == table[i + 1] {
    }
    assert Table(names) == table;
  }

  // Entries are inserted where a key is new; the first of a repeated key stays.
  method LoadAttributes(attributes: seq<Attribute>) returns (m: map<string, Value>)
    ensures KeySorted(attributes) ==> Listing(m) == attributes
  {
    hide KeySorted, Listing, UniqueKeys, Assigned;
    m := map[];
    AssignNone(attributes);
    for i := 0 to |attributes|
      invariant UniqueKeys(attributes) ==> m == Assigned(map[], attributes[..i])
    {
      if UniqueKeys(attributes) {
        AssignFresh(attributes, i);
      }
      if attributes[i].key !in m {
        m := m[attributes[i].key := attributes[i].value];
      }
    }
    assert attributes[..|attributes|] == attributes;
    if KeySorted(attributes) {
      KeysUnique(attributes);
      AssignedLists(attributes);
      IsListing(attributes, m);
    }
  }

  lemma AssignNone(s: seq<Attribute>)
    ensures Assigned(map[], s[..0]) == map[]
  {
  }

  lemma AssignFresh(s: seq<Attribute>, i: nat)
    requires UniqueKeys(s) && i < |s|
    ensures s[i].key !in Assigned(map[], s[..i])
    ensures Assigned(map[], s[..i + 1]) == Assigned(map[], s[..i])[s[i].key := s[i].value]
  {
    AssignedLists(s[..i]);
    assert s[..i + 1][..i] == s[..i];
  }

  ghost predicate ObjectsLoadable(objects: seq<Object>) {
    && (forall i :: 0 <= i < |objects| ==>
          objects[i].id.index == i && objects[i].id.generation != 0 && objects[i].name != "" &&
            KeySorted(objects[i].attributes))
    && (forall i, j :: 0 <= i < j < |objects| ==> objects[i].name != objects[j].name)
  }

  // One more object loaded.
  lemma LoadedOne(objects: seq<Object>, entries: seq<Entry>, names: map<string, ObjectId>, i: nat, e: Entry)
    requires i < |objects| && ObjectsLoadable(objects)
    requires EntryViews(entries) == BareAll(objects[..i]) && Dense(entries) && NamesOk(entries, names)
    requires EntryView(e) == Bare(objects[i])
    ensures EntryViews(entries + [e]) == BareAll(objects[..i + 1]) && Dense(entries + [e])
    ensures e.name !in names && NamesOk(entries + [e], names[e.name := e.id])
  {
    hide Listing, KeySorted;
    assert |entries| == i;
    assert forall k :: 0 <= k < i ==> EntryViews(entries)[k].name == entries[k].name == objects[k].name;
    assert EntryViews(entries + [e]) == EntryViews(entries) + [EntryView(e)];
    assert BareAll(objects[..i + 1]) == BareAll(objects[..i]) + [Bare(objects[i])];
  }

  method LoadObjects(objects: seq<Object>) returns (entries: seq<Entry>, names: map<string, ObjectId>)
    ensures ObjectsLoadable(objects) ==>
              EntryViews(entries) == BareAll(objects) && Dense(entries) && NamesOk(entries, names)
  {
    hide EntryViews, BareAll, Dense, NamesOk, EntryView, Bare, Listing, KeySorted;
    entries, names := [], map[];
    LoadedNone(objects);
    for i := 0 to |objects|
      invariant ObjectsLoadable(objects) ==>
                  EntryViews(entries) == BareAll(objects[..i]) && Dense(entries) && NamesOk(entries, names)
    {
      var o := objects[i];
      var attributes := LoadAttributes(o.attributes);
      var e := Entry(o.id, o.name, o.typ, o.existence, attributes);
      if ObjectsLoadable(objects) {
        EntryLoaded(o, e);
        LoadedOne(objects, entries, names, i, e);
      }
      entries := entries + [e];
      if e.name !in names {
        names := names[e.name := e.id];
      }
    }
    assert objects[..|objects|] == objects;
  }

  lemma EntryLoaded(o: Object, e: Entry)
    requires e == Entry(o.id, o.name, o.typ, o.existence, e.attributes) && Listing(e.attributes) == o.attributes
    ensures EntryView(e) == Bare(o)
  {
  }

  lemma LoadedNone(objects: seq<Object>)
    ensures EntryViews([]) == BareAll(objects[..0]) && Dense([]) && NamesOk([], map[])
  {
  }

  ghost predicate PointersLoadable(pointers: seq<Pointer>) {
    forall i :: 0 <= i < |pointers| ==> KeySorted(pointers[i].attributes)
  }

  method LoadPointers(pointers: seq<Pointer>) returns (edges: seq<Edge>, next: nat)
    ensures PointersLoadable(pointers) ==> EdgeViews(edges) == pointers
    ensures next == NextPointer(pointers)
  {
    hide EdgeViews, EdgeView, Listing, KeySorted;
    edges, next := [], 1;
    EdgesNone(edges);
    for i := 0 to |pointers|
      invariant PointersLoadable(pointers) ==> EdgeViews(edges) == pointers[..i]
      invariant next == NextPointer(pointers[..i])
    {
      var p := pointers[i];
      var attributes := LoadAttributes(p.attributes);
      var e := Edge(p.id, p.from, p.to, p.relation, p.role, p.weight, p.bornAt, p.expiresAt, p.lawDomain, attributes);
      if PointersLoadable(pointers) {
        EdgeIs(e);
        EdgePushedTo(edges, e);
      }
      assert pointers[..i + 1][..i] == pointers[..i];
      next := Max(next, p.id + 1);
      edges := edges + [e];
    }
    assert pointers[..|pointers|] == pointers;
  }

  lemma EdgePushedTo(edges: seq<Edge>, e: Edge)
    ensures EdgeViews(edges + [e]) == EdgeViews(edges) + [EdgeView(e)]
  {
    hide EdgeView;
  }

  // Sorting by id.
  function PlaceEntry(entries: seq<Entry>, e: Entry): seq<Entry> {
    if entries == [] then [e]
    else
      var last := entries[|entries| - 1];
      if e.id.index < last.id.index || (e.id.index == last.id.index && e.id.generation < last.id.generation)
      then PlaceEntry(entries[..|entries| - 1], e) + [last]
      else entries + [e]
  }

  function SortById(entries: seq<Entry>): seq<Entry> {
    if entries == [] then [] else PlaceEntry(SortById(entries[..|entries| - 1]), entries[|entries| - 1])
  }

  lemma {:induction false} SortDense(entries: seq<Entry>)
    requires Dense(entries)
    ensures SortById(entries) == entries
  {
    if entries != [] {
      SortDense(entries[..|entries| - 1]);
      assert entries == entries[..|entries| - 1] + [entries[|entries| - 1]];
    }
  }

  // The snapshot without its counts.
  function Bared(s: Snapshot): Snapshot {
    s.(objects := BareAll(s.objects))
  }

  lemma Loaded(s: Snapshot)
    requires Loadable(s)
    ensures ObjectsLoadable(s.objects) && PointersLoadable(s.pointers) && Gapless(s.typeNames) &&
            Gapless(s.relationNames)
    ensures s.worldName != "" && WellFormed(Bared(s)) && Recount(Bared(s)) == Recount(s)
  {
    hide KeySorted;
    BareSame(s.objects);
    WellFormedTimely(s);
    TimelyClamp(s, s.epoch);
    RecountView(s, s.epoch);
    TimelyRecount(s);
    ClampIdle(Recount(s));
    assert View(s, s.epoch) == Bared(s);
    forall i | 0 <= i < |s.pointers| ensures PointerOk(s.pointers[i], IdSet(BareAll(s.objects)), s.relationNames,
      s.epoch) {
      assert PointerOk(s.pointers[i], IdSet(s.objects), s.relationNames, s.epoch);
    }
  }

  // What a world shows can be loaded again.
  lemma ShownLoads(s: Snapshot, entries: seq<Entry>, edges: seq<Edge>, types: seq<string>, relations: seq<string>)
    requires WellFormed(s) && s.objects == EntryViews(entries) && s.pointers == EdgeViews(edges) && Dense(entries)
    requires s.typeNames == Table(types) && s.relationNames == Table(relations) && s.worldName != ""
    ensures Loadable(Recount(s)) && Recount(Recount(s)) == Recount(s)
  {
    hide Listing, KeySorted, FindObject, Counted;
    var r := Recount(s);
    RecountWell(s);
    CountedLoads(s, entries);
    assert UpTo(s.typeNames, |types|) && UpTo(s.relationNames, |relations|);
    forall i | 0 <= i < |r.pointers| ensures KeySorted(r.pointers[i].attributes) {
      assert r.pointers[i] == EdgeView(edges[i]);
    }
    RecountTwice(s);
  }

  lemma CountedLoads(s: Snapshot, entries: seq<Entry>)
    requires s.objects == EntryViews(entries) && Dense(entries)
    ensures forall i :: 0 <= i < |s.objects| ==> var o := Recount(s).objects[i];
              o.id.index == i && o.name != "" && KeySorted(o.attributes)
  {
    hide KeySorted, FindObject, Incoming, Outgoing;
    forall i | 0 <= i < |s.objects|
      ensures var o := Recount(s).objects[i]; o.id.index == i && o.name != "" && KeySorted(o.attributes)
    {
      assert s.objects[i] == EntryView(entries[i]);
    }
  }

  lemma RecountTwice(s: Snapshot)
    ensures Recount(Recount(s)) == Recount(s)
  {
    hide FindObject, Incoming, Outgoing;
    var once := Recount(s);
    forall i | 0 <= i < |s.objects| ensures Counted(once.objects, s.pointers, s.epoch, i) ==
      Counted(s.objects, s.pointers, s.epoch, i) {
      SameFinds(s.objects, once.objects, s.objects[i].id);
    }
  }

  lemma SameFinds(a: seq<Object>, b: seq<Object>, id: ObjectId)
    requires |a| == |b| && forall i :: 0 <= i < |a| ==> a[i].id == b[i].id
    ensures FindObject(a, id) == FindObject(b, id)
  {
    assert Ids(a) == Ids(b);
  }

  // Everything loaded, as the world's own state.
  lemma LoadedAll(s: Snapshot, types: seq<string>, relations: seq<string>, entries: seq<Entry>, names: map<string,
                  ObjectId>,
                  edges: seq<Edge>, next: nat)
    requires SymbolsOk(s.typeNames) && Restored(types, s.typeNames, {}) &&
             (forall k :: k in s.typeNames ==> k <= |types|)
    requires |types| == 0 || |types| in s.typeNames
    requires SymbolsOk(s.relationNames) && Restored(relations, s.relationNames, {}) &&
             (forall k :: k in s.relationNames ==> k <= |relations|)
    requires |relations| == 0 || |relations| in s.relationNames
    requires ObjectsLoadable(s.objects) ==>
               EntryViews(entries) == BareAll(s.objects) && Dense(entries) && NamesOk(entries, names)
    requires (PointersLoadable(s.pointers) ==> EdgeViews(edges) == s.pointers) && next == NextPointer(s.pointers)
    ensures Loadable(s) ==>
              && s.worldName != "" && Full(types) && Full(relations) && SortById(entries) == entries
              && Dense(entries) && NamesOk(entries, names) && next == NextPointer(EdgeViews(edges))
              && var shown := Model.Snapshot(s.world, s.worldName, s.epoch, EntryViews(entries), EdgeViews(edges),
                Table(types), Table(relations));
                 WellFormed(shown) && Recount(shown) == Recount(s)
  {
    hide Recount, WellFormed, Restored, SymbolsOk, Full, Table, Dense, NamesOk, EntryViews, EdgeViews, SortById,
         NextPointer, BareAll;
    if Loadable(s) {
      Loaded(s);
      TableRestored(types, s.typeNames);
      TableRestored(relations, s.relationNames);
      SortDense(entries);
    }
  }

  class World {
    const id: nat
    const name: string
    var epoch: nat
    const types: SymbolRegistry
    const relations: SymbolRegistry
    const arena: ObjectArena
    const index: PointerIndex
    var objectNames: map<string, ObjectId>
    var pointers: seq<Edge>
    var nextPointerId: nat

    // The world as a snapshot without counts, at an epoch.
    ghost function Shown(at: nat): Snapshot
      reads `pointers, types, relations, arena
    {
      Model.Snapshot(id, name, at, EntryViews(arena.objects), EdgeViews(pointers), Table(types.names),
        Table(relations.names))
    }

    // The overlay's state that the world stands for while it executes a delta.
    ghost function Mid(temps: map<nat, ObjectId>): State
      reads this, types, relations, arena
    {
      State(Shown(epoch + 1), temps)
    }

    // What every operation keeps.
    ghost predicate Struct()
      reads `objectNames, `pointers, `nextPointerId, types, relations, arena
    {
      && types != relations && types.Valid() && relations.Valid() && Full(types.names) && Full(relations.names)
      && Dense(arena.objects) && NamesOk(arena.objects, objectNames)
      && nextPointerId == NextPointer(EdgeViews(pointers))
    }

    ghost predicate Valid()
      reads this, types, relations, arena, index
    {
      Struct() && WellFormed(Shown(epoch)) && index.Agrees(EdgeViews(pointers), epoch)
    }

    // The snapshot the world stands for between deltas.
    ghost function Abstract(): Snapshot
      reads this, types, relations, arena
    {
      Recount(Shown(epoch))
    }

    constructor (worldName: string, worldId: nat)
      ensures Valid() && fresh(types) && fresh(relations) && fresh(arena) && fresh(index)
      ensures Abstract() == Model.Snapshot(worldId, if worldName == "" then "world"
              else worldName, 0, [], [], map[], map[])
    {
      hide EntryViews, EdgeViews, Table, WellFormed, Recount, OutIds, InIds, RelationIds, Ascending, NextPointer;
      id := worldId;
      name := if worldName == "" then "world" else worldName;
      epoch := 0;
      types := new SymbolRegistry();
      relations := new SymbolRegistry();
      arena := new ObjectArena();
      index := new PointerIndex();
      objectNames := map[];
      pointers := [];
      nextPointerId := 1;
      new;
      NothingShown(id, name);
    }

    // The world of a snapshot. Of a loadable one it shows exactly that snapshot.
    constructor FromSnapshot(s: Snapshot)
      requires SymbolsOk(s.typeNames) && SymbolsOk(s.relationNames)
      ensures fresh(types) && fresh(relations) && fresh(arena) && fresh(index)
      ensures Loadable(s) ==> Valid() && Abstract() == Recount(s)
    {
      hide WellFormed, Recount, Loadable, EntryViews, EdgeViews, SymbolsOk, Struct, Shown;
      id := s.world;
      name := if s.worldName == "" then "world" else s.worldName;
      epoch := s.epoch;
      types := new SymbolRegistry();
      relations := new SymbolRegistry();
      arena := new ObjectArena();
      index := new PointerIndex();
      objectNames := map[];
      pointers := [];
      nextPointerId := 1;
      new;
      Load(s);
    }

    // Fills a new world from a snapshot.
    method Load(s: Snapshot)
      requires types != relations && SymbolsOk(s.typeNames) && SymbolsOk(s.relationNames)
      requires id == s.world && (s.worldName != "" ==> name == s.worldName) && epoch == s.epoch
      modifies types, relations, arena, index, `objectNames, `pointers, `nextPointerId
      ensures Loadable(s) ==> Valid() && Abstract() == Recount(s)
    {
      hide WellFormed, Recount, Loadable, EntryViews, EdgeViews, Table, Inverse, Full, Dense, NamesOk, Restored,
           SymbolsOk, NextPointer, SortById,
        ObjectsLoadable, PointersLoadable, BareAll;
      types.RestoreNames(s.typeNames);
      relations.RestoreNames(s.relationNames);
      var entries, names := LoadObjects(s.objects);
      objectNames := names;
      arena.objects := SortById(entries);
      var edges, next := LoadPointers(s.pointers);
      pointers := edges;
      nextPointerId := next;
      LoadedAll(s, types.names, relations.names, entries, names, edges, next);
      RebuildIndex();
    }

    // Loading what the world shows gives a world that shows the same.
    lemma Reloads()
      requires Valid() && name != ""
      ensures Loadable(Abstract()) && Recount(Abstract()) == Abstract()
    {
      ShownLoads(Shown(epoch), arena.objects, pointers, types.names, relations.names);
    }

    // ---- lookups

    method ResolveObject(ref: Ref, temps: map<nat, ObjectId>) returns (r: Result<ObjectId, WorldError>)
      requires Struct()
      ensures r.Ok? <==> Resolve(Mid(temps), ref).Some?
      ensures r.Ok? ==> r.value == Resolve(Mid(temps), ref).value
    {
      match ref
      case ById(oid) =>
        DenseFind(arena.objects, oid);
        if !arena.Contains(oid) {
          return Err(UnknownObject);
        }
        r := Ok(oid);
      case ByTemp(temp) =>
        if temp == 0 {
          return Err(InvalidTemp);
        }
        if temp !in temps {
          return Err(UnknownTemp);
        }
        r := Ok(temps[temp]);
    }

    method PointerPosition(pointer: nat) returns (r: Option<nat>)
      ensures r == FindPointer(EdgeViews(pointers), pointer)
    {
      hide EdgeViews, FindPointer;
      for i := 0 to |pointers|
        invariant forall j :: 0 <= j < i ==> pointers[j].id != pointer
      {
        if pointers[i].id == pointer {
          EdgeAt(pointers, pointer, i);
          return Some(i);
        }
      }
      EdgeNowhere(pointers, pointer);
      r := None;
    }

    // ---- one operation of each kind

    method ApplyIntern(op: Op, ghost temps: map<nat, ObjectId>) returns (r: Result<(), WorldError>)
      requires Struct() && (op.InternType? || op.InternRelation?)
      requires RegularOp(Mid(temps), op)
      modifies types, relations
      ensures r.Ok? <==> Step(old(Mid(temps)), op).Ok?
      ensures r.Ok? ==> Struct() && Step(old(Mid(temps)), op) == Ok(Mid(temps))
    {
      hide InternedAt, InternName, RegularIntern, Full, Inverse, Table, EntryViews, EdgeViews, Dense, NamesOk;
      var interned: Result<nat, WorldError>;
      if op.InternType? {
        InternAgrees(types.names, op.symbol, op.name);
        InternMatches(types.names, op.symbol, op.name);
        interned := types.InternAt(op.symbol, op.name);
      } else {
        InternAgrees(relations.names, op.symbol, op.name);
        InternMatches(relations.names, op.symbol, op.name);
        interned := relations.InternAt(op.symbol, op.name);
      }
      if interned.Err? {
        return Err(interned.error);
      }
      r := Ok(());
    }

    method ApplyCreate(op: Op, temps: map<nat, ObjectId>) returns (r: Result<map<nat, ObjectId>, WorldError>)
      requires Struct() && op.CreateObject? && RegularOp(Mid(temps), op)
      modifies arena, `objectNames
      ensures r.Ok? <==> Step(old(Mid(temps)), op).Ok?
      ensures r.Ok? ==> Struct() && Step(old(Mid(temps)), op) == Ok(Mid(r.value))
    {
      hide Full, Inverse, Table, Assigned, EdgeViews, EntryViews, Dense, NamesOk, Step, NewObject, UniqueKeys;
      ghost var before, entries, names := Mid(temps), arena.objects, objectNames;
      CreateAccepted(before, entries, names, types.names, op);
      if op.temp == 0 {
        return Err(InvalidTemp);
      }
      if op.temp in temps {
        return Err(DuplicateTemp);
      }
      if op.name in objectNames {
        return Err(NameTaken);
      }
      var created := arena.Create(op.name, op.typ, op.existence);
      if created.Err? {
        return Err(created.error);
      }
      var attributes := AssignAttributes(op.attributes);
      arena.PutAttributes(created.value, attributes);
      objectNames := objectNames[op.name := created.value];
      var typeName := types.Name(op.typ);
      if typeName.Err? {
        return Err(typeName.error);
      }
      ghost var e := Entry(created.value, op.name, op.typ, op.existence, attributes);
      Created(before, entries, names, op, e);
      assert arena.objects == entries + [e];
      r := Ok(temps[op.temp := created.value]);
    }

    lemma TypeKept(op: Op)
      ensures forall e: Entry {:trigger EditEntry(e, op)} :: EditEntry(e, op).typ == if op.SetObjectType? then op.typ
              else e.typ
    {
    }

    method EditObjectAt(oid: ObjectId, op: Op) returns (r: Result<(), WorldError>)
      requires ObjectOp(op) && arena.Contains(oid)
      modifies arena
      ensures r.Ok? <==> (op.SetObjectType? ==> op.typ != 0)
      ensures r.Ok? ==> arena.objects == old(arena.objects)[oid.index := EditEntry(old(arena.objects)[oid.index], op)]
    {
      r := Ok(());
      match op {
      case SetObjectType(_, typ) =>
        r := arena.SetType(oid, typ);
      case SetObjectExistence(_, existence) =>
        arena.SetExistence(oid, existence);
      case SetObjectAttribute(_, a) =>
        arena.PutAttributes(oid, arena.objects[oid.index].attributes[a.key := a.value]);
      case RemoveObjectAttribute(_, key) =>
        arena.PutAttributes(oid, arena.objects[oid.index].attributes - {key});
      case _ =>
      }
    }

    method ApplyObject(op: Op, temps: map<nat, ObjectId>) returns (r: Result<(), WorldError>)
      requires Struct() && ObjectOp(op) && StateOk(Mid(temps))
      modifies arena
      ensures r.Ok? <==> Step(old(Mid(temps)), op).Ok?
      ensures r.Ok? ==> Struct() && Step(old(Mid(temps)), op) == Ok(Mid(temps))
    {
      hide Full, Inverse, Table, EdgeViews, EntryViews, Dense, NamesOk, Step, StateOk, Resolve, EditEntry, NextPointer,
           Run;
      TypeKept(op);
      ghost var before, entries := Mid(temps), arena.objects;
      ObjectAccepted(before, entries, types.names, op);
      var target := ResolveObject(op.target, temps);
      if target.Err? {
        return Err(target.error);
      }
      var oid := target.value;
      EntryKept(entries, objectNames, oid.index, op);
      var edited := EditObjectAt(oid, op);
      if edited.Err? {
        return Err(edited.error);
      }
      if op.SetObjectType? || op.SetObjectExistence? {
        var typeName := types.Name(arena.objects[oid.index].typ);
        if typeName.Err? {
          return Err(typeName.error);
        }
      }
      assert Mid(temps) == before.(snap := before.snap.(objects := EntryViews(arena.objects)));
      r := Ok(());
    }

    method ApplyPointer(op: Op, ghost temps: map<nat, ObjectId>) returns (r: Result<(), WorldError>)
      requires Struct() && PointerOp(op)
      modifies `pointers
      ensures r.Ok? <==> Step(old(Mid(temps)), op).Ok?
      ensures r.Ok? ==> Struct() && Step(old(Mid(temps)), op) == Ok(Mid(temps))
    {
      hide Full, Inverse, Table, EdgeViews, EntryViews, Dense, NamesOk, FindPointer, NextPointer, Step, EditEdge,
           StateOk, Run, EdgeView, ObjectOp, WellFormed, ActiveAt;
      ghost var before, edges := Mid(temps), pointers;
      PointerAccepted(before, edges, op);
      var at := PointerPosition(op.pointer);
      if at.None? {
        return Err(UnknownPointer);
      }
      var i := at.value;
      var e := EditedEdge(pointers[i], op, epoch + 1);
      pointers := pointers[i := e];
      assert Mid(temps) == before.(snap := before.snap.(pointers := EdgeViews(edges[i := e])));
      r := Ok(());
    }

    method ApplyLink(op: Op, temps: map<nat, ObjectId>) returns (r: Result<(), WorldError>)
      requires Struct() && op.CreatePointer? && RegularOp(Mid(temps), op)
      modifies `pointers, `nextPointerId
      ensures r.Ok? <==> Step(old(Mid(temps)), op).Ok?
      ensures r.Ok? ==> Struct() && Step(old(Mid(temps)), op) == Ok(Mid(temps))
    {
      hide Full, Inverse, Table, EdgeViews, EntryViews, Dense, NamesOk, Resolve, NextPointer, Assigned, UniqueKeys,
           Sorted;
      TableOk(relations.names);
      var from := ResolveObject(op.from, temps);
      if from.Err? {
        return Err(from.error);
      }
      var to := ResolveObject(op.to, temps);
      if to.Err? {
        return Err(to.error);
      }
      if op.relation == 0 {
        return Err(InvalidSymbolId);
      }
      ghost var before, edges := Mid(temps), pointers;
      var attributes := AssignAttributes(op.attributes);
      var edge := Edge(nextPointerId, from.value, to.value, op.relation, op.role, op.weight, epoch + 1, None,
                       if op.lawDomain == "" then "core" else op.lawDomain, attributes);
      nextPointerId := nextPointerId + 1;
      pointers := pointers + [edge];
      var relationName := relations.Name(op.relation);
      if relationName.Err? {
        return Err(relationName.error);
      }
      LinkShown(before, edges, op, edge);
      r := Ok(());
    }

    method ApplyOp(op: Op, temps: map<nat, ObjectId>) returns (r: Result<map<nat, ObjectId>, WorldError>)
      requires Struct() && StateOk(Mid(temps)) && RegularOp(Mid(temps), op)
      modifies types, relations, arena, `objectNames, `pointers, `nextPointerId
      ensures r.Ok? <==> Step(old(Mid(temps)), op).Ok?
      ensures r.Ok? ==> Struct() && Step(old(Mid(temps)), op) == Ok(Mid(r.value)) && StateOk(Mid(r.value))
    {
      hide Struct, StateOk, Mid, RegularOp, StepObject, StepPointer, StepCreate, StepLink, InternName, Facts;
      ghost var before := Mid(temps);
      RegularAsserts(before, op);
      if Step(before, op).Ok? {
        StepKeeps(before, op);
      }
      var done: Result<(), WorldError> := Ok(());
      if op.InternType? || op.InternRelation? {
        done := ApplyIntern(op, temps);
      } else if op.CreateObject? {
        r := ApplyCreate(op, temps);
        return;
      } else if op.SetObjectType? || op.SetObjectExistence? || op.SetObjectAttribute? || op.RemoveObjectAttribute? ||
        op.AssertObject? {
        done := ApplyObject(op, temps);
      } else if op.CreatePointer? {
        done := ApplyLink(op, temps);
      } else if !op.EmitEvent? {
        done := ApplyPointer(op, temps);
      }
      r := if done.Ok? then Ok(temps) else Err(done.error);
    }

    // The overlay's transition, in place: accepted and refused alike, with the same result.
    method ApplyDelta(delta: Delta) returns (r: Result<(), WorldError>)
      requires Valid() && RegularRun(Start(Abstract()), delta)
      modifies this, types, relations, arena, index
      ensures r.Ok? <==> Apply(old(Abstract()), delta).Ok?
      ensures r.Ok? ==> Valid() && Apply(old(Abstract()), delta) == Ok(Abstract())
    {
      hide *;
      Opened();
      ghost var s := Shown(epoch);
      RunRecounted(s, delta);
      RegularRecounted(s, delta);
      StartOk(s);
      var temps: map<nat, ObjectId> := map[];
      ghost var start := Mid(temps);
      MidStart();
      RunWhole(start, delta);
      for i := 0 to |delta|
        invariant Struct() && StateOk(Mid(temps)) && RegularRun(Mid(temps), delta[i..])
        invariant Run(start, delta) == Run(Mid(temps), delta[i..]) && epoch == old(epoch)
      {
        RunOne(Mid(temps), delta, i);
        var applied := ApplyOp(delta[i], temps);
        if applied.Err? {
          return Err(applied.error);
        }
        temps := applied.value;
      }
      RunNone(Mid(temps), delta);
      MidShown(temps);
      StateWell(Mid(temps));
      epoch := epoch + 1;
      RebuildIndex();
      Closed();
      r := Ok(());
    }

    lemma Opened()
      requires Valid()
      ensures Struct() && WellFormed(Shown(epoch)) && Abstract() == Recount(Shown(epoch))
      ensures BareAll(Shown(epoch).objects) == Shown(epoch).objects && Shown(epoch).epoch == epoch
    {
      ShownBare(Shown(epoch), arena.objects);
    }

    lemma Closed()
      requires Struct() && WellFormed(Shown(epoch)) && index.Agrees(EdgeViews(pointers), epoch)
      ensures Valid() && Abstract() == Recount(Shown(epoch))
    {
    }

    lemma MidStart()
      ensures Mid(map[]) == Start(Shown(epoch))
    {
    }

    lemma MidShown(temps: map<nat, ObjectId>)
      ensures Mid(temps).snap == Shown(epoch + 1)
    {
    }

    method RebuildIndex()
      modifies index
      ensures index.Agrees(EdgeViews(pointers), epoch)
    {
      hide Struct, WellFormed, Recount;
      var snapshot := Snapshot();
      index.Rebuild(snapshot);
    }

    method ShowObjects() returns (objects: seq<Object>)
      ensures objects == EntryViews(arena.objects)
    {
      hide EntryViews, EntryView, Listing;
      var entries := arena.objects;
      objects := [];
      EntriesNone(entries);
      for i := 0 to |entries|
        invariant objects == EntryViews(entries[..i])
      {
        var e := entries[i];
        var attributes := ListAttributes(e.attributes);
        EntryPushed(entries, i);
        EntryIs(e);
        objects := objects + [Object(e.id, e.name, e.typ, e.existence, attributes, 0, 0)];
      }
      assert entries[..|entries|] == entries;
    }

    method ShowPointers() returns (edges: seq<Pointer>)
      ensures edges == EdgeViews(pointers)
    {
      hide EdgeViews, EdgeView, Listing;
      var all := pointers;
      edges := [];
      EdgesNone(all);
      for i := 0 to |all|
        invariant edges == EdgeViews(all[..i])
      {
        var e := all[i];
        var attributes := ListAttributes(e.attributes);
        EdgePushed(all, i);
        EdgeIs(e);
        edges := edges + [Pointer(e.id, e.from, e.to, e.relation, e.role, e.weight, e.bornAt, e.expiresAt, e.lawDomain,
          attributes)];
      }
      assert all[..|all|] == all;
    }

    // The world as a snapshot, with the counts an index gives.
    method Snapshot() returns (out: Snapshot)
      ensures WellFormed(Shown(epoch)) ==> out == Abstract()
      ensures out.pointers == EdgeViews(pointers) && out.epoch == epoch
    {
      hide Struct, WellFormed, EntryViews, EdgeViews, Recount;
      var objects := ShowObjects();
      var edges := ShowPointers();
      out := WithCounts(Model.Snapshot(id, name, epoch, objects, edges, Table(types.names), Table(relations.names)));
    }
  }

  method WithCounts(shown: Snapshot) returns (out: Snapshot)
    ensures WellFormed(shown) ==> out == Recount(shown)
    ensures out.pointers == shown.pointers && out.epoch == shown.epoch
  {
    hide WellFormed, Recount, CountedTo, Ascending, InIds, OutIds;
    out := shown;
    var index := new PointerIndex();
    index.Rebuild(shown);
    var incoming, outgoing := index.incoming, index.outgoing;
    CountNone(shown);
    for i := 0 to |shown.objects|
      invariant |out.objects| == |shown.objects| && out == shown.(objects := out.objects)
      invariant WellFormed(shown) ==> out == shown.(objects := CountedTo(shown, i))
    {
      var o := shown.objects[i];
      var into, from := Lookup(incoming, o.id), Lookup(outgoing, o.id);
      if WellFormed(shown) {
        CountOne(shown, i, into, from);
      }
      out := out.(objects := out.objects[i := o.(incoming := |into|, outgoing := |from|)]);
    }
    CountAll(shown);
  }

  lemma CountNone(s: Snapshot)
    ensures s.(objects := CountedTo(s, 0)) == s
  {
  }

  lemma EntriesNone(entries: seq<Entry>)
    ensures entries[..0] == [] && EntryViews([]) == []
  {
  }

  lemma EdgesNone(edges: seq<Edge>)
    ensures edges[..0] == [] && EdgeViews([]) == []
  {
  }

  // The first i objects counted.
  ghost function CountedTo(s: Snapshot, i: nat): seq<Object>
    requires i <= |s.objects|
  {
    Recount(s).objects[..i] + s.objects[i..]
  }

  lemma CountOne(s: Snapshot, i: nat, into: seq<nat>, out: seq<nat>)
    requires WellFormed(s) && i < |s.objects|
    requires into == Ascending(InIds(s.pointers, s.epoch, s.objects[i].id)) &&
             out == Ascending(OutIds(s.pointers, s.epoch, s.objects[i].id))
    ensures |CountedTo(s, i)| == |s.objects|
    ensures CountedTo(s, i + 1) == CountedTo(s, i)[i := s.objects[i].(incoming := |into|, outgoing := |out|)]
  {
    hide Ascending, InIds, OutIds, Incoming, Outgoing;
    AscendingOrders(InIds(s.pointers, s.epoch, s.objects[i].id));
    AscendingOrders(OutIds(s.pointers, s.epoch, s.objects[i].id));
    OnlyOne(s.objects, i);
  }

  lemma OnlyOne(objects: seq<Object>, i: nat)
    requires i < |objects| && forall j, k :: 0 <= j < k < |objects| ==> objects[j].id != objects[k].id
    ensures FindObject(objects, objects[i].id) == Some(i)
  {
  }

  lemma CountAll(s: Snapshot)
    ensures s.(objects := CountedTo(s, |s.objects|)) == Recount(s)
  {
  }

  // Lists the entries of a map in any order, then sorts them.
  method ListAttributes(m: map<string, Value>) returns (s: seq<Attribute>)
    ensures s == Listing(m)
  {
    hide Lists, Sorted, Listing;
    s := [];
    var keys := m.Keys;
    ghost var done: map<string, Value> := map[];
    ListsNone();
    while keys != {}
      invariant keys <= m.Keys && done == m - keys && Lists(s, done)
      decreases keys
    {
      var k :| k in keys;
      ListsOne(s, done, Attribute(k, m[k]));
      s := s + [Attribute(k, m[k])];
      done := done[k := m[k]];
      keys := keys - {k};
    }
    assert done == m;
    SortedLists(s, m);
    s := Sorted(s);
    IsListing(s, m);
  }

  lemma ListsNone()
    ensures Lists([], map[])
  {
  }

  lemma ListsOne(s: seq<Attribute>, m: map<string, Value>, a: Attribute)
    requires Lists(s, m) && a.key !in m
    ensures Lists(s + [a], m[a.key := a.value])
  {
    ListsPush(s, m, a);
  }

  lemma EntryIs(e: Entry)
    ensures EntryView(e) == Object(e.id, e.name, e.typ, e.existence, Listing(e.attributes), 0, 0)
  {
  }

  lemma EdgeIs(e: Edge)
    ensures EdgeView(e) ==
            Pointer(e.id, e.from, e.to, e.relation, e.role, e.weight, e.bornAt, e.expiresAt, e.lawDomain,
              Listing(e.attributes))
  {
  }

  lemma EntryPushed(entries: seq<Entry>, i: nat)
    requires i < |entries|
    ensures EntryViews(entries[..i + 1]) == EntryViews(entries[..i]) + [EntryView(entries[i])]
  {
    hide EntryView;
  }

  lemma EdgePushed(edges: seq<Edge>, i: nat)
    requires i < |edges|
    ensures EdgeViews(edges[..i + 1]) == EdgeViews(edges[..i]) + [EdgeView(edges[i])]
  {
    hide EdgeView;
  }

  lemma ShownBare(s: Snapshot, entries: seq<Entry>)
    requires s.objects == EntryViews(entries)
    ensures BareAll(s.objects) == s.objects
  {
    hide Listing;
  }

  lemma StartOk(s: Snapshot)
    requires WellFormed(s)
    ensures StateOk(Start(s))
  {
    StartKeeps(s);
  }

  lemma StateWell(st: State)
    requires StateOk(st)
    ensures WellFormed(st.snap)
  {
  }

  lemma RegularRecounted(s: Snapshot, delta: Delta)
    requires RegularRun(Start(Recount(s)), delta) && ViewState(Start(Recount(s)), s.epoch + 1) == Start(s)
    ensures RegularRun(Start(s), delta)
  {
    hide RegularRun, ViewState, Counted;
    RegularView(Start(Recount(s)), delta, s.epoch + 1);
  }

  lemma RunWhole(st: State, delta: Delta)
    ensures delta[0..] == delta
  {
  }

  lemma RunNone(st: State, delta: Delta)
    ensures Run(st, delta[|delta|..]) == Ok(st)
  {
  }

  lemma RunOne(st: State, delta: Delta, i: nat)
    requires i < |delta| && RegularRun(st, delta[i..])
    ensures RegularOp(st, delta[i])
    ensures Step(st, delta[i]).Err? ==> Run(st, delta[i..]).Err?
    ensures Step(st, delta[i]).Ok? ==>
              Run(st, delta[i..]) == Run(Step(st, delta[i]).value, delta[i + 1..]) &&
              RegularRun(Step(st, delta[i]).value, delta[i + 1..])
  {
    hide Step, RegularOp;
    assert delta[i..][1..] == delta[i + 1..];
  }

  lemma LinkShown(st: State, edges: seq<Edge>, op: Op, e: Edge)
    requires op.CreatePointer? && UniqueKeys(op.attributes) && st.snap.pointers == EdgeViews(edges)
    requires e == Edge(NextPointer(st.snap.pointers), e.from, e.to, op.relation, op.role, op.weight, st.snap.epoch,
             None,
                       if op.lawDomain == "" then "core" else op.lawDomain, Assigned(map[], op.attributes))
    ensures EdgeViews(edges + [e]) == st.snap.pointers + [NewPointer(st, op, e.from, e.to)]
    ensures NextPointer(EdgeViews(edges + [e])) == e.id + 1
  {
    hide Listing, Sorted, Assigned;
    AssignAgrees(op.attributes);
    assert EdgeViews(edges + [e]) == EdgeViews(edges) + [EdgeView(e)];
    assert (EdgeViews(edges) + [EdgeView(e)])[..|edges|] == EdgeViews(edges);
  }

  lemma InternMatches(names: seq<string>, symbol: nat, name: string)
    requires Full(names) && RegularIntern(Table(names), symbol, name)
    ensures SameIntern(names, symbol, name)
    ensures InternedAt(names, symbol, name).Ok? <==> InternName(Table(names), name, symbol).Ok?
    ensures InternedAt(names, symbol, name).Ok? ==>
              Full(InternedAt(names, symbol, name).value) &&
              InternName(Table(names), name, symbol) == Ok(Table(InternedAt(names, symbol, name).value))
  {
    InternAgrees(names, symbol, name);
    if InternedAt(names, symbol, name).Ok? {
      InternFull(names, symbol, name);
    }
  }
}
