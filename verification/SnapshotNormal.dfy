// The bytes of a snapshot are a normal form: they do not depend on the order of objects,
// pointers and attributes or on unused names, and they tell everything else apart.

module SnapshotNormal {
  import opened Model
  import opened Attributes
  import AttributeOrder
  import opened KeySort
  import opened CanonicalLists
  import opened Codec
  import opened FactDerivation
  import opened FactCodec
  import opened SnapshotCodec
  import Invariants
  import Overlay

  // Up to tidying, every element of one list is in the other.
  ghost predicate Covers<T(!new)>(tidy: T -> T, xs: seq<T>, ys: seq<T>) {
    forall x :: x in xs ==> exists y :: y in ys && tidy(x) == tidy(y)
  }

  ghost predicate KeepsKey<T(!new)>(key: T -> Key, tidy: T -> T) {
    forall x :: key(tidy(x)) == key(x)
  }

  lemma EachAscends<T(!new)>(key: T -> Key, tidy: T -> T, xs: seq<T>)
    requires KeepsKey(key, tidy) && Ascending(key, xs)
    ensures Ascending(key, Each(tidy, xs))
  {
    hide Less;
  }

  lemma EachElement<T(!new)>(tidy: T -> T, xs: seq<T>, x: T)
    ensures x in Each(tidy, xs) <==> exists y :: y in xs && tidy(y) == x
  {
    if x in Each(tidy, xs) {
      var i :| 0 <= i < |xs| && Each(tidy, xs)[i] == x;
      assert xs[i] in xs;
    }
    if exists y :: y in xs && tidy(y) == x {
      var y :| y in xs && tidy(y) == x;
      var i :| 0 <= i < |xs| && xs[i] == y;
      assert Each(tidy, xs)[i] == x;
    }
  }

  lemma Covered<T(!new)>(key: T -> Key, tidy: T -> T, xs: seq<T>, ys: seq<T>)
    requires Covers(tidy, xs, ys)
    ensures forall x :: x in Each(tidy, Arranged(key, xs)) ==> x in Each(tidy, Arranged(key, ys))
  {
    hide Arranged, Ascending, Distinct, Each;
    ArrangedSorts(key, xs);
    ArrangedSorts(key, ys);
    forall x | x in Each(tidy, Arranged(key, xs)) ensures x in Each(tidy, Arranged(key, ys)) {
      EachElement(tidy, Arranged(key, xs), x);
      var was :| was in Arranged(key, xs) && tidy(was) == x;
      assert was in xs;
      var y :| y in ys && tidy(was) == tidy(y);
      assert y in Arranged(key, ys);
      EachElement(tidy, Arranged(key, ys), x);
    }
  }

  lemma Covering<T(!new)>(key: T -> Key, tidy: T -> T, xs: seq<T>, ys: seq<T>)
    requires forall x :: x in Each(tidy, Arranged(key, xs)) ==> x in Each(tidy, Arranged(key, ys))
    ensures Covers(tidy, xs, ys)
  {
    hide Arranged, Ascending, Distinct, Each;
    ArrangedSorts(key, xs);
    ArrangedSorts(key, ys);
    forall x | x in xs ensures exists y :: y in ys && tidy(x) == tidy(y) {
      assert x in Arranged(key, xs);
      EachElement(tidy, Arranged(key, xs), tidy(x));
      EachElement(tidy, Arranged(key, ys), tidy(x));
      var y :| y in Arranged(key, ys) && tidy(y) == tidy(x);
      assert y in ys;
    }
  }

  // Two lists of distinct keys are written alike exactly when each covers the other.
  lemma SameEach<T(!new)>(key: T -> Key, tidy: T -> T, xs: seq<T>, ys: seq<T>)
    requires KeepsKey(key, tidy) && Distinct(key, xs) && Distinct(key, ys)
    ensures Each(tidy, Arranged(key, xs)) == Each(tidy, Arranged(key, ys)) <==>
              Covers(tidy, xs, ys) && Covers(tidy, ys, xs)
  {
    hide Arranged, Ascending, Distinct, Each, Covers;
    var a, b := Each(tidy, Arranged(key, xs)), Each(tidy, Arranged(key, ys));
    if Covers(tidy, xs, ys) && Covers(tidy, ys, xs) {
      Covered(key, tidy, xs, ys);
      Covered(key, tidy, ys, xs);
      ArrangedSorts(key, xs);
      ArrangedSorts(key, ys);
      EachAscends(key, tidy, Arranged(key, xs));
      EachAscends(key, tidy, Arranged(key, ys));
      AscendingUnique(key, a, b);
    } else if a == b {
      Covering(key, tidy, xs, ys);
      Covering(key, tidy, ys, xs);
    }
  }

  // ---- the same content

  predicate AlikeObject(o: Object, p: Object) {
    && o.(attributes := []) == p.(attributes := [])
    && multiset(o.attributes) == multiset(p.attributes)
  }

  predicate AlikePointer(p: Pointer, q: Pointer) {
    && p.(attributes := []) == q.(attributes := [])
    && multiset(p.attributes) == multiset(q.attributes)
  }

  predicate AlikeObjects(a: seq<Object>, b: seq<Object>) {
    && (forall o :: o in a ==> exists p :: p in b && AlikeObject(o, p))
    && (forall o :: o in b ==> exists p :: p in a && AlikeObject(o, p))
  }

  predicate AlikePointers(a: seq<Pointer>, b: seq<Pointer>) {
    && (forall o :: o in a ==> exists p :: p in b && AlikePointer(o, p))
    && (forall o :: o in b ==> exists p :: p in a && AlikePointer(o, p))
  }

  // The same but for the order of objects, pointers and attributes, and for unused names.
  predicate SameContent(s: Snapshot, t: Snapshot) {
    && s.world == t.world && s.worldName == t.worldName && s.epoch == t.epoch
    && AlikeObjects(s.objects, t.objects) && AlikePointers(s.pointers, t.pointers)
    && (forall o :: o in s.objects ==> Named(s.typeNames, o.typ) == Named(t.typeNames, o.typ))
    && (forall p :: p in s.pointers ==> Named(s.relationNames, p.relation) == Named(t.relationNames, p.relation))
  }

  // The canonical form lists objects by index and generation, pointers by id, and attributes
  // by key.
  lemma CanonicalOrder(s: Snapshot, i: nat, j: nat)
    requires UniqueIds(s) && i < j
    ensures var c := Canonical(s);
            && |c.objects| == |s.objects| && |c.pointers| == |s.pointers|
            && (j < |c.objects| ==>
                  var a, b := c.objects[i].id, c.objects[j].id;
                  a.index < b.index || (a.index == b.index && a.generation < b.generation))
            && (j < |c.pointers| ==> c.pointers[i].id < c.pointers[j].id)
            && (forall k :: 0 <= k < |c.objects| ==> AttributeOrder.Ordered(c.objects[k].attributes))
            && (forall k :: 0 <= k < |c.pointers| ==> AttributeOrder.Ordered(c.pointers[k].attributes))
  {
    hide Arranged, Sorted, AttributeOrder.Ordered, Restricted, Ascending;
    ArrangedSorts(ObjectKey, s.objects);
    ArrangedSorts(PointerKey, s.pointers);
    var c, objects, pointers := Canonical(s), Arranged(ObjectKey, s.objects), Arranged(PointerKey, s.pointers);
    forall k | 0 <= k < |objects|
      ensures c.objects[k] == TidyObject(objects[k]) && AttributeOrder.Ordered(c.objects[k].attributes)
    {
      AttributeOrder.SortedOrdered(objects[k].attributes);
    }
    forall k | 0 <= k < |pointers|
      ensures c.pointers[k] == TidyPointer(pointers[k]) && AttributeOrder.Ordered(c.pointers[k].attributes)
    {
      AttributeOrder.SortedOrdered(pointers[k].attributes);
    }
    if j < |objects| {
      KeysBelow(ObjectKey, objects, i, j);
    }
    if j < |pointers| {
      KeysBelow(PointerKey, pointers, i, j);
    }
  }

  lemma KeysBelow<T>(key: T -> Key, xs: seq<T>, i: nat, j: nat)
    requires Ascending(key, xs) && i < j < |xs|
    ensures Less(key(xs[i]), key(xs[j]))
  {
  }

  ghost predicate UniqueIds(s: Snapshot) {
    Distinct(ObjectKey, s.objects) && Distinct(PointerKey, s.pointers)
  }

  // Every snapshot the kernel reaches has them.
  lemma WellFormedUnique(s: Snapshot)
    requires Invariants.WellFormed(s)
    ensures UniqueIds(s)
  {
    hide Invariants.SymbolsOk, Invariants.PointerOk;
    forall i, j | 0 <= i < j < |s.objects| ensures ObjectKey(s.objects[i]) != ObjectKey(s.objects[j]) {
      assert s.objects[i].id != s.objects[j].id;
    }
  }

  lemma TidyAlike(o: Object, p: Object)
    ensures AlikeObject(o, p) <==> TidyObject(o) == TidyObject(p)
  {
    hide Sorted;
    AttributeOrder.SortedSame(o.attributes, p.attributes);
    if TidyObject(o) == TidyObject(p) {
      assert TidyObject(o).(attributes := []) == o.(attributes := []);
      assert TidyObject(p).(attributes := []) == p.(attributes := []);
    }
  }

  lemma TidyPointersAlike(o: Pointer, p: Pointer)
    ensures AlikePointer(o, p) <==> TidyPointer(o) == TidyPointer(p)
  {
    hide Sorted;
    AttributeOrder.SortedSame(o.attributes, p.attributes);
    if TidyPointer(o) == TidyPointer(p) {
      assert TidyPointer(o).(attributes := []) == o.(attributes := []);
      assert TidyPointer(p).(attributes := []) == p.(attributes := []);
    }
  }

  lemma TidyKeys()
    ensures KeepsKey(ObjectKey, TidyObject) && KeepsKey(PointerKey, TidyPointer)
  {
  }

  lemma ObjectsAlike(a: seq<Object>, b: seq<Object>)
    requires Distinct(ObjectKey, a) && Distinct(ObjectKey, b)
    ensures CanonicalObjects(a) == CanonicalObjects(b) <==> AlikeObjects(a, b)
  {
    TidyKeys();
    hide Arranged, Each, Distinct, AlikeObject, TidyObject;
    SameEach(ObjectKey, TidyObject, a, b);
    forall o, p ensures AlikeObject(o, p) <==> TidyObject(o) == TidyObject(p) {
      TidyAlike(o, p);
    }
  }

  lemma PointersAlike(a: seq<Pointer>, b: seq<Pointer>)
    requires Distinct(PointerKey, a) && Distinct(PointerKey, b)
    ensures CanonicalPointers(a) == CanonicalPointers(b) <==> AlikePointers(a, b)
  {
    TidyKeys();
    hide Arranged, Each, Distinct, AlikePointer, TidyPointer;
    SameEach(PointerKey, TidyPointer, a, b);
    forall o, p ensures AlikePointer(o, p) <==> TidyPointer(o) == TidyPointer(p) {
      TidyPointersAlike(o, p);
    }
  }

  // ---- names

  lemma TypeIn(objects: seq<Object>, n: nat)
    ensures n in Types(objects) <==> exists o :: o in objects && o.typ == n
  {
    if n in Types(objects) {
      var i :| 0 <= i < |objects| && Types(objects)[i] == n;
      assert objects[i] in objects;
    }
    if exists o :: o in objects && o.typ == n {
      var o :| o in objects && o.typ == n;
      var i :| 0 <= i < |objects| && objects[i] == o;
      assert Types(objects)[i] == n;
    }
  }

  lemma RelationIn(pointers: seq<Pointer>, n: nat)
    ensures n in Relations(pointers) <==> exists p :: p in pointers && p.relation == n
  {
    if n in Relations(pointers) {
      var i :| 0 <= i < |pointers| && Relations(pointers)[i] == n;
      assert pointers[i] in pointers;
    }
    if exists p :: p in pointers && p.relation == n {
      var p :| p in pointers && p.relation == n;
      var i :| 0 <= i < |pointers| && pointers[i] == p;
      assert Relations(pointers)[i] == n;
    }
  }

  lemma AlikeTyp(o: Object, p: Object)
    requires AlikeObject(o, p)
    ensures o.typ == p.typ
  {
    assert o.(attributes := []).typ == p.(attributes := []).typ;
  }

  lemma TypesCovered(a: seq<Object>, b: seq<Object>)
    requires forall o :: o in a ==> exists p :: p in b && AlikeObject(o, p)
    ensures forall n :: n in Types(a) ==> n in Types(b)
  {
    hide Types, AlikeObject;
    forall n | n in Types(a) ensures n in Types(b) {
      TypeIn(a, n);
      var o :| o in a && o.typ == n;
      var p :| p in b && AlikeObject(o, p);
      AlikeTyp(o, p);
      TypeIn(b, n);
    }
  }

  lemma SameTypes(a: seq<Object>, b: seq<Object>)
    requires AlikeObjects(a, b)
    ensures SameElements(Types(a), Types(b))
  {
    hide Types, AlikeObject;
    TypesCovered(a, b);
    TypesCovered(b, a);
  }

  lemma AlikeRelation(o: Pointer, p: Pointer)
    requires AlikePointer(o, p)
    ensures o.relation == p.relation
  {
    assert o.(attributes := []).relation == p.(attributes := []).relation;
  }

  lemma RelationsCovered(a: seq<Pointer>, b: seq<Pointer>)
    requires forall o :: o in a ==> exists p :: p in b && AlikePointer(o, p)
    ensures forall n :: n in Relations(a) ==> n in Relations(b)
  {
    hide Relations, AlikePointer;
    forall n | n in Relations(a) ensures n in Relations(b) {
      RelationIn(a, n);
      var o :| o in a && o.relation == n;
      var p :| p in b && AlikePointer(o, p);
      AlikeRelation(o, p);
      RelationIn(b, n);
    }
  }

  lemma SameRelations(a: seq<Pointer>, b: seq<Pointer>)
    requires AlikePointers(a, b)
    ensures SameElements(Relations(a), Relations(b))
  {
    hide Relations, AlikePointer;
    RelationsCovered(a, b);
    RelationsCovered(b, a);
  }

  lemma RestrictedAlike(names: map<nat, string>, other: map<nat, string>, xs: seq<nat>, ys: seq<nat>)
    requires SameElements(xs, ys)
    ensures Restricted(names, xs) == Restricted(other, ys) <==> forall n :: n in xs ==>
            Named(names, n) == Named(other, n)
  {
    var a, b := Restricted(names, xs), Restricted(other, ys);
    if a == b {
      forall n | n in xs ensures Named(names, n) == Named(other, n) {
        assert n in a && n in ys && a[n] == b[n];
      }
    }
  }

  // ---- the normal form

  // Two snapshots have one canonical form exactly when their content is the same.
  lemma SameCanonical(s: Snapshot, t: Snapshot)
    requires UniqueIds(s) && UniqueIds(t)
    ensures Canonical(s) == Canonical(t) <==> SameContent(s, t)
  {
    hide Types, Relations, CanonicalObjects, CanonicalPointers, Restricted, Distinct, AlikeObjects, AlikePointers,
         Named;
    ObjectsAlike(s.objects, t.objects);
    PointersAlike(s.pointers, t.pointers);
    if AlikeObjects(s.objects, t.objects) && AlikePointers(s.pointers, t.pointers) {
      SameTypes(s.objects, t.objects);
      SameRelations(s.pointers, t.pointers);
      RestrictedAlike(s.typeNames, t.typeNames, Types(s.objects), Types(t.objects));
      RestrictedAlike(s.relationNames, t.relationNames, Relations(s.pointers), Relations(t.pointers));
      TypesNamed(s, t);
      RelationsNamed(s, t);
    }
  }

  lemma TypesNamed(s: Snapshot, t: Snapshot)
    ensures (forall o :: o in s.objects ==> Named(s.typeNames, o.typ) == Named(t.typeNames, o.typ))
       <==> (forall n :: n in Types(s.objects) ==> Named(s.typeNames, n) == Named(t.typeNames, n))
  {
    hide Named, Types;
    forall n ensures n in Types(s.objects) <==> exists o :: o in s.objects && o.typ == n {
      TypeIn(s.objects, n);
    }
  }

  lemma RelationsNamed(s: Snapshot, t: Snapshot)
    ensures (forall p :: p in s.pointers ==> Named(s.relationNames, p.relation) == Named(t.relationNames, p.relation))
       <==> (forall n :: n in Relations(s.pointers) ==> Named(s.relationNames, n) == Named(t.relationNames, n))
  {
    hide Named, Relations;
    forall n ensures n in Relations(s.pointers) <==> exists p :: p in s.pointers && p.relation == n {
      RelationIn(s.pointers, n);
    }
  }

  // A snapshot has the content of its canonical form.
  lemma CanonicalContent(s: Snapshot)
    requires UniqueIds(s)
    ensures SameContent(s, Canonical(s)) && UniqueIds(Canonical(s))
  {
    TidyKeys();
    hide Sorted, Arranged, Named, Types, Relations, Restricted, AlikeObjects, AlikePointers, Each, TidyObject,
         TidyPointer;
    ArrangedSorts(ObjectKey, s.objects);
    ArrangedSorts(PointerKey, s.pointers);
    EachAscends(ObjectKey, TidyObject, Arranged(ObjectKey, s.objects));
    EachAscends(PointerKey, TidyPointer, Arranged(PointerKey, s.pointers));
    CanonicalObjectsSame(s.objects);
    CanonicalPointersSame(s.pointers);
    CanonicalNames(s);
  }

  lemma CanonicalNames(s: Snapshot)
    ensures forall o :: o in s.objects ==> Named(s.typeNames, o.typ) == Named(Canonical(s).typeNames, o.typ)
    ensures forall p :: p in s.pointers ==>
              Named(s.relationNames, p.relation) == Named(Canonical(s).relationNames, p.relation)
  {
    hide Types, Relations, CanonicalObjects, CanonicalPointers;
    forall o | o in s.objects ensures Named(s.typeNames, o.typ) == Named(Canonical(s).typeNames, o.typ) {
      TypeIn(s.objects, o.typ);
    }
    forall p | p in s.pointers ensures Named(s.relationNames, p.relation) ==
      Named(Canonical(s).relationNames, p.relation) {
      RelationIn(s.pointers, p.relation);
    }
  }

  lemma CanonicalObjectsSame(objects: seq<Object>)
    ensures AlikeObjects(objects, CanonicalObjects(objects))
  {
    hide Sorted, Arranged, Distinct, Ascending;
    ArrangedSorts(ObjectKey, objects);
    var a := Arranged(ObjectKey, objects);
    forall o | o in objects ensures exists p :: p in CanonicalObjects(objects) && AlikeObject(o, p) {
      assert o in a;
      TidySame(o);
      EachElement(TidyObject, a, TidyObject(o));
    }
    forall o | o in CanonicalObjects(objects) ensures exists p :: p in objects && AlikeObject(o, p) {
      EachElement(TidyObject, a, o);
      var p :| p in a && TidyObject(p) == o;
      TidySame(p);
      assert AlikeObject(o, p);
    }
  }

  lemma CanonicalPointersSame(pointers: seq<Pointer>)
    ensures AlikePointers(pointers, CanonicalPointers(pointers))
  {
    hide Sorted, Arranged, Distinct, Ascending;
    ArrangedSorts(PointerKey, pointers);
    var a := Arranged(PointerKey, pointers);
    forall o | o in pointers ensures exists p :: p in CanonicalPointers(pointers) && AlikePointer(o, p) {
      assert o in a;
      TidyPointerSame(o);
      EachElement(TidyPointer, a, TidyPointer(o));
    }
    forall o | o in CanonicalPointers(pointers) ensures exists p :: p in pointers && AlikePointer(o, p) {
      EachElement(TidyPointer, a, o);
      var p :| p in a && TidyPointer(p) == o;
      TidyPointerSame(p);
      assert AlikePointer(o, p);
    }
  }

  lemma TidySame(o: Object)
    ensures AlikeObject(o, TidyObject(o)) && AlikeObject(TidyObject(o), o)
  {
    AttributeOrder.Listings.SortedSame(o.attributes);
  }

  lemma TidyPointerSame(p: Pointer)
    ensures AlikePointer(p, TidyPointer(p)) && AlikePointer(TidyPointer(p), p)
  {
    AttributeOrder.Listings.SortedSame(p.attributes);
  }

  // The canonical form is its own canonical form.
  lemma CanonicalTwice(s: Snapshot)
    requires UniqueIds(s)
    ensures Canonical(Canonical(s)) == Canonical(s)
  {
    hide Canonical, SameContent, UniqueIds;
    CanonicalContent(s);
    SameCanonical(s, Canonical(s));
  }

  // ---- the bytes

  lemma SameTable(names: map<nat, string>, other: map<nat, string>, xs: seq<nat>, ys: seq<nat>)
    requires SameElements(xs, ys) && Restricted(names, xs) == Restricted(other, ys)
    ensures Table(names, Used(xs)) == Table(other, Used(ys))
  {
    hide Used, Ascending, Named;
    UsedAscends(xs);
    UsedAscends(ys);
    AscendingUnique(SymbolKey, Used(xs), Used(ys));
    RestrictedAlike(names, other, xs, ys);
    forall i | 0 <= i < |Used(xs)| ensures Named(names, Used(xs)[i]) == Named(other, Used(xs)[i]) {
      assert Used(xs)[i] in Used(xs);
    }
  }

  // Two snapshots have the same bytes exactly when their content is the same.
  lemma SameBytes(h: Hasher, s: Snapshot, t: Snapshot)
    requires Hashing(h) && SnapshotFits(s) && SnapshotFits(t) && UniqueIds(s) && UniqueIds(t)
    ensures Written(h, s) == Written(h, t) <==> SameContent(s, t)
  {
    hide SnapshotFits, UniqueIds, SameContent, Written, Canonical, ReadSnapshot, Records, Hashing;
    SameCanonical(s, t);
    SnapshotRead(h, s, []);
    SnapshotRead(h, t, []);
    if Written(h, s) == Written(h, t) {
      assert ReadSnapshot(Written(h, s) + []) == ReadSnapshot(Written(h, t) + []);
    }
    if SameContent(s, t) {
      ContentWritten(h, s, t);
    }
  }

  lemma ContentWritten(h: Hasher, s: Snapshot, t: Snapshot)
    requires UniqueIds(s) && UniqueIds(t) && SameContent(s, t)
    ensures Written(h, s) == Written(h, t) && Records(h, s) == Records(h, t)
  {
    hide AlikeObjects, AlikePointers, Types, Relations, CanonicalObjects, CanonicalPointers, Restricted, Table, Used,
         Distinct, Counted, Text, Number, Named, Arranged, OfObjects, OfPointers, MakeFact;
    SameCanonical(s, t);
    SameTypes(s.objects, t.objects);
    SameRelations(s.pointers, t.pointers);
    SameTable(s.typeNames, t.typeNames, Types(s.objects), Types(t.objects));
    SameTable(s.relationNames, t.relationNames, Relations(s.pointers), Relations(t.pointers));
    EpochOnly(s, t, CanonicalObjects(s.objects));
  }

  lemma {:induction false} EpochOnly(s: Snapshot, t: Snapshot, objects: seq<Object>)
    requires s.epoch == t.epoch
    ensures OfObjects(s, objects) == OfObjects(t, objects)
    decreases |objects|
  {
    if objects != [] {
      EpochOnly(s, t, objects[..|objects| - 1]);
    }
  }

  // Reading and writing again gives the same bytes.
  lemma WrittenAgain(h: Hasher, s: Snapshot)
    requires UniqueIds(s)
    ensures Written(h, Canonical(s)) == Written(h, s)
  {
    hide Written, Canonical, SameContent, UniqueIds, Records;
    CanonicalContent(s);
    ContentWritten(h, s, Canonical(s));
  }

  // ---- facts

  lemma AttributeIn(a: seq<Attribute>, b: seq<Attribute>, x: Attribute)
    requires multiset(a) == multiset(b) && x in a
    ensures x in b
  {
    assert x in multiset(a);
  }

  lemma ObjectFactsAlike(s: Snapshot, t: Snapshot, o: Object, p: Object)
    requires s.epoch == t.epoch && AlikeObject(o, p)
    ensures Overlay.ObjectFacts(s, o) == Overlay.ObjectFacts(t, p)
  {
    var a, b := o.(attributes := []), p.(attributes := []);
    assert a.id == o.id && a.name == o.name && a.typ == o.typ && a.existence == o.existence;
    assert b.id == p.id && b.name == p.name && b.typ == p.typ && b.existence == p.existence;
    forall x ensures x in o.attributes <==> x in p.attributes {
      if x in o.attributes { AttributeIn(o.attributes, p.attributes, x); }
      if x in p.attributes { AttributeIn(p.attributes, o.attributes, x); }
    }
  }

  lemma PointerFactsAlike(o: Pointer, p: Pointer)
    requires AlikePointer(o, p)
    ensures Overlay.PointerFacts(o) == Overlay.PointerFacts(p)
  {
    var a, b := o.(attributes := []), p.(attributes := []);
    assert Overlay.PointerFactOf(a) == Overlay.PointerFactOf(o) && Overlay.PointerFactOf(b) == Overlay.PointerFactOf(p);
    assert a.id == o.id && a.bornAt == o.bornAt && a.expiresAt == o.expiresAt;
    assert b.id == p.id && b.bornAt == p.bornAt && b.expiresAt == p.expiresAt;
    forall x ensures x in o.attributes <==> x in p.attributes {
      if x in o.attributes { AttributeIn(o.attributes, p.attributes, x); }
      if x in p.attributes { AttributeIn(p.attributes, o.attributes, x); }
    }
  }

  lemma FactsWithin(s: Snapshot, t: Snapshot, f: Fact)
    requires s.epoch == t.epoch && AlikeObjects(s.objects, t.objects) && AlikePointers(s.pointers, t.pointers)
    requires f in Overlay.Facts(s)
    ensures f in Overlay.Facts(t)
  {
    hide AlikeObject, AlikePointer, AlikeObjects, AlikePointers, Overlay.ObjectFacts, Overlay.PointerFacts;
    if i :| 0 <= i < |s.objects| && f in Overlay.ObjectFacts(s, s.objects[i]) {
      ObjectFactWithin(s, t, i, f);
    } else {
      var i :| 0 <= i < |s.pointers| && f in Overlay.PointerFacts(s.pointers[i]);
      PointerFactWithin(s, t, i, f);
    }
  }

  lemma ObjectFactWithin(s: Snapshot, t: Snapshot, i: nat, f: Fact)
    requires s.epoch == t.epoch && AlikeObjects(s.objects, t.objects)
    requires i < |s.objects| && f in Overlay.ObjectFacts(s, s.objects[i])
    ensures f in Overlay.Facts(t)
  {
    hide AlikeObject, AlikeObjects, Overlay.ObjectFacts, Overlay.PointerFacts;
    var p := PartnerOf(s.objects[i], s.objects, t.objects);
    ObjectFactsAlike(s, t, s.objects[i], p);
    var j :| 0 <= j < |t.objects| && t.objects[j] == p;
  }

  lemma PartnerOf(o: Object, a: seq<Object>, b: seq<Object>) returns (p: Object)
    requires AlikeObjects(a, b) && o in a
    ensures p in b && AlikeObject(o, p)
  {
    hide AlikeObject;
    p :| p in b && AlikeObject(o, p);
  }

  lemma PointerFactWithin(s: Snapshot, t: Snapshot, i: nat, f: Fact)
    requires AlikePointers(s.pointers, t.pointers)
    requires i < |s.pointers| && f in Overlay.PointerFacts(s.pointers[i])
    ensures f in Overlay.Facts(t)
  {
    hide AlikePointer, AlikePointers, Overlay.ObjectFacts, Overlay.PointerFacts;
    var p := PointerPartner(s.pointers[i], s.pointers, t.pointers);
    PointerFactsAlike(s.pointers[i], p);
    var j :| 0 <= j < |t.pointers| && t.pointers[j] == p;
  }

  lemma PointerPartner(o: Pointer, a: seq<Pointer>, b: seq<Pointer>) returns (p: Pointer)
    requires AlikePointers(a, b) && o in a
    ensures p in b && AlikePointer(o, p)
  {
    hide AlikePointer;
    p :| p in b && AlikePointer(o, p);
  }

  // The same content says the same facts.
  lemma SameFacts(s: Snapshot, t: Snapshot)
    requires SameContent(s, t)
    ensures Overlay.Facts(s) == Overlay.Facts(t)
  {
    hide AlikeObjects, AlikePointers, Overlay.Facts;
    AlikeBack(s, t);
    forall f ensures f in Overlay.Facts(s) <==> f in Overlay.Facts(t) {
      if f in Overlay.Facts(s) { FactsWithin(s, t, f); }
      if f in Overlay.Facts(t) { FactsWithin(t, s, f); }
    }
  }

  lemma AlikeBack(s: Snapshot, t: Snapshot)
    requires AlikeObjects(s.objects, t.objects) && AlikePointers(s.pointers, t.pointers)
    ensures AlikeObjects(t.objects, s.objects) && AlikePointers(t.pointers, s.pointers)
  {
    hide AlikeObject, AlikePointer;
  }
}
