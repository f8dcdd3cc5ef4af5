// The facts of a snapshot as they are derived: objects, then pointers, each in canonical
// order and followed by its attributes.

module FactDerivation {
  import opened Wrappers
  import opened Model
  import opened Attributes
  import Listings
  import opened KeySort
  import opened CanonicalLists
  import opened Overlay

  function OfAttributes(subject: Subject, attributes: seq<Attribute>, since: nat, until: Option<nat>): seq<Fact> {
    seq(|attributes|, i requires 0 <= i < |attributes| =>
      AttributeFact(subject, attributes[i].key, attributes[i].value, since, until))
  }

  function OfObject(s: Snapshot, o: Object): seq<Fact> {
    [ObjectFactOf(s, o)] + OfAttributes(ObjectSubject(o.id), o.attributes, 0, None)
  }

  function OfPointer(p: Pointer): seq<Fact> {
    [PointerFactOf(p)] + OfAttributes(PointerSubject(p.id), p.attributes, p.bornAt, p.expiresAt)
  }

  function OfObjects(s: Snapshot, objects: seq<Object>): seq<Fact> {
    if objects == [] then [] else OfObjects(s, objects[..|objects| - 1]) + OfObject(s, objects[|objects| - 1])
  }

  function OfPointers(pointers: seq<Pointer>): seq<Fact> {
    if pointers == [] then [] else OfPointers(pointers[..|pointers| - 1]) + OfPointer(pointers[|pointers| - 1])
  }

  function FactList(s: Snapshot): seq<Fact> {
    OfObjects(s, CanonicalObjects(s.objects)) + OfPointers(CanonicalPointers(s.pointers))
  }

  // ---- the list says what the snapshot does

  lemma {:induction false} InObjects(s: Snapshot, objects: seq<Object>, f: Fact)
    ensures f in OfObjects(s, objects) <==> exists o :: o in objects && f in OfObject(s, o)
  {
    hide OfObject;
    if objects != [] {
      var init, last := objects[..|objects| - 1], objects[|objects| - 1];
      InObjects(s, init, f);
      assert objects == init + [last];
    }
  }

  lemma {:induction false} InPointers(pointers: seq<Pointer>, f: Fact)
    ensures f in OfPointers(pointers) <==> exists p :: p in pointers && f in OfPointer(p)
  {
    hide OfPointer;
    if pointers != [] {
      var init, last := pointers[..|pointers| - 1], pointers[|pointers| - 1];
      InPointers(init, f);
      assert pointers == init + [last];
    }
  }

  lemma SortedSaid(subject: Subject, attributes: seq<Attribute>, since: nat, until: Option<nat>, f: Fact)
    ensures f in OfAttributes(subject, Sorted(attributes), since, until) <==>
            exists a :: a in attributes && f == AttributeFact(subject, a.key, a.value, since, until)
  {
    hide Sorted;
    Listings.SortedSame(attributes);
    var sorted := Sorted(attributes);
    forall a ensures a in sorted <==> a in attributes {
      assert a in multiset(sorted) <==> a in multiset(attributes);
    }
    if a :| a in attributes && f == AttributeFact(subject, a.key, a.value, since, until) {
      var i :| 0 <= i < |sorted| && sorted[i] == a;
      assert OfAttributes(subject, sorted, since, until)[i] == f;
    }
    if f in OfAttributes(subject, sorted, since, until) {
      var i :| 0 <= i < |sorted| && OfAttributes(subject, sorted, since, until)[i] == f;
      assert sorted[i] in attributes;
    }
  }

  lemma ObjectSaid(s: Snapshot, o: Object, f: Fact)
    ensures f in OfObject(s, TidyObject(o)) <==> f in ObjectFacts(s, o)
  {
    hide Sorted, OfAttributes;
    SortedSaid(ObjectSubject(o.id), o.attributes, 0, None, f);
  }

  lemma PointerSaid(p: Pointer, f: Fact)
    ensures f in OfPointer(TidyPointer(p)) <==> f in PointerFacts(p)
  {
    hide Sorted, OfAttributes;
    SortedSaid(PointerSubject(p.id), p.attributes, p.bornAt, p.expiresAt, f);
  }

  // Every fact of the snapshot is listed, and nothing else is.
  lemma ListSaysFacts(s: Snapshot, f: Fact)
    ensures f in FactList(s) <==> f in Facts(s)
  {
    hide Arranged, OfObjects, OfPointers, OfObject, OfPointer, ObjectFacts, PointerFacts, TidyObject, TidyPointer,
         Ascending;
    InObjects(s, CanonicalObjects(s.objects), f);
    InPointers(CanonicalPointers(s.pointers), f);
    InCanonical(s, f);
    forall o ensures f in OfObject(s, TidyObject(o)) <==> f in ObjectFacts(s, o) {
      ObjectSaid(s, o, f);
    }
    forall p ensures f in OfPointer(TidyPointer(p)) <==> f in PointerFacts(p) {
      PointerSaid(p, f);
    }
    InFacts(s, f);
  }

  lemma InFacts(s: Snapshot, f: Fact)
    ensures f in Facts(s) <==>
            (exists o :: o in s.objects && f in ObjectFacts(s, o)) ||
            (exists p :: p in s.pointers && f in PointerFacts(p))
  {
    hide ObjectFacts, PointerFacts;
    if o :| o in s.objects && f in ObjectFacts(s, o) {
      var i :| 0 <= i < |s.objects| && s.objects[i] == o;
    }
    if p :| p in s.pointers && f in PointerFacts(p) {
      var i :| 0 <= i < |s.pointers| && s.pointers[i] == p;
    }
  }

  lemma InCanonical(s: Snapshot, f: Fact)
    ensures (exists o :: o in CanonicalObjects(s.objects) && f in OfObject(s, o)) <==>
            (exists o :: o in s.objects && f in OfObject(s, TidyObject(o)))
    ensures (exists p :: p in CanonicalPointers(s.pointers) && f in OfPointer(p)) <==>
            (exists p :: p in s.pointers && f in OfPointer(TidyPointer(p)))
  {
    hide Arranged, OfObject, OfPointer, TidyObject, TidyPointer, Ascending;
    ArrangedSorts(ObjectKey, s.objects);
    ArrangedSorts(PointerKey, s.pointers);
    var objects, pointers := Arranged(ObjectKey, s.objects), Arranged(PointerKey, s.pointers);
    if o :| o in CanonicalObjects(s.objects) && f in OfObject(s, o) {
      var i :| 0 <= i < |objects| && CanonicalObjects(s.objects)[i] == o;
      assert objects[i] in objects;
    }
    if o :| o in s.objects && f in OfObject(s, TidyObject(o)) {
      assert o in objects;
      var i :| 0 <= i < |objects| && objects[i] == o;
      assert CanonicalObjects(s.objects)[i] == TidyObject(o);
    }
    if p :| p in CanonicalPointers(s.pointers) && f in OfPointer(p) {
      var i :| 0 <= i < |pointers| && CanonicalPointers(s.pointers)[i] == p;
      assert pointers[i] in pointers;
    }
    if p :| p in s.pointers && f in OfPointer(TidyPointer(p)) {
      assert p in pointers;
      var i :| 0 <= i < |pointers| && pointers[i] == p;
      assert CanonicalPointers(s.pointers)[i] == TidyPointer(p);
    }
  }

  // ---- as it runs

  method SayAttributes(facts: seq<Fact>, subject: Subject, attributes: seq<Attribute>, since: nat, until: Option<nat>)
    returns (more: seq<Fact>)
    ensures more == facts + OfAttributes(subject, Sorted(attributes), since, until)
  {
    hide Sorted;
    var sorted := Sorted(attributes);
    more := facts;
    for i := 0 to |sorted|
      invariant more == facts + OfAttributes(subject, sorted, since, until)[..i]
    {
      more := more + [AttributeFact(subject, sorted[i].key, sorted[i].value, since, until)];
    }
  }

  method DeriveFacts(s: Snapshot) returns (facts: seq<Fact>)
    ensures facts == FactList(s)
    ensures forall f :: f in facts <==> f in Facts(s)
  {
    hide Facts, Arranged, OfAttributes, Sorted, ObjectFactOf, PointerFactOf;
    facts := [];
    var objects, pointers := Arranged(ObjectKey, s.objects), Arranged(PointerKey, s.pointers);
    ghost var tidy, tidyPointers := CanonicalObjects(s.objects), CanonicalPointers(s.pointers);
    for i := 0 to |objects|
      invariant facts == OfObjects(s, tidy[..i])
    {
      SaidObject(s, objects[i]);
      assert tidy[..i + 1][..i] == tidy[..i] && tidy[i] == TidyObject(objects[i]);
      facts := facts + [ObjectFactOf(s, objects[i])];
      facts := SayAttributes(facts, ObjectSubject(objects[i].id), objects[i].attributes, 0, None);
    }
    assert tidy[..|tidy|] == tidy;
    for i := 0 to |pointers|
      invariant facts == OfObjects(s, tidy) + OfPointers(tidyPointers[..i])
    {
      var p := pointers[i];
      SaidPointer(p);
      assert tidyPointers[..i + 1][..i] == tidyPointers[..i] && tidyPointers[i] == TidyPointer(p);
      facts := facts + [PointerFactOf(p)];
      facts := SayAttributes(facts, PointerSubject(p.id), p.attributes, p.bornAt, p.expiresAt);
    }
    assert tidyPointers[..|tidyPointers|] == tidyPointers;
    forall f ensures f in facts <==> f in Facts(s) {
      ListSaysFacts(s, f);
    }
  }

  lemma SaidObject(s: Snapshot, o: Object)
    ensures OfObject(s, TidyObject(o)) == [ObjectFactOf(s, o)] +
            OfAttributes(ObjectSubject(o.id), Sorted(o.attributes), 0, None)
  {
    hide Sorted;
  }

  lemma SaidPointer(p: Pointer)
    ensures OfPointer(TidyPointer(p)) ==
            [PointerFactOf(p)] + OfAttributes(PointerSubject(p.id), Sorted(p.attributes), p.bornAt, p.expiresAt)
  {
    hide Sorted;
  }

  // ---- what the facts say, field by field

  ghost predicate SaidOfObject(s: Snapshot, o: Object, f: Fact) {
    || (f.ObjectFact? && f.oid == o.id && f.name == o.name && f.typ == o.typ && f.existence == o.existence &&
        f.expired == (if o.existence == Tombstoned then Some(s.epoch) else None))
    || (f.AttributeFact? && f.subject == ObjectSubject(o.id) && Attribute(f.key, f.value) in o.attributes &&
        f.since == 0 && f.until == None)
  }

  ghost predicate SaidOfPointer(p: Pointer, f: Fact) {
    || (f.PointerFact? && f.pointer == p.id && f.from == p.from && f.to == p.to && f.relation == p.relation &&
        f.role == p.role && f.weight == p.weight && f.born == p.bornAt && f.expires == p.expiresAt &&
        f.lawDomain == p.lawDomain)
    || (f.AttributeFact? && f.subject == PointerSubject(p.id) && Attribute(f.key, f.value) in p.attributes &&
        f.since == p.bornAt && f.until == p.expiresAt)
  }

  // A fact is derived exactly when its fields are those of an object, a pointer or an
  // attribute of one.
  lemma FactsSay(s: Snapshot, f: Fact)
    ensures f in FactList(s) <==>
            || (exists o :: o in s.objects && SaidOfObject(s, o, f))
            || (exists p :: p in s.pointers && SaidOfPointer(p, f))
  {
    hide FactList, Facts, ObjectFacts, PointerFacts, SaidOfObject, SaidOfPointer;
    ListSaysFacts(s, f);
    forall o ensures f in ObjectFacts(s, o) <==> SaidOfObject(s, o, f) {
      ObjectSays(s, o, f);
    }
    forall p ensures f in PointerFacts(p) <==> SaidOfPointer(p, f) {
      PointerSays(p, f);
    }
    InFacts(s, f);
  }

  lemma ObjectSays(s: Snapshot, o: Object, f: Fact)
    ensures f in ObjectFacts(s, o) <==> SaidOfObject(s, o, f)
  {
    if SaidOfObject(s, o, f) && f.AttributeFact? {
      var a := Attribute(f.key, f.value);
      assert f == AttributeFact(ObjectSubject(o.id), a.key, a.value, 0, None);
    }
    if f in ObjectFacts(s, o) && f.AttributeFact? {
      var a :| a in o.attributes && f == AttributeFact(ObjectSubject(o.id), a.key, a.value, 0, None);
      assert a == Attribute(f.key, f.value);
    }
  }

  lemma PointerSays(p: Pointer, f: Fact)
    ensures f in PointerFacts(p) <==> SaidOfPointer(p, f)
  {
    if SaidOfPointer(p, f) && f.AttributeFact? {
      var a := Attribute(f.key, f.value);
      assert f == AttributeFact(PointerSubject(p.id), a.key, a.value, p.bornAt, p.expiresAt);
    }
    if f in PointerFacts(p) && f.AttributeFact? {
      var a :| a in p.attributes && f == AttributeFact(PointerSubject(p.id), a.key, a.value, p.bornAt, p.expiresAt);
      assert a == Attribute(f.key, f.value);
    }
  }
}
