// What an accepted delta leaves behind, read off the delta alone: every field holds what was
// written to it last, and everything new is what the operation that made it says.

module Effects {
  import opened Wrappers
  import opened Model
  import opened Attributes
  import opened AttributeOrder
  import opened Overlay
  import opened OverlayApply
  import opened Invariants

  function OrElse<T>(x: Option<T>, otherwise: T): T {
    if x.Some? then x.value else otherwise
  }

  function Init(delta: Delta): Delta
    requires delta != []
  {
    delta[..|delta| - 1]
  }

  function Last(delta: Delta): Op
    requires delta != []
  {
    delta[|delta| - 1]
  }

  // ---- what the operations make, and what their references name

  // How many objects a delta makes, and how many pointers.
  function Creates(delta: Delta): nat {
    if delta == [] then 0 else Creates(Init(delta)) + if Last(delta).CreateObject? then 1 else 0
  }

  function Links(delta: Delta): nat {
    if delta == [] then 0 else Links(Init(delta)) + if Last(delta).CreatePointer? then 1 else 0
  }

  // The id of the next object, and of the next pointer, after the operations of a delta.
  function FreshObject(base: Snapshot, delta: Delta): ObjectId {
    ObjectId(NextIndex(base.objects) + Creates(delta), 1)
  }

  function FreshPointer(base: Snapshot, delta: Delta): nat {
    NextPointer(base.pointers) + Links(delta)
  }

  predicate Exists(base: Snapshot, delta: Delta, id: ObjectId) {
    Contains(base, id) ||
      (id.generation == 1 && NextIndex(base.objects) <= id.index < NextIndex(base.objects) + Creates(delta))
  }

  // The object made by the last create with that temp id.
  function Made(base: Snapshot, delta: Delta, temp: nat): Option<ObjectId> {
    if delta == [] then None
    else if Last(delta).CreateObject? && Last(delta).temp == temp then Some(FreshObject(base, Init(delta)))
    else Made(base, Init(delta), temp)
  }

  // The object a reference names once the delta is done.
  function Named(base: Snapshot, delta: Delta, ref: Ref): Option<ObjectId> {
    match ref
    case ById(id) => if Exists(base, delta, id) then Some(id) else None
    case ByTemp(t) => Made(base, delta, t)
  }

  // ---- the last write of each field

  function LastType(base: Snapshot, delta: Delta, id: ObjectId): Option<nat> {
    if delta == [] then None
    else
      var op := Last(delta);
      if op.SetObjectType? && Named(base, Init(delta), op.target) == Some(id) then Some(op.typ)
      else LastType(base, Init(delta), id)
  }

  function LastExistence(base: Snapshot, delta: Delta, id: ObjectId): Option<Existence> {
    if delta == [] then None
    else
      var op := Last(delta);
      if op.SetObjectExistence? && Named(base, Init(delta), op.target) == Some(id) then Some(op.existence)
      else LastExistence(base, Init(delta), id)
  }

  // The value an attribute was last set to, or none where it was last removed.
  function LastValue(base: Snapshot, delta: Delta, id: ObjectId, key: string): Option<Option<Value>> {
    if delta == [] then None
    else
      var op := Last(delta);
      if op.SetObjectAttribute? && op.attribute.key == key && Named(base, Init(delta), op.target) == Some(id)
      then Some(Some(op.attribute.value))
      else if op.RemoveObjectAttribute? && op.key == key && Named(base, Init(delta), op.target) == Some(id)
      then Some(None)
      else LastValue(base, Init(delta), id, key)
  }

  function LastWeight(delta: Delta, pointer: nat): Option<Double> {
    if delta == [] then None
    else
      var op := Last(delta);
      if op.SetPointerWeight? && op.pointer == pointer then Some(op.weight) else LastWeight(Init(delta), pointer)
  }

  function LastPointerValue(delta: Delta, pointer: nat, key: string): Option<Option<Value>> {
    if delta == [] then None
    else
      var op := Last(delta);
      if op.SetPointerAttribute? && op.attribute.key == key && op.pointer == pointer
      then Some(Some(op.attribute.value))
      else if op.RemovePointerAttribute? && op.key == key && op.pointer == pointer then Some(None)
      else LastPointerValue(Init(delta), pointer, key)
  }

  // ---- what the creates and links of a delta make

  // The object of the last create, as the create describes it.
  function Newest(base: Snapshot, delta: Delta): Object
    requires delta != [] && Last(delta).CreateObject?
  {
    var op := Last(delta);
    Object(FreshObject(base, Init(delta)), op.name, op.typ, op.existence, op.attributes, 0, 0)
  }

  // The pointer of the last link, as the link describes it.
  function NewestPointer(base: Snapshot, delta: Delta): Pointer
    requires delta != [] && Last(delta).CreatePointer?
  {
    var op := Last(delta);
    Pointer(FreshPointer(base, Init(delta)), OrElse(Named(base, Init(delta), op.from), ObjectId(0, 0)),
            OrElse(Named(base, Init(delta), op.to), ObjectId(0, 0)), op.relation, op.role, op.weight,
            base.epoch + 1, None, if op.lawDomain == "" then "core" else op.lawDomain, op.attributes)
  }

  function NewObjects(base: Snapshot, delta: Delta): seq<Object> {
    if delta == [] then []
    else NewObjects(base, Init(delta)) + if Last(delta).CreateObject? then [Newest(base, delta)] else []
  }

  function NewPointers(base: Snapshot, delta: Delta): seq<Pointer> {
    if delta == [] then []
    else NewPointers(base, Init(delta)) + if Last(delta).CreatePointer? then [NewestPointer(base, delta)] else []
  }

  // ---- attributes, as what they say of a key

  // The key is there once, with that value, or not at all.
  ghost predicate Says(s: seq<Attribute>, key: string, x: Option<Value>) {
    forall v :: multiset(s)[Attribute(key, v)] == if x == Some(v) then 1 else 0
  }

  ghost predicate SaysAlike(s: seq<Attribute>, t: seq<Attribute>, key: string) {
    forall v :: multiset(s)[Attribute(key, v)] == multiset(t)[Attribute(key, v)]
  }

  // ---- an object and a pointer after a delta, against what they were at first

  ghost predicate ObjectAfter(base: Snapshot, delta: Delta, first: Object, o: Object) {
    && o.id == first.id && o.name == first.name
    && o.typ == OrElse(LastType(base, delta, o.id), first.typ)
    && o.existence == OrElse(LastExistence(base, delta, o.id), first.existence)
    && forall key :: ValueAfter(first.attributes, LastValue(base, delta, o.id, key), key, o.attributes)
  }

  ghost predicate PointerAfter(base: Snapshot, delta: Delta, first: Pointer, p: Pointer) {
    && p.id == first.id && p.from == first.from && p.to == first.to && p.relation == first.relation
    && p.role == first.role && p.bornAt == first.bornAt && p.lawDomain == first.lawDomain
    && p.weight == OrElse(LastWeight(delta, p.id), first.weight)
    && p.expiresAt == (if ExpirePointer(p.id) in delta then Some(base.epoch + 1) else first.expiresAt)
    && forall key :: ValueAfter(first.attributes, LastPointerValue(delta, p.id, key), key, p.attributes)
  }

  // A key nothing was written to says what it said; one that was there at most once says
  // what was last written.
  ghost predicate ValueAfter(first: seq<Attribute>, last: Option<Option<Value>>, key: string, s: seq<Attribute>) {
    && (last.None? ==> SaysAlike(s, first, key))
    && (forall x :: Says(first, key, x) ==> Says(s, key, OrElse(last, x)))
  }

  // The active pointers into an object and out of it, by their positions.
  function ActiveInto(pointers: seq<Pointer>, epoch: nat, id: ObjectId): set<int> {
    set j | 0 <= j < |pointers| && ActiveAt(pointers[j], epoch) && pointers[j].to == id
  }

  function ActiveOutOf(pointers: seq<Pointer>, epoch: nat, id: ObjectId): set<int> {
    set j | 0 <= j < |pointers| && ActiveAt(pointers[j], epoch) && pointers[j].from == id
  }

  ghost predicate ObjectsAfter(base: Snapshot, delta: Delta, objects: seq<Object>) {
    var first := base.objects + NewObjects(base, delta);
    |objects| == |first| && forall i :: 0 <= i < |objects| ==> ObjectAfter(base, delta, first[i], objects[i])
  }

  ghost predicate PointersAfter(base: Snapshot, delta: Delta, pointers: seq<Pointer>) {
    var first := base.pointers + NewPointers(base, delta);
    |pointers| == |first| && forall i :: 0 <= i < |pointers| ==> PointerAfter(base, delta, first[i], pointers[i])
  }

  // ---- the attribute lists

  lemma SortedMultiset(s: seq<Attribute>)
    ensures multiset(Sorted(s)) == multiset(s)
  {
    SortedTwice(s);
    SortedSame(Sorted(s), s);
  }

  lemma PutMultiset(s: seq<Attribute>, i: nat, a: Attribute)
    requires i < |s|
    ensures multiset(s[i := a]) == multiset(s) - multiset{s[i]} + multiset{a}
  {
  }

  // Setting a key changes what is said of it, and of no other key.
  lemma SetSays(s: seq<Attribute>, a: Attribute)
    ensures forall key :: key != a.key ==> SaysAlike(SetAttribute(s, a), s, key)
    ensures forall x :: Says(s, a.key, x) ==> Says(SetAttribute(s, a), a.key, Some(a.value))
  {
    hide Sorted;
    match FindKey(s, a.key)
    case None =>
      SortedMultiset(s + [a]);
      forall v ensures multiset(s)[Attribute(a.key, v)] == 0 {
        NotHeld(s, a.key, v);
      }
    case Some(i) =>
      SortedMultiset(s[i := a]);
      PutMultiset(s, i, a);
      assert s[i] == Attribute(a.key, s[i].value) && s[i] in multiset(s);
  }

  lemma NotHeld(s: seq<Attribute>, key: string, v: Value)
    requires !HasKey(s, key)
    ensures Attribute(key, v) !in s
  {
  }

  lemma {:induction false} RemoveSays(s: seq<Attribute>, key: string)
    ensures forall k :: k != key ==> SaysAlike(RemoveAttribute(s, key), s, k)
    ensures Says(RemoveAttribute(s, key), key, None)
  {
    if s != [] {
      var rest := RemoveAttribute(s[1..], key);
      RemoveSays(s[1..], key);
      assert s == [s[0]] + s[1..];
      forall k, v | k != key
        ensures multiset(RemoveAttribute(s, key))[Attribute(k, v)] == multiset(s)[Attribute(k, v)]
      {
        assert SaysAlike(rest, s[1..], k);
      }
    }
  }

  // Setting a key leaves the new value as the only one exactly when the key was not repeated.
  lemma SetOnce(s: seq<Attribute>, a: Attribute)
    ensures Says(SetAttribute(s, a), a.key, Some(a.value)) <==> exists x :: Says(s, a.key, x)
  {
    hide Sorted;
    SetSays(s, a);
    match FindKey(s, a.key)
    case None =>
      assert forall v :: !HasKey(s, a.key) ==> Attribute(a.key, v) !in s;
      assert Says(s, a.key, None);
    case Some(i) =>
      SortedMultiset(s[i := a]);
      PutMultiset(s, i, a);
      assert s[i] == Attribute(a.key, s[i].value) && s[i] in multiset(s);
      if Says(SetAttribute(s, a), a.key, Some(a.value)) {
        assert forall v :: multiset(SetAttribute(s, a))[Attribute(a.key, v)] == if v == a.value then 1 else 0;
        assert Says(s, a.key, Some(s[i].value));
      }
  }

  lemma RepeatedKey()
    ensures var s := [Attribute("k", Bool(false)), Attribute("k", Bool(true))];
            !Says(SetAttribute(s, Attribute("k", Null)), "k", Some(Null))
  {
    hide Sorted;
    var s, a := [Attribute("k", Bool(false)), Attribute("k", Bool(true))], Attribute("k", Null);
    assert s[0].key == "k";
    assert FindKey(s, "k") == Some(0);
    SortedMultiset(s[0 := a]);
    assert s[0 := a] == [a, s[1]];
    assert multiset(SetAttribute(s, a))[Attribute("k", Bool(true))] == 1;
  }

  // New ids start one above the largest in use.
  lemma {:induction false} NextIndexTight(objects: seq<Object>)
    ensures NextIndex(objects) != 0 ==> exists i :: 0 <= i < |objects| && objects[i].id.index == NextIndex(objects) - 1
  {
    if objects != [] {
      var rest := objects[..|objects| - 1];
      NextIndexTight(rest);
      if NextIndex(objects) == 0 {
      } else if NextIndex(objects) == NextIndex(rest) {
        var i :| 0 <= i < |rest| && rest[i].id.index == NextIndex(rest) - 1;
        assert objects[i].id.index == NextIndex(objects) - 1;
      } else {
        assert objects[|rest|].id.index == NextIndex(objects) - 1;
      }
    }
  }

  lemma {:induction false} NextPointerTight(pointers: seq<Pointer>)
    ensures NextPointer(pointers) != 1 ==>
            exists i :: 0 <= i < |pointers| && pointers[i].id == NextPointer(pointers) - 1
  {
    if pointers != [] {
      var rest := pointers[..|pointers| - 1];
      NextPointerTight(rest);
      if NextPointer(pointers) == 1 {
      } else if NextPointer(pointers) == NextPointer(rest) {
        var i :| 0 <= i < |rest| && rest[i].id == NextPointer(rest) - 1;
        assert pointers[i].id == NextPointer(pointers) - 1;
      } else {
        assert pointers[|rest|].id == NextPointer(pointers) - 1;
      }
    }
  }

  // ---- the run, as far as it has come

  ghost predicate Tracks(base: Snapshot, delta: Delta, st: State) {
    && st.snap.epoch == base.epoch + 1 && st.snap.world == base.world && st.snap.worldName == base.worldName
    && TracksIds(base, delta, st)
    && ObjectsAfter(base, delta, st.snap.objects)
    && PointersAfter(base, delta, st.snap.pointers)
  }

  ghost predicate TracksIds(base: Snapshot, delta: Delta, st: State) {
    && NextIndex(st.snap.objects) == NextIndex(base.objects) + Creates(delta)
    && NextPointer(st.snap.pointers) == NextPointer(base.pointers) + Links(delta)
    && (forall id :: Contains(st.snap, id) <==> Exists(base, delta, id))
    && (forall t :: Made(base, delta, t) == if t in st.temps then Some(st.temps[t]) else None)
    && (forall op :: op in delta && PointerOp(op) ==> op.pointer < NextPointer(st.snap.pointers))
  }

  lemma ResolveNamed(base: Snapshot, delta: Delta, st: State, ref: Ref)
    requires StateOk(st) && TracksIds(base, delta, st)
    ensures Resolve(st, ref) == Named(base, delta, ref)
  {
  }

  lemma {:induction false} MadeExists(base: Snapshot, delta: Delta, temp: nat)
    ensures Made(base, delta, temp).Some? ==> Exists(base, delta, Made(base, delta, temp).value)
  {
    if delta != [] {
      MadeExists(base, Init(delta), temp);
    }
  }

  // An object that is not there yet has not been written to.
  lemma {:induction false} NotYetWritten(base: Snapshot, delta: Delta, id: ObjectId)
    requires !Exists(base, delta, id)
    ensures LastType(base, delta, id).None? && LastExistence(base, delta, id).None?
    ensures forall key :: LastValue(base, delta, id, key).None?
  {
    if delta != [] {
      NotYetWritten(base, Init(delta), id);
      var op := Last(delta);
      if ObjectOp(op) && op.target.ByTemp? {
        MadeExists(base, Init(delta), op.target.temp);
      }
    }
  }

  lemma {:induction false} PointerNotYetWritten(delta: Delta, pointer: nat)
    requires forall op :: op in delta && PointerOp(op) ==> op.pointer < pointer
    ensures LastWeight(delta, pointer).None? && ExpirePointer(pointer) !in delta
    ensures forall key :: LastPointerValue(delta, pointer, key).None?
  {
    if delta != [] {
      PointerNotYetWritten(Init(delta), pointer);
      assert Last(delta) in delta;
    }
  }

  // ---- one operation more

  lemma ValueKept(first: seq<Attribute>, last: Option<Option<Value>>, key: string, s: seq<Attribute>, t: seq<Attribute>)
    requires ValueAfter(first, last, key, s) && SaysAlike(t, s, key)
    ensures ValueAfter(first, last, key, t)
  {
    forall x | Says(first, key, x) ensures Says(t, key, OrElse(last, x)) {
      assert Says(s, key, OrElse(last, x));
    }
  }

  lemma ValueWritten(first: seq<Attribute>, last: Option<Option<Value>>, key: string, s: seq<Attribute>,
                     x: Option<Value>, t: seq<Attribute>)
    requires ValueAfter(first, last, key, s)
    requires forall y :: Says(s, key, y) ==> Says(t, key, x)
    ensures ValueAfter(first, Some(x), key, t)
  {
    forall y | Says(first, key, y) ensures Says(t, key, x) {
      assert Says(s, key, OrElse(last, y));
    }
  }

  lemma ObjectLater(base: Snapshot, delta: Delta, first: Object, o: Object)
    requires delta != [] && ObjectAfter(base, Init(delta), first, o)
    ensures var op := Last(delta);
            if ObjectOp(op) && Named(base, Init(delta), op.target) == Some(o.id)
            then ObjectAfter(base, delta, first, EditObject(o, op))
            else ObjectAfter(base, delta, first, o)
  {
    hide Named, SetAttribute, RemoveAttribute, Says, SaysAlike, ValueAfter;
    var op := Last(delta);
    var edited := if ObjectOp(op) && Named(base, Init(delta), op.target) == Some(o.id) then EditObject(o, op) else o;
    forall key ensures ValueAfter(first.attributes, LastValue(base, delta, o.id, key), key, edited.attributes) {
      var last := LastValue(base, Init(delta), o.id, key);
      assert ValueAfter(first.attributes, last, key, o.attributes);
      AttributesLater(first.attributes, last, key, o.attributes, op);
    }
  }

  // The entries of a key after setting or removing it, or another.
  lemma AttributesLater(first: seq<Attribute>, last: Option<Option<Value>>, key: string, s: seq<Attribute>, op: Op)
    requires ValueAfter(first, last, key, s)
    ensures op.SetObjectAttribute? || op.SetPointerAttribute? ==>
            ValueAfter(first, if op.attribute.key == key then Some(Some(op.attribute.value)) else last, key,
                       SetAttribute(s, op.attribute))
    ensures op.RemoveObjectAttribute? || op.RemovePointerAttribute? ==>
            ValueAfter(first, if op.key == key then Some(None) else last, key, RemoveAttribute(s, op.key))
  {
    hide SetAttribute, RemoveAttribute, Says, SaysAlike, ValueAfter;
    if op.SetObjectAttribute? || op.SetPointerAttribute? {
      SetSays(s, op.attribute);
      if op.attribute.key == key {
        ValueWritten(first, last, key, s, Some(op.attribute.value), SetAttribute(s, op.attribute));
      } else {
        ValueKept(first, last, key, s, SetAttribute(s, op.attribute));
      }
    } else if op.RemoveObjectAttribute? || op.RemovePointerAttribute? {
      RemoveSays(s, op.key);
      if op.key == key {
        ValueWritten(first, last, key, s, None, RemoveAttribute(s, op.key));
      } else {
        ValueKept(first, last, key, s, RemoveAttribute(s, op.key));
      }
    }
  }

  lemma PointerLater(base: Snapshot, delta: Delta, first: Pointer, p: Pointer)
    requires delta != [] && PointerAfter(base, Init(delta), first, p)
    ensures var op := Last(delta);
            if PointerOp(op) && op.pointer == p.id
            then PointerAfter(base, delta, first, EditPointer(p, op, base.epoch + 1))
            else PointerAfter(base, delta, first, p)
  {
    hide SetAttribute, RemoveAttribute, Says, SaysAlike, ValueAfter;
    var op := Last(delta);
    assert delta == Init(delta) + [op];
    var edited := if PointerOp(op) && op.pointer == p.id then EditPointer(p, op, base.epoch + 1) else p;
    forall key ensures ValueAfter(first.attributes, LastPointerValue(delta, p.id, key), key, edited.attributes) {
      var last := LastPointerValue(Init(delta), p.id, key);
      assert ValueAfter(first.attributes, last, key, p.attributes);
      AttributesLater(first.attributes, last, key, p.attributes, op);
    }
  }

  // ---- a step, by kind

  lemma OldObjectsLater(base: Snapshot, delta: Delta, objects: seq<Object>)
    requires delta != [] && ObjectsAfter(base, Init(delta), objects)
    ensures var op := Last(delta);
            forall i :: 0 <= i < |objects| ==>
              if ObjectOp(op) && Named(base, Init(delta), op.target) == Some(objects[i].id)
              then ObjectAfter(base, delta, (base.objects + NewObjects(base, delta))[i], EditObject(objects[i], op))
              else ObjectAfter(base, delta, (base.objects + NewObjects(base, delta))[i], objects[i])
  {
    hide ObjectAfter, Named, EditObject;
    var first := base.objects + NewObjects(base, Init(delta));
    forall i | 0 <= i < |objects|
      ensures first[i] == (base.objects + NewObjects(base, delta))[i]
      ensures ObjectAfter(base, Init(delta), first[i], objects[i])
    {
    }
    forall i | 0 <= i < |objects| {
      ObjectLater(base, delta, first[i], objects[i]);
    }
  }

  lemma OldPointersLater(base: Snapshot, delta: Delta, pointers: seq<Pointer>)
    requires delta != [] && PointersAfter(base, Init(delta), pointers)
    ensures var op := Last(delta);
            forall i :: 0 <= i < |pointers| ==>
              if PointerOp(op) && op.pointer == pointers[i].id
              then PointerAfter(base, delta, (base.pointers + NewPointers(base, delta))[i],
                                EditPointer(pointers[i], op, base.epoch + 1))
              else PointerAfter(base, delta, (base.pointers + NewPointers(base, delta))[i], pointers[i])
  {
    hide PointerAfter, Named, EditPointer;
    var first := base.pointers + NewPointers(base, Init(delta));
    forall i | 0 <= i < |pointers|
      ensures first[i] == (base.pointers + NewPointers(base, delta))[i]
      ensures PointerAfter(base, Init(delta), first[i], pointers[i])
    {
    }
    forall i | 0 <= i < |pointers| {
      PointerLater(base, delta, first[i], pointers[i]);
    }
  }

  lemma ObjectsStay(base: Snapshot, delta: Delta, objects: seq<Object>)
    requires delta != [] && !ObjectOp(Last(delta)) && !Last(delta).CreateObject?
    requires ObjectsAfter(base, Init(delta), objects)
    ensures ObjectsAfter(base, delta, objects)
  {
    hide ObjectAfter;
    OldObjectsLater(base, delta, objects);
  }

  lemma ObjectsEdited(base: Snapshot, delta: Delta, objects: seq<Object>, i: nat)
    requires delta != [] && ObjectOp(Last(delta)) && i < |objects| && ObjectsAfter(base, Init(delta), objects)
    requires forall j :: 0 <= j < |objects| ==>
               (Named(base, Init(delta), Last(delta).target) == Some(objects[j].id) <==> j == i)
    ensures ObjectsAfter(base, delta, objects[i := EditObject(objects[i], Last(delta))])
  {
    hide ObjectAfter, EditObject, Named;
    OldObjectsLater(base, delta, objects);
  }

  lemma ObjectsPushed(base: Snapshot, delta: Delta, objects: seq<Object>, o: Object)
    requires delta != [] && Last(delta).CreateObject? && ObjectsAfter(base, Init(delta), objects)
    requires ObjectAfter(base, delta, Newest(base, delta), o)
    ensures ObjectsAfter(base, delta, objects + [o])
  {
    hide ObjectAfter;
    OldObjectsLater(base, delta, objects);
    assert (base.objects + NewObjects(base, delta))[|objects|] == Newest(base, delta);
  }

  lemma PointersStay(base: Snapshot, delta: Delta, pointers: seq<Pointer>)
    requires delta != [] && !PointerOp(Last(delta)) && !Last(delta).CreatePointer?
    requires PointersAfter(base, Init(delta), pointers)
    ensures PointersAfter(base, delta, pointers)
  {
    hide PointerAfter;
    OldPointersLater(base, delta, pointers);
  }

  lemma PointersEdited(base: Snapshot, delta: Delta, pointers: seq<Pointer>, i: nat)
    requires delta != [] && PointerOp(Last(delta)) && i < |pointers| && PointersAfter(base, Init(delta), pointers)
    requires forall j :: 0 <= j < |pointers| ==> (Last(delta).pointer == pointers[j].id <==> j == i)
    ensures PointersAfter(base, delta, pointers[i := EditPointer(pointers[i], Last(delta), base.epoch + 1)])
  {
    hide PointerAfter, EditPointer;
    OldPointersLater(base, delta, pointers);
  }

  lemma PointersPushed(base: Snapshot, delta: Delta, pointers: seq<Pointer>, p: Pointer)
    requires delta != [] && Last(delta).CreatePointer? && PointersAfter(base, Init(delta), pointers)
    requires PointerAfter(base, delta, NewestPointer(base, delta), p)
    ensures PointersAfter(base, delta, pointers + [p])
  {
    hide PointerAfter;
    OldPointersLater(base, delta, pointers);
    assert (base.pointers + NewPointers(base, delta))[|pointers|] == NewestPointer(base, delta);
  }

  lemma EditKeepsId(o: Object, op: Op)
    ensures EditObject(o, op).id == o.id && EditObject(o, op).name == o.name
  {
  }

  lemma PointerEditKeepsId(p: Pointer, op: Op, epoch: nat)
    ensures EditPointer(p, op, epoch).id == p.id
  {
  }

  // A step that makes nothing leaves the ids as they are.
  lemma IdsTracked(base: Snapshot, delta: Delta, st: State, next: State)
    requires delta != [] && !Last(delta).CreateObject? && !Last(delta).CreatePointer?
    requires TracksIds(base, Init(delta), st) && next.temps == st.temps
    requires IdSet(next.snap.objects) == IdSet(st.snap.objects)
    requires NextIndex(next.snap.objects) == NextIndex(st.snap.objects)
    requires NextPointer(next.snap.pointers) == NextPointer(st.snap.pointers)
    requires PointerOp(Last(delta)) ==> Last(delta).pointer < NextPointer(st.snap.pointers)
    ensures TracksIds(base, delta, next)
  {
    hide NextIndex, NextPointer, IdSet;
    assert delta == Init(delta) + [Last(delta)];
    forall id ensures Contains(next.snap, id) <==> Exists(base, delta, id) {
      assert Contains(st.snap, id) <==> Exists(base, Init(delta), id);
    }
    forall t ensures Made(base, delta, t) == Made(base, Init(delta), t) {
    }
  }

  lemma ObjectTracks(base: Snapshot, delta: Delta, st: State)
    requires delta != [] && ObjectOp(Last(delta)) && StateOk(st) && Tracks(base, Init(delta), st)
    requires StepObject(st, Last(delta)).Ok?
    ensures Tracks(base, delta, StepObject(st, Last(delta)).value)
  {
    hide EditObject, ObjectsAfter, PointersAfter, TracksIds, HasSymbol, Resolve, Named, PointersOk, IdSet, NextIndex;
    var op, objects := Last(delta), st.snap.objects;
    var i := FindObject(objects, Resolve(st, op.target).value).value;
    EditKeepsId(objects[i], op);
    PutIndex(objects, i, EditObject(objects[i], op));
    ExtendsIds(objects, objects[i := EditObject(objects[i], op)]);
    ExtendsIds(objects[i := EditObject(objects[i], op)], objects);
    ResolveNamed(base, Init(delta), st, op.target);
    ObjectsEdited(base, delta, objects, i);
    PointersStay(base, delta, st.snap.pointers);
    IdsTracked(base, delta, st, StepObject(st, op).value);
  }

  lemma PointerTracks(base: Snapshot, delta: Delta, st: State)
    requires delta != [] && PointerOp(Last(delta)) && StateOk(st) && Tracks(base, Init(delta), st)
    requires StepPointer(st, Last(delta)).Ok?
    ensures Tracks(base, delta, StepPointer(st, Last(delta)).value)
  {
    hide EditPointer, ObjectsAfter, PointersAfter, TracksIds, ObjectsOk, PointerOk, IdSet, NextPointer;
    var op, pointers := Last(delta), st.snap.pointers;
    var i := FindPointer(pointers, op.pointer).value;
    PointerEditKeepsId(pointers[i], op, st.snap.epoch);
    PutPointerIndex(pointers, i, EditPointer(pointers[i], op, st.snap.epoch));
    NextPointerAbove(pointers);
    ObjectsStay(base, delta, st.snap.objects);
    PointersEdited(base, delta, pointers, i);
    IdsTracked(base, delta, st, StepPointer(st, op).value);
  }

  lemma SortedSays(s: seq<Attribute>, key: string)
    ensures ValueAfter(s, None, key, Sorted(s))
  {
    hide Sorted;
    SortedMultiset(s);
  }

  lemma NewestAfter(base: Snapshot, delta: Delta, o: Object)
    requires delta != [] && Last(delta).CreateObject?
    requires o == Newest(base, delta).(attributes := Sorted(Last(delta).attributes))
    ensures ObjectAfter(base, delta, Newest(base, delta), o)
  {
    hide Sorted, Named, ValueAfter;
    NextIndexAbove(base.objects);
    NotYetWritten(base, Init(delta), o.id);
    forall key ensures ValueAfter(Last(delta).attributes, LastValue(base, delta, o.id, key), key, o.attributes) {
      SortedSays(Last(delta).attributes, key);
    }
  }

  lemma CreateTracksIds(base: Snapshot, delta: Delta, st: State)
    requires delta != [] && Last(delta).CreateObject? && StateOk(st) && TracksIds(base, Init(delta), st)
    requires StepCreate(st, Last(delta)).Ok?
    ensures TracksIds(base, delta, StepCreate(st, Last(delta)).value)
  {
    hide WellFormed, HasSymbol, Sorted, IdSet, NextIndex, NextPointer, Made;
    var op, objects, o := Last(delta), st.snap.objects, NewObject(st, Last(delta));
    var next := StepCreate(st, op).value;
    assert delta == Init(delta) + [op];
    PushNames(objects, o);
    PushIds(objects, o);
    forall id ensures Contains(next.snap, id) <==> Exists(base, delta, id) {
      assert Contains(st.snap, id) <==> Exists(base, Init(delta), id);
    }
    forall t ensures Made(base, delta, t) == if t in next.temps then Some(next.temps[t]) else None {
      MadeLast(base, delta, t);
    }
  }

  lemma MadeLast(base: Snapshot, delta: Delta, t: nat)
    requires delta != []
    ensures Made(base, delta, t) ==
            if Last(delta).CreateObject? && Last(delta).temp == t then Some(FreshObject(base, Init(delta)))
            else Made(base, Init(delta), t)
  {
  }

  lemma PushIds(objects: seq<Object>, o: Object)
    ensures IdSet(objects + [o]) == IdSet(objects) + {o.id}
  {
    var after := objects + [o];
    assert after[|objects|] == o;
    forall id | id in IdSet(objects) ensures id in IdSet(after) {
      var k :| 0 <= k < |objects| && objects[k].id == id;
      assert after[k].id == id;
    }
  }

  // What a create makes is the newest object, to which nothing has been written.
  lemma CreateTracks(base: Snapshot, delta: Delta, st: State)
    requires delta != [] && Last(delta).CreateObject? && StateOk(st) && Tracks(base, Init(delta), st)
    requires StepCreate(st, Last(delta)).Ok?
    ensures Tracks(base, delta, StepCreate(st, Last(delta)).value)
  {
    hide ObjectsAfter, PointersAfter, HasSymbol, Sorted, StateOk, NameSet;
    CreateTracksIds(base, delta, st);
    NewestAfter(base, delta, NewObject(st, Last(delta)));
    ObjectsPushed(base, delta, st.snap.objects, NewObject(st, Last(delta)));
    PointersStay(base, delta, st.snap.pointers);
  }

  lemma NewestPointerAfter(base: Snapshot, delta: Delta, p: Pointer)
    requires delta != [] && Last(delta).CreatePointer?
    requires forall op :: op in Init(delta) && PointerOp(op) ==> op.pointer < p.id
    requires p == NewestPointer(base, delta).(attributes := Sorted(Last(delta).attributes))
    ensures PointerAfter(base, delta, NewestPointer(base, delta), p)
  {
    hide Sorted, Named, ValueAfter;
    assert delta == Init(delta) + [Last(delta)];
    PointerNotYetWritten(Init(delta), p.id);
    forall key ensures ValueAfter(Last(delta).attributes, LastPointerValue(delta, p.id, key), key, p.attributes) {
      SortedSays(Last(delta).attributes, key);
    }
  }

  lemma LinkTracks(base: Snapshot, delta: Delta, st: State)
    requires delta != [] && Last(delta).CreatePointer? && StateOk(st) && Tracks(base, Init(delta), st)
    requires StepLink(st, Last(delta)).Ok?
    ensures Tracks(base, delta, StepLink(st, Last(delta)).value)
  {
    hide ObjectsAfter, PointersAfter, PointerAfter, HasSymbol, Sorted, StateOk, Resolve, Named, Exists, IdSet;
    var op, pointers := Last(delta), st.snap.pointers;
    ResolveNamed(base, Init(delta), st, op.from);
    ResolveNamed(base, Init(delta), st, op.to);
    var p := NewPointer(st, op, Resolve(st, op.from).value, Resolve(st, op.to).value);
    assert delta == Init(delta) + [op];
    assert (pointers + [p])[..|pointers|] == pointers;
    NewestPointerAfter(base, delta, p);
    ObjectsStay(base, delta, st.snap.objects);
    PointersPushed(base, delta, pointers, p);
    LinkTracksIds(base, delta, st, StepLink(st, op).value);
  }

  lemma LinkTracksIds(base: Snapshot, delta: Delta, st: State, next: State)
    requires delta != [] && Last(delta).CreatePointer? && TracksIds(base, Init(delta), st)
    requires next.temps == st.temps && next.snap.objects == st.snap.objects
    requires NextPointer(next.snap.pointers) == NextPointer(st.snap.pointers) + 1
    ensures TracksIds(base, delta, next)
  {
    hide NextIndex, NextPointer, IdSet;
    assert delta == Init(delta) + [Last(delta)];
    forall id ensures Contains(next.snap, id) <==> Exists(base, delta, id) {
      assert Contains(st.snap, id) <==> Exists(base, Init(delta), id);
    }
    forall t ensures Made(base, delta, t) == Made(base, Init(delta), t) {
    }
  }

  lemma IdleTracks(base: Snapshot, delta: Delta, st: State)
    requires delta != [] && Tracks(base, Init(delta), st) && Step(st, Last(delta)).Ok?
    requires var op := Last(delta); !ObjectOp(op) && !PointerOp(op) && !op.CreateObject? && !op.CreatePointer?
    ensures Tracks(base, delta, Step(st, Last(delta)).value)
  {
    hide ObjectsAfter, PointersAfter, TracksIds, InternName, Facts, IdSet, NextIndex, NextPointer;
    ObjectsStay(base, delta, st.snap.objects);
    PointersStay(base, delta, st.snap.pointers);
    IdsTracked(base, delta, st, Step(st, Last(delta)).value);
  }

  lemma StepTracks(base: Snapshot, delta: Delta, st: State)
    requires delta != [] && StateOk(st) && Tracks(base, Init(delta), st) && Step(st, Last(delta)).Ok?
    ensures Tracks(base, delta, Step(st, Last(delta)).value)
  {
    hide Tracks, StateOk, StepObject, StepPointer, StepCreate, StepLink, InternName, Facts;
    var op := Last(delta);
    if ObjectOp(op) {
      ObjectTracks(base, delta, st);
    } else if PointerOp(op) {
      PointerTracks(base, delta, st);
    } else if op.CreateObject? {
      CreateTracks(base, delta, st);
    } else if op.CreatePointer? {
      LinkTracks(base, delta, st);
    } else {
      IdleTracks(base, delta, st);
    }
  }

  lemma StartTracks(base: Snapshot)
    ensures Tracks(base, [], Start(base))
  {
  }

  lemma {:induction false} RunTracks(base: Snapshot, delta: Delta)
    requires WellFormed(base) && Run(Start(base), delta).Ok?
    ensures Tracks(base, delta, Run(Start(base), delta).value)
    decreases |delta|
  {
    hide Tracks, Step, StateOk, WellFormed;
    if delta == [] {
      StartTracks(base);
    } else {
      var op, st := Last(delta), Run(Start(base), Init(delta));
      assert delta == Init(delta) + [op];
      RunAppend(Start(base), Init(delta), [op]);
      RunTracks(base, Init(delta));
      StartKeeps(base);
      RunKeeps(Start(base), Init(delta));
      StepTracks(base, delta, st.value);
    }
  }

  // ---- the counts

  lemma {:induction false} IncomingAre(pointers: seq<Pointer>, epoch: nat, id: ObjectId)
    ensures Incoming(pointers, epoch, id) == |ActiveInto(pointers, epoch, id)|
  {
    hide ActiveAt;
    if pointers != [] {
      var last := |pointers| - 1;
      var p, rest := pointers[last], pointers[..last];
      var before, added := ActiveInto(rest, epoch, id), if ActiveAt(p, epoch) && p.to == id then {last} else {};
      IncomingAre(rest, epoch, id);
      forall j ensures j in ActiveInto(pointers, epoch, id) <==> j in before + added {
        assert 0 <= j < last ==> rest[j] == pointers[j];
      }
      assert ActiveInto(pointers, epoch, id) == before + added;
    }
  }

  lemma {:induction false} OutgoingAre(pointers: seq<Pointer>, epoch: nat, id: ObjectId)
    ensures Outgoing(pointers, epoch, id) == |ActiveOutOf(pointers, epoch, id)|
  {
    hide ActiveAt;
    if pointers != [] {
      var last := |pointers| - 1;
      var p, rest := pointers[last], pointers[..last];
      var before, added := ActiveOutOf(rest, epoch, id), if ActiveAt(p, epoch) && p.from == id then {last} else {};
      OutgoingAre(rest, epoch, id);
      forall j ensures j in ActiveOutOf(pointers, epoch, id) <==> j in before + added {
        assert 0 <= j < last ==> rest[j] == pointers[j];
      }
      assert ActiveOutOf(pointers, epoch, id) == before + added;
    }
  }

  // ---- the theorem

  // What an accepted delta does to a well-formed snapshot. The objects and pointers there
  // were stand first, then those made, in order; each has what was written to it last and
  // otherwise what it had or was made with. The counts are those of the active pointers.
  lemma Effect(base: Snapshot, delta: Delta)
    requires WellFormed(base) && Apply(base, delta).Ok?
    ensures var after := Apply(base, delta).value;
            && after.world == base.world && after.worldName == base.worldName && after.epoch == base.epoch + 1
            && ObjectsAfter(base, delta, after.objects)
            && PointersAfter(base, delta, after.pointers)
            && forall i :: 0 <= i < |after.objects| ==>
                 && after.objects[i].incoming == |ActiveInto(after.pointers, after.epoch, after.objects[i].id)|
                 && after.objects[i].outgoing == |ActiveOutOf(after.pointers, after.epoch, after.objects[i].id)|
  {
    hide Run, StateOk, ObjectAfter, PointerAfter, SymbolsOk, PointersOk;
    RunTracks(base, delta);
    StartKeeps(base);
    RunKeeps(Start(base), delta);
    var s := Run(Start(base), delta).value.snap;
    var after := Recount(s);
    StateSnap(Run(Start(base), delta).value);
    var first := base.objects + NewObjects(base, delta);
    forall i | 0 <= i < |after.objects|
      ensures ObjectAfter(base, delta, first[i], after.objects[i])
      ensures after.objects[i].incoming == |ActiveInto(after.pointers, after.epoch, after.objects[i].id)|
      ensures after.objects[i].outgoing == |ActiveOutOf(after.pointers, after.epoch, after.objects[i].id)|
    {
      assert FindObject(s.objects, s.objects[i].id) == Some(i);
      assert ObjectAfter(base, delta, first[i], s.objects[i]);
      CountedAfter(base, delta, first[i], s.objects[i], after.objects[i]);
      IncomingAre(s.pointers, s.epoch, s.objects[i].id);
      OutgoingAre(s.pointers, s.epoch, s.objects[i].id);
    }
  }

  lemma StateSnap(st: State)
    requires StateOk(st)
    ensures WellFormed(st.snap)
  {
  }

  lemma CountedAfter(base: Snapshot, delta: Delta, first: Object, o: Object, p: Object)
    requires ObjectAfter(base, delta, first, o) && p == o.(incoming := p.incoming, outgoing := p.outgoing)
    ensures ObjectAfter(base, delta, first, p)
  {
  }
}
