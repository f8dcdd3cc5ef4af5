// SnapshotOverlay::apply as it runs: a copy of the base updated operation by operation,
// with the name set, the temp table and the two id counters carried along.

module OverlayApply {
  import opened Wrappers
  import opened Model
  import opened Attributes
  import opened Overlay
  import opened FactDerivation

  method NextSymbolOf(names: map<nat, string>) returns (next: nat)
    ensures next == NextSymbol(names)
  {
    next := 1;
    var left := names.Keys;
    while left != {}
      invariant left <= names.Keys && next >= 1
      invariant forall k :: k in names && k !in left ==> k < next
      invariant next == 1 || next - 1 in names
      decreases |left|
    {
      var k :| k in left;
      next := Max(next, k + 1);
      left := left - {k};
    }
    var spec := NextSymbol(names);
    assert next == 1 || next - 1 < spec;
    assert spec == 1 || spec - 1 < next;
  }

  method Intern(names: map<nat, string>, name: string, symbol: nat) returns (r: Result<map<nat, string>, OverlayError>)
    ensures r == InternName(names, name, symbol)
  {
    if name == "" {
      return Err(InvalidSymbol);
    }
    if name in names.Values {
      return Ok(names);
    }
    var at := symbol;
    if symbol == 0 {
      at := NextSymbolOf(names);
    }
    if at in names && names[at] != name {
      return Err(InvalidSymbol);
    }
    return Ok(names[at := name]);
  }

  method NextIndexOf(objects: seq<Object>) returns (next: nat)
    ensures next == NextIndex(objects)
  {
    next := 0;
    for i := 0 to |objects|
      invariant next == NextIndex(objects[..i])
    {
      assert objects[..i + 1][..i] == objects[..i];
      next := Max(next, objects[i].id.index + 1);
    }
    assert objects[..|objects|] == objects;
  }

  method NextPointerOf(pointers: seq<Pointer>) returns (next: nat)
    ensures next == NextPointer(pointers)
  {
    next := 1;
    for i := 0 to |pointers|
      invariant next == NextPointer(pointers[..i])
    {
      assert pointers[..i + 1][..i] == pointers[..i];
      next := Max(next, pointers[i].id + 1);
    }
    assert pointers[..|pointers|] == pointers;
  }

  // One more active pointer counted at its two ends.
  function Count(objects: seq<Object>, p: Pointer, epoch: nat): seq<Object> {
    if !ActiveAt(p, epoch) then objects
    else
      var from, to := FindObject(objects, p.from), FindObject(objects, p.to);
      var out := if from.Some?
                 then objects[from.value := objects[from.value].(outgoing := objects[from.value].outgoing + 1)]
                 else objects;
      if to.Some? then out[to.value := out[to.value].(incoming := out[to.value].incoming + 1)] else out
  }

  lemma CountAt(objects: seq<Object>, before: seq<Object>, pointers: seq<Pointer>, k: nat, epoch: nat, i: nat)
    requires k < |pointers| && |before| == |objects| && i < |objects| && Ids(before) == Ids(objects)
    requires before[i] == Counted(objects, pointers[..k], epoch, i)
    ensures |Count(before, pointers[k], epoch)| == |objects|
    ensures Count(before, pointers[k], epoch)[i] == Counted(objects, pointers[..k + 1], epoch, i)
  {
    hide FindId, ActiveAt;
    assert pointers[..k + 1][..k] == pointers[..k];
    var p, o := pointers[k], objects[i];
    assert FindObject(before, p.from) == FindObject(objects, p.from);
    assert FindObject(before, p.to) == FindObject(objects, p.to);
    assert before[i].id == o.id == Ids(objects)[i];
    if ActiveAt(p, epoch) && FindObject(objects, o.id) == Some(i) {
      assert FindObject(objects, p.from) == Some(i) <==> p.from == o.id;
      assert FindObject(objects, p.to) == Some(i) <==> p.to == o.id;
    }
  }

  lemma CountIds(objects: seq<Object>, p: Pointer, epoch: nat)
    ensures Ids(Count(objects, p, epoch)) == Ids(objects)
  {
  }

  method RecountOf(s: Snapshot) returns (r: Snapshot)
    ensures r == Recount(s)
  {
    var objects := seq(|s.objects|, i requires 0 <= i < |s.objects| => s.objects[i].(incoming := 0, outgoing := 0));
    for k := 0 to |s.pointers|
      invariant |objects| == |s.objects| && Ids(objects) == Ids(s.objects)
      invariant forall i :: 0 <= i < |objects| ==> objects[i] == Counted(s.objects, s.pointers[..k], s.epoch, i)
    {
      forall i | 0 <= i < |objects|
        ensures |Count(objects, s.pointers[k], s.epoch)| == |objects|
        ensures Count(objects, s.pointers[k], s.epoch)[i] == Counted(s.objects, s.pointers[..k + 1], s.epoch, i)
      {
        CountAt(s.objects, objects, s.pointers, k, s.epoch, i);
      }
      CountIds(objects, s.pointers[k], s.epoch);
      objects := Count(objects, s.pointers[k], s.epoch);
    }
    assert s.pointers[..|s.pointers|] == s.pointers;
    r := s.(objects := objects);
    assert r.objects == Recount(s).objects;
  }

  // The tables kept beside the snapshot say what a scan of it would say.
  ghost predicate Linked(st: State, seenTemps: set<nat>, names: set<string>, nextIndex: nat, nextPointer: nat) {
    && seenTemps == st.temps.Keys
    && names == NameSet(st.snap.objects)
    && nextIndex == NextIndex(st.snap.objects)
    && nextPointer == NextPointer(st.snap.pointers)
  }

  lemma LinkedPut(st: State, op: Op, seenTemps: set<nat>, names: set<string>, nextIndex: nat, nextPointer: nat)
    requires Linked(st, seenTemps, names, nextIndex, nextPointer)
    requires (ObjectOp(op) || PointerOp(op) || op.InternType? || op.InternRelation?) && Step(st, op).Ok?
    ensures Linked(Step(st, op).value, seenTemps, names, nextIndex, nextPointer)
  {
    var next := Step(st, op).value;
    if ObjectOp(op) {
      var i := FindObject(st.snap.objects, Resolve(st, op.target).value).value;
      PutIndex(st.snap.objects, i, EditObject(st.snap.objects[i], op));
      PutNames(st.snap.objects, i, EditObject(st.snap.objects[i], op));
    } else if PointerOp(op) {
      var i := FindPointer(st.snap.pointers, op.pointer).value;
      PutPointerIndex(st.snap.pointers, i, EditPointer(st.snap.pointers[i], op, st.snap.epoch));
    }
  }

  lemma PutNames(objects: seq<Object>, i: nat, o: Object)
    requires i < |objects| && o.name == objects[i].name
    ensures NameSet(objects[i := o]) == NameSet(objects)
  {
    var after := objects[i := o];
    forall name | name in NameSet(objects) ensures name in NameSet(after) {
      var k :| 0 <= k < |objects| && objects[k].name == name;
      assert after[k].name == name;
    }
  }

  lemma PutIndex(objects: seq<Object>, i: nat, o: Object)
    requires i < |objects| && o.id == objects[i].id
    ensures NextIndex(objects[i := o]) == NextIndex(objects)
  {
    var last := |objects| - 1;
    if i < last {
      PutIndex(objects[..last], i, o);
      assert objects[i := o][..last] == objects[..last][i := o];
    } else {
      assert objects[i := o][..last] == objects[..last];
    }
  }

  lemma PutPointerIndex(pointers: seq<Pointer>, i: nat, p: Pointer)
    requires i < |pointers| && p.id == pointers[i].id
    ensures NextPointer(pointers[i := p]) == NextPointer(pointers)
  {
    var last := |pointers| - 1;
    if i < last {
      PutPointerIndex(pointers[..last], i, p);
      assert pointers[i := p][..last] == pointers[..last][i := p];
    } else {
      assert pointers[i := p][..last] == pointers[..last];
    }
  }

  method SetAttributeIn(attributes: seq<Attribute>, a: Attribute) returns (r: seq<Attribute>)
    ensures r == SetAttribute(attributes, a)
  {
    hide Sorted;
    var i := 0;
    while i < |attributes| && attributes[i].key != a.key
      invariant 0 <= i <= |attributes|
      invariant forall j :: 0 <= j < i ==> attributes[j].key != a.key
    {
      i := i + 1;
    }
    r := if i == |attributes| then attributes + [a] else attributes[i := a];
    r := Sorted(r);
  }

  method RemoveAttributeIn(attributes: seq<Attribute>, key: string) returns (r: seq<Attribute>)
    ensures r == RemoveAttribute(attributes, key)
  {
    r := [];
    assert attributes[0..] == attributes;
    for i := 0 to |attributes|
      invariant r + RemoveAttribute(attributes[i..], key) == RemoveAttribute(attributes, key)
    {
      assert attributes[i..][1..] == attributes[i + 1..];
      if attributes[i].key != key {
        r := r + [attributes[i]];
      }
    }
  }

  // mutable_object and mutable_pointer: the position to write at.
  method MutableObject(objects: seq<Object>, id: ObjectId) returns (r: Option<nat>)
    ensures r == FindObject(objects, id)
  {
    for i := 0 to |objects|
      invariant forall j :: 0 <= j < i ==> objects[j].id != id
    {
      if objects[i].id == id {
        return Some(i);
      }
    }
    r := None;
  }

  method MutablePointer(pointers: seq<Pointer>, id: nat) returns (r: Option<nat>)
    ensures r == FindPointer(pointers, id)
  {
    for i := 0 to |pointers|
      invariant forall j :: 0 <= j < i ==> pointers[j].id != id
    {
      if pointers[i].id == id {
        return Some(i);
      }
    }
    r := None;
  }

  method EditObjectInPlace(st: State, op: Op) returns (r: Result<State, OverlayError>)
    requires ObjectOp(op)
    ensures r == StepObject(st, op)
  {
    hide Sorted, SetAttribute, RemoveAttribute, HasSymbol;
    if op.SetObjectType? {
      if !HasSymbol(st.snap.typeNames, op.typ) {
        return Err(InvalidTempObject);
      }
    }
    var id := Resolve(st, op.target);
    if id.None? {
      return Err(UpdateMissingObject);
    }
    var at := MutableObject(st.snap.objects, id.value);
    if at.None? {
      return Err(UpdateMissingObject);
    }
    var o := st.snap.objects[at.value];
    if op.SetObjectType? {
      o := o.(typ := op.typ);
    } else if op.SetObjectExistence? {
      o := o.(existence := op.existence);
    } else if op.SetObjectAttribute? {
      var attributes := SetAttributeIn(o.attributes, op.attribute);
      o := o.(attributes := attributes);
    } else if op.RemoveObjectAttribute? {
      var attributes := RemoveAttributeIn(o.attributes, op.key);
      o := o.(attributes := attributes);
    }
    r := Ok(st.(snap := st.snap.(objects := st.snap.objects[at.value := o])));
  }

  method EditPointerInPlace(st: State, op: Op) returns (r: Result<State, OverlayError>)
    requires PointerOp(op)
    ensures r == StepPointer(st, op)
  {
    hide Sorted, SetAttribute, RemoveAttribute;
    var at := MutablePointer(st.snap.pointers, op.pointer);
    if at.None? {
      return Err(InvalidPointerRemove);
    }
    var p := st.snap.pointers[at.value];
    if op.ExpirePointer? {
      p := p.(expiresAt := Some(st.snap.epoch));
    } else if op.SetPointerWeight? {
      p := p.(weight := op.weight);
    } else if op.SetPointerAttribute? {
      var attributes := SetAttributeIn(p.attributes, op.attribute);
      p := p.(attributes := attributes);
    } else if op.RemovePointerAttribute? {
      var attributes := RemoveAttributeIn(p.attributes, op.key);
      p := p.(attributes := attributes);
    }
    r := Ok(st.(snap := st.snap.(pointers := st.snap.pointers[at.value := p])));
  }

  // The operations that leave the tables alone.
  method EditInPlace(st: State, op: Op) returns (r: Result<State, OverlayError>)
    requires ObjectOp(op) || PointerOp(op) || op.InternType? || op.InternRelation?
    ensures r == Step(st, op)
  {
    if op.InternType? {
      var names := Intern(st.snap.typeNames, op.name, op.symbol);
      if names.Err? {
        return Err(names.error);
      }
      return Ok(st.(snap := st.snap.(typeNames := names.value)));
    } else if op.InternRelation? {
      var names := Intern(st.snap.relationNames, op.name, op.symbol);
      if names.Err? {
        return Err(names.error);
      }
      return Ok(st.(snap := st.snap.(relationNames := names.value)));
    } else if ObjectOp(op) {
      r := EditObjectInPlace(st, op);
    } else {
      r := EditPointerInPlace(st, op);
    }
  }

  lemma PushNames(objects: seq<Object>, o: Object)
    ensures NextIndex(objects + [o]) == Max(NextIndex(objects), o.id.index + 1)
    ensures NameSet(objects + [o]) == NameSet(objects) + {o.name}
  {
    var after := objects + [o];
    assert after[..|objects|] == objects && after[|objects|] == o;
    forall name | name in NameSet(objects) ensures name in NameSet(after) {
      var k :| 0 <= k < |objects| && objects[k].name == name;
      assert after[k].name == name;
    }
  }

  method CreateInPlace(st: State, op: Op, seenTemps: set<nat>, names: set<string>, nextIndex: nat,
                       ghost nextPointer: nat)
    returns (r: Result<State, OverlayError>, seenTemps': set<nat>, names': set<string>, nextIndex': nat)
    requires op.CreateObject? && Linked(st, seenTemps, names, nextIndex, nextPointer)
    ensures r == Step(st, op)
    ensures r.Ok? ==> Linked(r.value, seenTemps', names', nextIndex', nextPointer)
  {
    seenTemps', names', nextIndex' := seenTemps, names, nextIndex;
    if op.temp == 0 {
      return Err(InvalidTempObject), seenTemps', names', nextIndex';
    }
    if op.temp in seenTemps {
      return Err(DuplicateTempObject), seenTemps', names', nextIndex';
    }
    seenTemps' := seenTemps + {op.temp};
    if op.name in names {
      return Err(DuplicateObjectName), seenTemps', names', nextIndex';
    }
    names' := names + {op.name};
    if !HasSymbol(st.snap.typeNames, op.typ) {
      return Err(InvalidTempObject), seenTemps', names', nextIndex';
    }
    var o := Object(ObjectId(nextIndex, 1), op.name, op.typ, op.existence, Sorted(op.attributes), 0, 0);
    nextIndex' := nextIndex + 1;
    PushNames(st.snap.objects, o);
    r := Ok(State(st.snap.(objects := st.snap.objects + [o]), st.temps[op.temp := o.id]));
  }

  method LinkInPlace(st: State, op: Op, nextPointer: nat, ghost seenTemps: set<nat>, ghost names: set<string>,
                     ghost nextIndex: nat)
    returns (r: Result<State, OverlayError>, nextPointer': nat)
    requires op.CreatePointer? && Linked(st, seenTemps, names, nextIndex, nextPointer)
    ensures r == Step(st, op)
    ensures r.Ok? ==> Linked(r.value, seenTemps, names, nextIndex, nextPointer')
  {
    nextPointer' := nextPointer;
    if !HasSymbol(st.snap.relationNames, op.relation) {
      return Err(InvalidPointerRelation), nextPointer';
    }
    var from, to := Resolve(st, op.from), Resolve(st, op.to);
    if from.None? || to.None? {
      return Err(PointerMissingObject), nextPointer';
    }
    var p := Pointer(nextPointer, from.value, to.value, op.relation, op.role, op.weight, st.snap.epoch, None,
                     if op.lawDomain == "" then "core" else op.lawDomain, Sorted(op.attributes));
    nextPointer' := nextPointer + 1;
    assert (st.snap.pointers + [p])[..|st.snap.pointers|] == st.snap.pointers;
    r := Ok(st.(snap := st.snap.(pointers := st.snap.pointers + [p])));
  }

  method ApplyDelta(base: Snapshot, delta: Delta) returns (r: Result<Snapshot, OverlayError>)
    ensures r == Apply(base, delta)
  {
    var st := Start(base);
    var seenTemps: set<nat> := {};
    var names := NameSet(base.objects);
    var nextIndex := NextIndexOf(base.objects);
    var nextPointer := NextPointerOf(base.pointers);

    for k := 0 to |delta|
      invariant Linked(st, seenTemps, names, nextIndex, nextPointer)
      invariant Run(Start(base), delta) == Run(st, delta[k..])
    {
      var op := delta[k];
      assert delta[k..][1..] == delta[k + 1..];
      var next: Result<State, OverlayError>;
      if op.CreateObject? {
        next, seenTemps, names, nextIndex := CreateInPlace(st, op, seenTemps, names, nextIndex, nextPointer);
      } else if op.CreatePointer? {
        next, nextPointer := LinkInPlace(st, op, nextPointer, seenTemps, names, nextIndex);
      } else if op.EmitEvent? {
        next := Ok(st);
      } else if op.AssertFact? {
        var facts := DeriveFacts(st.snap);
        next := if op.fact in facts then Ok(st) else Err(InvalidSymbol);
      } else {
        next := EditInPlace(st, op);
        if next.Ok? {
          LinkedPut(st, op, seenTemps, names, nextIndex, nextPointer);
        }
      }
      if next.Err? {
        return Err(next.error);
      }
      st := next.value;
    }
    var out := RecountOf(st.snap);
    return Ok(out);
  }
}
