// Which deltas a snapshot refuses, and why, read off the delta alone.

module Refusals {
  import opened Wrappers
  import opened Model
  import opened Overlay
  import opened Invariants
  import opened Effects

  // ---- the tables after the interns of a delta

  ghost function TypesAfter(base: Snapshot, delta: Delta): map<nat, string> {
    if delta == [] then base.typeNames
    else
      var op, names := Last(delta), TypesAfter(base, Init(delta));
      if op.InternType? && op.name !in names.Values
      then names[(if op.symbol != 0 then op.symbol else NextSymbol(names)) := op.name]
      else names
  }

  ghost function RelationsAfter(base: Snapshot, delta: Delta): map<nat, string> {
    if delta == [] then base.relationNames
    else
      var op, names := Last(delta), RelationsAfter(base, Init(delta));
      if op.InternRelation? && op.name !in names.Values
      then names[(if op.symbol != 0 then op.symbol else NextSymbol(names)) := op.name]
      else names
  }

  // ---- why an operation is refused after the others

  // A name must not be empty, and a new one cannot take the symbol of another.
  ghost predicate InternFits(names: map<nat, string>, name: string, symbol: nat) {
    name != "" && (name in names.Values || symbol !in names || symbol == 0)
  }

  ghost predicate NameTaken(base: Snapshot, before: Delta, name: string) {
    || (exists i :: 0 <= i < |base.objects| && base.objects[i].name == name)
    || (exists i :: 0 <= i < |NewObjects(base, before)| && NewObjects(base, before)[i].name == name)
  }

  ghost predicate PointerThere(base: Snapshot, before: Delta, pointer: nat) {
    || (exists i :: 0 <= i < |base.pointers| && base.pointers[i].id == pointer)
    || (exists i :: 0 <= i < |NewPointers(base, before)| && NewPointers(base, before)[i].id == pointer)
  }

  ghost function Refusal(base: Snapshot, before: Delta, op: Op): Option<OverlayError> {
    match op
    case InternType(name, symbol) =>
      if InternFits(TypesAfter(base, before), name, symbol) then None else Some(InvalidSymbol)
    case InternRelation(name, symbol) =>
      if InternFits(RelationsAfter(base, before), name, symbol) then None else Some(InvalidSymbol)
    case CreateObject(temp, name, typ, _, _) =>
      if temp == 0 then Some(InvalidTempObject)
      else if Made(base, before, temp).Some? then Some(DuplicateTempObject)
      else if NameTaken(base, before, name) then Some(DuplicateObjectName)
      else if !HasSymbol(TypesAfter(base, before), typ) then Some(InvalidTempObject)
      else None
    case SetObjectType(target, typ) =>
      if !HasSymbol(TypesAfter(base, before), typ) then Some(InvalidTempObject)
      else if Named(base, before, target).None? then Some(UpdateMissingObject)
      else None
    case SetObjectExistence(target, _) => MissingObject(base, before, target)
    case SetObjectAttribute(target, _) => MissingObject(base, before, target)
    case RemoveObjectAttribute(target, _) => MissingObject(base, before, target)
    case AssertObject(target) => MissingObject(base, before, target)
    case CreatePointer(from, to, relation, _, _, _, _) =>
      if !HasSymbol(RelationsAfter(base, before), relation) then Some(InvalidPointerRelation)
      else if Named(base, before, from).None? || Named(base, before, to).None? then Some(PointerMissingObject)
      else None
    case ExpirePointer(pointer) => MissingPointer(base, before, pointer)
    case SetPointerWeight(pointer, _) => MissingPointer(base, before, pointer)
    case SetPointerAttribute(pointer, _) => MissingPointer(base, before, pointer)
    case RemovePointerAttribute(pointer, _) => MissingPointer(base, before, pointer)
    case AssertPointer(pointer) => MissingPointer(base, before, pointer)
    case AssertFact(fact) => if FactThere(base, before, fact) then None else Some(InvalidSymbol)
    case EmitEvent(_) => None
  }

  // The snapshot the earlier operations make states the fact.
  ghost predicate FactThere(base: Snapshot, before: Delta, fact: Fact) {
    Apply(base, before).Ok? && fact in Facts(Apply(base, before).value)
  }

  ghost function MissingObject(base: Snapshot, before: Delta, target: Ref): Option<OverlayError> {
    if Named(base, before, target).None? then Some(UpdateMissingObject) else None
  }

  ghost function MissingPointer(base: Snapshot, before: Delta, pointer: nat): Option<OverlayError> {
    if PointerThere(base, before, pointer) then None else Some(InvalidPointerRemove)
  }

  // The first refusal met from the front.
  ghost function FirstRefusal(base: Snapshot, delta: Delta): Option<OverlayError> {
    if delta == [] then None
    else
      var earlier := FirstRefusal(base, Init(delta));
      if earlier.Some? then earlier else Refusal(base, Init(delta), Last(delta))
  }

  // ---- the state knows what the refusals look at

  ghost predicate TracksNames(base: Snapshot, delta: Delta, st: State) {
    st.snap.typeNames == TypesAfter(base, delta) && st.snap.relationNames == RelationsAfter(base, delta)
  }

  lemma StepNames(base: Snapshot, delta: Delta, st: State)
    requires delta != [] && StateOk(st) && TracksNames(base, Init(delta), st) && Step(st, Last(delta)).Ok?
    ensures TracksNames(base, delta, Step(st, Last(delta)).value)
  {
    hide StateOk, ObjectsOk, PointersOk, SymbolsOk, EditObject, EditPointer, Facts, Resolve, IdSet, NameSet;
  }

  lemma NamesKnown(base: Snapshot, delta: Delta, st: State, name: string)
    requires ObjectsAfter(base, delta, st.snap.objects)
    ensures name in NameSet(st.snap.objects) <==> NameTaken(base, delta, name)
  {
    var first := base.objects + NewObjects(base, delta);
    var objects := st.snap.objects;
    assert forall i :: 0 <= i < |objects| ==> ObjectAfter(base, delta, first[i], objects[i]);
    if name in NameSet(objects) {
      var i :| 0 <= i < |objects| && objects[i].name == name;
      assert first[i].name == name;
      if i >= |base.objects| {
        assert NewObjects(base, delta)[i - |base.objects|].name == name;
      }
    }
    if NameTaken(base, delta, name) {
      if i :| 0 <= i < |base.objects| && base.objects[i].name == name {
        assert objects[i].name == first[i].name == name;
      } else {
        var i :| 0 <= i < |NewObjects(base, delta)| && NewObjects(base, delta)[i].name == name;
        assert objects[|base.objects| + i].name == first[|base.objects| + i].name == name;
      }
    }
  }

  lemma PointersKnown(base: Snapshot, delta: Delta, st: State, pointer: nat)
    requires PointersAfter(base, delta, st.snap.pointers)
    ensures FindPointer(st.snap.pointers, pointer).Some? <==> PointerThere(base, delta, pointer)
  {
    hide NewPointers;
    var first := base.pointers + NewPointers(base, delta);
    var pointers := st.snap.pointers;
    assert forall i :: 0 <= i < |pointers| ==> PointerAfter(base, delta, first[i], pointers[i]);
    if FindPointer(pointers, pointer).Some? {
      var i := FindPointer(pointers, pointer).value;
      assert first[i].id == pointer;
      if i >= |base.pointers| {
        assert NewPointers(base, delta)[i - |base.pointers|].id == pointer;
      }
    }
    if PointerThere(base, delta, pointer) {
      if i :| 0 <= i < |base.pointers| && base.pointers[i].id == pointer {
        assert pointers[i].id == first[i].id == pointer;
      } else {
        var i :| 0 <= i < |NewPointers(base, delta)| && NewPointers(base, delta)[i].id == pointer;
        assert pointers[|base.pointers| + i].id == first[|base.pointers| + i].id == pointer;
      }
    }
  }

  lemma ObjectKnown(base: Snapshot, delta: Delta, st: State, ref: Ref)
    requires StateOk(st) && TracksIds(base, delta, st)
    ensures Named(base, delta, ref).Some? <==>
            Resolve(st, ref).Some? && FindObject(st.snap.objects, Resolve(st, ref).value).Some?
  {
    hide WellFormed, FindId;
    ResolveNamed(base, delta, st, ref);
  }

  lemma FactKnown(base: Snapshot, delta: Delta, st: State, fact: Fact)
    requires Run(Start(base), delta) == Ok(st)
    ensures fact in Facts(st.snap) <==> FactThere(base, delta, fact)
  {
    hide Facts, Run;
    RecountFacts(st.snap);
  }

  lemma RecountFacts(s: Snapshot)
    ensures Facts(Recount(s)) == Facts(s)
  {
    hide FindObject, Incoming, Outgoing;
    var r := Recount(s);
    assert r.pointers == s.pointers && r.epoch == s.epoch;
    assert forall i :: 0 <= i < |s.objects| ==> ObjectFacts(r, r.objects[i]) == ObjectFacts(s, s.objects[i]);
  }

  lemma StepRefused(base: Snapshot, delta: Delta, st: State, op: Op)
    requires StateOk(st) && Tracks(base, delta, st) && TracksNames(base, delta, st)
    requires Run(Start(base), delta) == Ok(st)
    ensures match Refusal(base, delta, op)
            case None => Step(st, op).Ok?
            case Some(e) => Step(st, op) == Err(e)
  {
    hide StateOk, ObjectsAfter, PointersAfter, TypesAfter, RelationsAfter, NameTaken, PointerThere, Named, Resolve,
         EditObject, EditPointer, Facts, NameSet, Contains, Exists, FactThere;
    if ObjectOp(op) {
      ObjectKnown(base, delta, st, op.target);
    } else if PointerOp(op) {
      PointersKnown(base, delta, st, op.pointer);
    } else if op.CreateObject? {
      NamesKnown(base, delta, st, op.name);
    } else if op.CreatePointer? {
      ObjectKnown(base, delta, st, op.from);
      ObjectKnown(base, delta, st, op.to);
      ResolveNamed(base, delta, st, op.from);
      ResolveNamed(base, delta, st, op.to);
    } else if op.AssertFact? {
      FactKnown(base, delta, st, op.fact);
    }
  }

  lemma {:induction false} RunRefused(base: Snapshot, delta: Delta)
    requires WellFormed(base)
    ensures match FirstRefusal(base, delta)
            case None => Run(Start(base), delta).Ok? && TracksNames(base, delta, Run(Start(base), delta).value)
            case Some(e) => Run(Start(base), delta) == Err(e)
    decreases |delta|
  {
    hide Step, StateOk, WellFormed, Tracks, Refusal;
    if delta != [] {
      var op, st := Last(delta), Run(Start(base), Init(delta));
      assert delta == Init(delta) + [op];
      RunAppend(Start(base), Init(delta), [op]);
      RunRefused(base, Init(delta));
      if st.Ok? {
        RunTracks(base, Init(delta));
        StartKeeps(base);
        RunKeeps(Start(base), Init(delta));
        StepRefused(base, Init(delta), st.value, op);
        if Step(st.value, op).Ok? {
          StepNames(base, delta, st.value);
        }
      }
    }
  }

  // A delta is refused exactly for its first refused operation, with
  // that error; what an accepted one leaves in the tables are its interns.
  lemma Refused(base: Snapshot, delta: Delta)
    requires WellFormed(base)
    ensures match FirstRefusal(base, delta)
            case None =>
              Apply(base, delta).Ok? && Apply(base, delta).value.typeNames == TypesAfter(base, delta) &&
              Apply(base, delta).value.relationNames == RelationsAfter(base, delta)
            case Some(e) => Apply(base, delta) == Err(e)
  {
    hide FirstRefusal, Run, TypesAfter, RelationsAfter;
    RunRefused(base, delta);
  }
}
