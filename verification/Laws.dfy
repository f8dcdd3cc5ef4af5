// The builtin laws, and why four of them can never be violated by the kernel itself.

module Laws {
  import opened Wrappers
  import opened Model
  import opened Overlay
  import opened Invariants

  datatype Law = RejectDanglingPointer | PreserveRelationType | NoInvalidEpochReference | PreserveExistingIdentity

  datatype Violation = Violation(law: Law, magnitude: nat, objects: seq<ObjectId>, pointers: seq<nat>)

  function PointerViolation(law: Law, magnitude: nat, p: Pointer): Violation {
    Violation(law, magnitude, [p.from, p.to], [p.id])
  }

  // What one pointer of the after-snapshot adds to the report.
  function OfPointer(law: Law, p: Pointer, after: Snapshot): seq<Violation> {
    match law
    case RejectDanglingPointer =>
      var missing := (if Contains(after, p.from) then 0 else 1) + (if Contains(after, p.to) then 0 else 1);
      if missing > 0 then [PointerViolation(law, missing, p)] else []
    case PreserveRelationType =>
      if HasSymbol(after.relationNames, p.relation) then [] else [PointerViolation(law, 1, p)]
    case NoInvalidEpochReference =>
      (if p.bornAt > after.epoch then [PointerViolation(law, p.bornAt - after.epoch, p)] else []) +
      (if p.expiresAt.Some? && p.expiresAt.value < p.bornAt
       then [PointerViolation(law, p.bornAt - p.expiresAt.value, p)] else [])
    case PreserveExistingIdentity => []
  }

  function OfObject(law: Law, o: Object, after: Snapshot): seq<Violation> {
    if law.PreserveExistingIdentity? && !Contains(after, o.id) then [Violation(law, 1, [o.id], [])] else []
  }

  function OfPointers(law: Law, pointers: seq<Pointer>, after: Snapshot): seq<Violation> {
    if pointers == [] then []
    else
      var last := |pointers| - 1;
      OfPointers(law, pointers[..last], after) + OfPointer(law, pointers[last], after)
  }

  function OfObjects(law: Law, objects: seq<Object>, after: Snapshot): seq<Violation> {
    if objects == [] then []
    else
      var last := |objects| - 1;
      OfObjects(law, objects[..last], after) + OfObject(law, objects[last], after)
  }

  // The report of a law on a transition.
  function Report(law: Law, before: Snapshot, after: Snapshot): seq<Violation> {
    if law.PreserveExistingIdentity? then OfObjects(law, before.objects, after)
    else OfPointers(law, after.pointers, after)
  }

  // What the law asks of the transition.
  ghost predicate Holds(law: Law, before: Snapshot, after: Snapshot) {
    match law
    case RejectDanglingPointer =>
      forall i :: 0 <= i < |after.pointers| ==>
        Contains(after, after.pointers[i].from) && Contains(after, after.pointers[i].to)
    case PreserveRelationType =>
      forall i :: 0 <= i < |after.pointers| ==> HasSymbol(after.relationNames, after.pointers[i].relation)
    case NoInvalidEpochReference =>
      forall i :: 0 <= i < |after.pointers| ==>
        var p := after.pointers[i];
        p.bornAt <= after.epoch && (p.expiresAt.Some? ==> p.bornAt <= p.expiresAt.value)
    case PreserveExistingIdentity =>
      forall i :: 0 <= i < |before.objects| ==> Contains(after, before.objects[i].id)
  }

  lemma {:induction false} NoneOfPointers(law: Law, pointers: seq<Pointer>, after: Snapshot)
    ensures OfPointers(law, pointers, after) == [] <==>
            forall i :: 0 <= i < |pointers| ==> OfPointer(law, pointers[i], after) == []
  {
    if pointers != [] {
      var rest := pointers[..|pointers| - 1];
      NoneOfPointers(law, rest, after);
      if OfPointers(law, pointers, after) == [] {
        forall i | 0 <= i < |pointers| ensures OfPointer(law, pointers[i], after) == [] {
          if i < |rest| {
            assert OfPointer(law, rest[i], after) == [];
          }
        }
      } else if OfPointers(law, rest, after) != [] {
        var i :| 0 <= i < |rest| && OfPointer(law, rest[i], after) != [];
        assert OfPointer(law, pointers[i], after) != [];
      }
    }
  }

  lemma {:induction false} NoneOfObjects(law: Law, objects: seq<Object>, after: Snapshot)
    ensures OfObjects(law, objects, after) == [] <==>
            forall i :: 0 <= i < |objects| ==> OfObject(law, objects[i], after) == []
  {
    if objects != [] {
      var rest := objects[..|objects| - 1];
      NoneOfObjects(law, rest, after);
      if OfObjects(law, objects, after) == [] {
        forall i | 0 <= i < |objects| ensures OfObject(law, objects[i], after) == [] {
          if i < |rest| {
            assert OfObject(law, rest[i], after) == [];
          }
        }
      } else if OfObjects(law, rest, after) != [] {
        var i :| 0 <= i < |rest| && OfObject(law, rest[i], after) != [];
        assert OfObject(law, objects[i], after) != [];
      }
    }
  }

  // A report is empty exactly when the law holds.
  lemma ReportExact(law: Law, before: Snapshot, after: Snapshot)
    ensures Report(law, before, after) == [] <==> Holds(law, before, after)
  {
    hide OfPointers, OfObjects;
    NoneOfPointers(law, after.pointers, after);
    NoneOfObjects(law, before.objects, after);
    if law.PreserveExistingIdentity? {
      assert forall i :: 0 <= i < |before.objects| ==>
        (OfObject(law, before.objects[i], after) == [] <==> Contains(after, before.objects[i].id));
    }
  }

  // ---- what a violation says

  // How many of the two ends are gone: 0, 1 or 2.
  function EndsGone(p: Pointer, after: Snapshot): nat {
    |set k | 0 <= k < 2 && [p.from, p.to][k] !in IdSet(after.objects)|
  }

  // A violation names the pointer, its source and then its target, and how far it is off.
  ghost predicate Reports(v: Violation, law: Law, p: Pointer, after: Snapshot) {
    && v.law == law && v.objects == [p.from, p.to] && v.pointers == [p.id]
    && match law
       case RejectDanglingPointer => v.magnitude == EndsGone(p, after) > 0
       case PreserveRelationType => v.magnitude == 1 && (p.relation == 0 || p.relation !in after.relationNames)
       case NoInvalidEpochReference =>
         || (p.bornAt == after.epoch + v.magnitude && v.magnitude > 0)
         || (p.expiresAt.Some? && p.expiresAt.value + v.magnitude == p.bornAt && v.magnitude > 0)
       case PreserveExistingIdentity => false
  }

  lemma EndsCounted(p: Pointer, after: Snapshot)
    ensures EndsGone(p, after) == (if Contains(after, p.from) then 0 else 1) + (if Contains(after, p.to) then 0 else 1)
  {
    var gone := set k | 0 <= k < 2 && [p.from, p.to][k] !in IdSet(after.objects);
    assert gone == (if Contains(after, p.from) then {} else {0}) + (if Contains(after, p.to) then {} else {1});
  }

  lemma PointerReports(law: Law, p: Pointer, after: Snapshot)
    ensures forall v :: v in OfPointer(law, p, after) <==> Reports(v, law, p, after)
    ensures |OfPointer(law, p, after)| <= if law.NoInvalidEpochReference? then 2 else 1
  {
    hide IdSet;
    EndsCounted(p, after);
    forall v ensures v in OfPointer(law, p, after) <==> Reports(v, law, p, after) {
      if Reports(v, law, p, after) {
        assert v == Violation(law, v.magnitude, [p.from, p.to], [p.id]);
      }
    }
  }

  lemma {:induction false} PointersReport(law: Law, pointers: seq<Pointer>, after: Snapshot, v: Violation)
    ensures v in OfPointers(law, pointers, after) <==>
            exists i :: 0 <= i < |pointers| && Reports(v, law, pointers[i], after)
  {
    hide Reports, OfPointer;
    if pointers != [] {
      var last := |pointers| - 1;
      PointersReport(law, pointers[..last], after, v);
      PointerReports(law, pointers[last], after);
      assert forall i :: 0 <= i < last ==> pointers[..last][i] == pointers[i];
    }
  }

  lemma {:induction false} ObjectsReport(law: Law, objects: seq<Object>, after: Snapshot, v: Violation)
    ensures v in OfObjects(law, objects, after) <==>
            law.PreserveExistingIdentity? &&
              (exists i :: 0 <= i < |objects| && objects[i].id !in IdSet(after.objects) &&
                v == Violation(law, 1, [objects[i].id], []))
  {
    hide IdSet;
    if objects != [] {
      var last := |objects| - 1;
      ObjectsReport(law, objects[..last], after, v);
      assert forall i :: 0 <= i < last ==> objects[..last][i] == objects[i];
    }
  }

  // A report holds exactly the violations there are: of a pointer, with its ends in order and
  // how far it is off, or of an object that is gone.
  lemma ReportSays(law: Law, before: Snapshot, after: Snapshot, v: Violation)
    ensures v in Report(law, before, after) <==>
            if law.PreserveExistingIdentity? then
              (exists i :: 0 <= i < |before.objects| && before.objects[i].id !in IdSet(after.objects) &&
                v == Violation(law, 1, [before.objects[i].id], []))
            else (exists i :: 0 <= i < |after.pointers| && Reports(v, law, after.pointers[i], after))
  {
    hide OfPointers, OfObjects, Reports, IdSet;
    PointersReport(law, after.pointers, after, v);
    ObjectsReport(law, before.objects, after, v);
  }

  method CheckPointers(law: Law, after: Snapshot) returns (violations: seq<Violation>)
    ensures violations == OfPointers(law, after.pointers, after)
  {
    violations := [];
    for i := 0 to |after.pointers|
      invariant violations == OfPointers(law, after.pointers[..i], after)
    {
      assert after.pointers[..i + 1][..i] == after.pointers[..i];
      violations := violations + OfPointer(law, after.pointers[i], after);
    }
    assert after.pointers[..|after.pointers|] == after.pointers;
  }

  method CheckObjects(law: Law, before: Snapshot, after: Snapshot) returns (violations: seq<Violation>)
    ensures violations == OfObjects(law, before.objects, after)
  {
    violations := [];
    for i := 0 to |before.objects|
      invariant violations == OfObjects(law, before.objects[..i], after)
    {
      assert before.objects[..i + 1][..i] == before.objects[..i];
      violations := violations + OfObject(law, before.objects[i], after);
    }
    assert before.objects[..|before.objects|] == before.objects;
  }

  method Check(law: Law, before: Snapshot, after: Snapshot) returns (violations: seq<Violation>)
    ensures violations == Report(law, before, after)
    ensures violations == [] <==> Holds(law, before, after)
  {
    if law.PreserveExistingIdentity? {
      violations := CheckObjects(law, before, after);
    } else {
      violations := CheckPointers(law, after);
    }
    ReportExact(law, before, after);
  }

  // ---- runs from the empty world

  function EmptyWorld(world: nat, name: string): Snapshot {
    Snapshot(world, name, 0, [], [], map[], map[])
  }

  ghost function ApplyAll(base: Snapshot, deltas: seq<Delta>): Result<Snapshot, OverlayError>
    decreases |deltas|
  {
    if deltas == [] then Ok(base)
    else match Apply(base, deltas[0])
      case Err(e) => Err(e)
      case Ok(next) => ApplyAll(next, deltas[1..])
  }

  lemma {:induction false} RunsKeep(base: Snapshot, deltas: seq<Delta>)
    requires WellFormed(base) && ApplyAll(base, deltas).Ok?
    ensures var after := ApplyAll(base, deltas).value;
            WellFormed(after) && Extends(base, after) && after.epoch == base.epoch + |deltas|
    decreases |deltas|
  {
    if deltas != [] {
      ApplyKeeps(base, deltas[0]);
      var mid := Apply(base, deltas[0]).value;
      RunsKeep(mid, deltas[1..]);
      ExtendsTrans(base, mid, ApplyAll(mid, deltas[1..]).value);
    }
  }

  lemma StepLawful(law: Law, before: Snapshot, after: Snapshot)
    requires WellFormed(after) && Extends(before, after)
    ensures Holds(law, before, after)
  {
    ExtendsIds(before.objects, after.objects);
    assert forall i :: 0 <= i < |after.pointers| ==>
      PointerOk(after.pointers[i], IdSet(after.objects), after.relationNames, after.epoch);
  }

  // On every run of accepted deltas from the empty world, and on the step that ends it,
  // no builtin law of this list reports anything.
  lemma LawsAreTheorems(world: nat, name: string, deltas: seq<Delta>, delta: Delta, law: Law)
    requires var before := ApplyAll(EmptyWorld(world, name), deltas);
             before.Ok? && Apply(before.value, delta).Ok?
    ensures var before := ApplyAll(EmptyWorld(world, name), deltas).value;
            Report(law, before, Apply(before, delta).value) == []
  {
    RunsKeep(EmptyWorld(world, name), deltas);
    var before := ApplyAll(EmptyWorld(world, name), deltas).value;
    ApplyKeeps(before, delta);
    var after := Apply(before, delta).value;
    StepLawful(law, before, after);
    ReportExact(law, before, after);
  }
}
