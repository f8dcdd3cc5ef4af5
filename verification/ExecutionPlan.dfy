// The read and write sets of a delta, and exactly when they frame the transition: every new
// fact is written and every lost fact was read.

module ExecutionPlan {
  import opened Wrappers
  import opened Model
  import opened Attributes
  import opened Overlay
  import opened OverlayApply
  import opened Invariants
  import opened EpochView
  import opened OpLists
  import CompileProof
  import FactDerivation
  import Morphisms

  // ---- facts by subject

  predicate AboutObject(f: Fact, id: ObjectId) {
    (f.ObjectFact? && f.oid == id) || (f.AttributeFact? && f.subject == ObjectSubject(id))
  }

  predicate AboutPointer(f: Fact, p: nat) {
    (f.PointerFact? && f.pointer == p) || (f.AttributeFact? && f.subject == PointerSubject(p))
  }

  function FactsOfObject(facts: set<Fact>, id: ObjectId): set<Fact> {
    set f | f in facts && AboutObject(f, id)
  }

  function FactsOfPointer(facts: set<Fact>, p: nat): set<Fact> {
    set f | f in facts && AboutPointer(f, p)
  }

  // The facts of a subject are those that state it or an attribute of it.
  lemma FactsOfSubject(s: Snapshot, id: ObjectId, p: nat, f: Fact)
    ensures f in FactsOfObject(Facts(s), id) <==>
            exists o :: o in s.objects && o.id == id && FactDerivation.SaidOfObject(s, o, f)
    ensures f in FactsOfPointer(Facts(s), p) <==>
            exists q :: q in s.pointers && q.id == p && FactDerivation.SaidOfPointer(q, f)
  {
    hide Facts;
    FactDerivation.ListSaysFacts(s, f);
    FactDerivation.FactsSay(s, f);
  }

  // ---- what each operation touches

  datatype Touch = Touch(readObjects: set<ObjectId>, writtenObjects: set<ObjectId>, readPointers: set<nat>,
    writtenPointers: set<nat>)

  datatype Resolved = Resolved(read: set<Fact>, written: set<Fact>)

  datatype Prediction = Prediction(temps: map<nat, ObjectId>, nextPointer: nat)

  function ResolveIn(before: Snapshot, after: Snapshot, temps: map<nat, ObjectId>, ref: Ref): Option<ObjectId> {
    match ref
    case ById(id) => if Contains(before, id) || Contains(after, id) then Some(id) else None
    case ByTemp(t) => if t in temps then Some(temps[t]) else None
  }

  function Known(id: Option<ObjectId>): set<ObjectId> {
    if id.Some? then {id.value} else {}
  }

  function Touched(before: Snapshot, after: Snapshot, pr: Prediction, op: Op): Touch {
    match op
    case AssertObject(ref) => Touch(Known(ResolveIn(before, after, pr.temps, ref)), {}, {}, {})
    case AssertPointer(p) => Touch({}, {}, {p}, {})
    case CreateObject(_, name, _, _, _) => Touch({}, Known(Morphisms.FindNamed(after.objects, name)), {}, {})
    case SetObjectType(ref, _) => Touch(Known(ResolveIn(before, after, pr.temps, ref)),
      Known(ResolveIn(before, after, pr.temps, ref)), {}, {})
    case SetObjectExistence(ref, _) => Touch(Known(ResolveIn(before, after, pr.temps, ref)),
      Known(ResolveIn(before, after, pr.temps, ref)), {}, {})
    case SetObjectAttribute(ref, _) => Touch(Known(ResolveIn(before, after, pr.temps, ref)),
      Known(ResolveIn(before, after, pr.temps, ref)), {}, {})
    case RemoveObjectAttribute(ref, _) => Touch(Known(ResolveIn(before, after, pr.temps, ref)),
      Known(ResolveIn(before, after, pr.temps, ref)), {}, {})
    case CreatePointer(from, to, _, _, _, _, _) =>
      Touch(Known(ResolveIn(before, after, pr.temps, from)) + Known(ResolveIn(before, after, pr.temps, to)), {}, {},
        {pr.nextPointer})
    case ExpirePointer(p) => Touch({}, {}, {p}, {p})
    case SetPointerWeight(p, _) => Touch({}, {}, {p}, {p})
    case SetPointerAttribute(p, _) => Touch({}, {}, {p}, {p})
    case RemovePointerAttribute(p, _) => Touch({}, {}, {p}, {p})
    case _ => Touch({}, {}, {}, {})
  }

  function Predicted(after: Snapshot, pr: Prediction, op: Op): Prediction {
    match op
    case CreateObject(temp, name, _, _, _) =>
      (match Morphisms.FindNamed(after.objects, name)
       case Some(id) => if temp in pr.temps then pr else pr.(temps := pr.temps[temp := id])
       case None => pr)
    case CreatePointer(_, _, _, _, _, _, _) => pr.(nextPointer := pr.nextPointer + 1)
    case _ => pr
  }

  // The facts of the subjects touched, before for what is read and after for what is written.
  function ResolvedOf(before: Snapshot, after: Snapshot, t: Touch): Resolved {
    Resolved((set id, f | id in t.readObjects && f in FactsOfObject(Facts(before), id) :: f) +
             (set p, f | p in t.readPointers && f in FactsOfPointer(Facts(before), p) :: f),
             (set id, f | id in t.writtenObjects && f in FactsOfObject(Facts(after), id) :: f) +
             (set p, f | p in t.writtenPointers && f in FactsOfPointer(Facts(after), p) :: f))
  }

  function Plan(before: Snapshot, after: Snapshot, pr: Prediction, ops: Delta): seq<Resolved>
    decreases |ops|
  {
    if ops == [] then []
    else
      [ResolvedOf(before, after, Touched(before, after, pr, ops[0]))] +
      Plan(before, after, Predicted(after, pr, ops[0]), ops[1..])
  }

  // Resolves the operations of a delta, predicting temps and pointer ids on the way.
  method ResolveOperations(delta: Delta, before: Snapshot, after: Snapshot) returns (resolved: seq<Resolved>)
    ensures resolved == Plan(before, after, Prediction(map[], NextPointer(before.pointers)), delta)
  {
    hide ResolvedOf, Touched, Predicted;
    resolved := [];
    var next := NextPointerOf(before.pointers);
    var pr := Prediction(map[], next);
    ghost var start := pr;
    assert delta[0..] == delta;
    for i := 0 to |delta|
      invariant Plan(before, after, start, delta) == resolved + Plan(before, after, pr, delta[i..])
    {
      assert delta[i..][1..] == delta[i + 1..];
      resolved := resolved + [ResolvedOf(before, after, Touched(before, after, pr, delta[i]))];
      pr := Predicted(after, pr, delta[i]);
    }
  }

  // ---- everything touched over a run

  function Join(a: Touch, b: Touch): Touch {
    Touch(a.readObjects + b.readObjects, a.writtenObjects + b.writtenObjects,
          a.readPointers + b.readPointers, a.writtenPointers + b.writtenPointers)
  }

  function TouchedAll(before: Snapshot, after: Snapshot, pr: Prediction, ops: Delta): Touch
    decreases |ops|
  {
    if ops == [] then Touch({}, {}, {}, {})
    else Join(Touched(before, after, pr, ops[0]), TouchedAll(before, after, Predicted(after, pr, ops[0]), ops[1..]))
  }

  function Reads(plan: seq<Resolved>): set<Fact> {
    set i, f | 0 <= i < |plan| && f in plan[i].read :: f
  }

  function Writes(plan: seq<Resolved>): set<Fact> {
    set i, f | 0 <= i < |plan| && f in plan[i].written :: f
  }

  // The union of the plan's sets are the facts of everything touched.
  lemma {:induction false} PlanUnion(before: Snapshot, after: Snapshot, pr: Prediction, ops: Delta)
    ensures Reads(Plan(before, after, pr, ops)) == ResolvedOf(before, after, TouchedAll(before, after, pr, ops)).read
    ensures Writes(Plan(before, after, pr, ops)) == ResolvedOf(before, after,
            TouchedAll(before, after, pr, ops)).written
    decreases |ops|
  {
    hide Touched, Predicted, ResolvedOf, Reads, Writes;
    if ops == [] {
      NothingTouched(before, after);
    } else {
      var t, rest := Touched(before, after, pr, ops[0]), Predicted(after, pr, ops[0]);
      PlanUnion(before, after, rest, ops[1..]);
      UnionOne(ResolvedOf(before, after, t), Plan(before, after, rest, ops[1..]));
      ResolvedJoin(before, after, t, TouchedAll(before, after, rest, ops[1..]));
    }
  }

  lemma NothingTouched(before: Snapshot, after: Snapshot)
    ensures ResolvedOf(before, after, Touch({}, {}, {}, {})) == Resolved({}, {}) && Reads([]) == {} && Writes([]) == {}
  {
    hide Facts;
  }

  lemma UnionOne(r: Resolved, rest: seq<Resolved>)
    ensures Reads([r] + rest) == r.read + Reads(rest) && Writes([r] + rest) == r.written + Writes(rest)
  {
    var all := [r] + rest;
    assert all[0] == r && forall i :: 0 <= i < |rest| ==> all[i + 1] == rest[i];
    forall f ensures f in Reads(all) <==> f in r.read + Reads(rest) {
      if f in Reads(all) {
        var i :| 0 <= i < |all| && f in all[i].read;
        assert i > 0 ==> f in rest[i - 1].read;
      }
      if f in r.read {
        assert f in all[0].read;
      }
      if f in Reads(rest) {
        var i :| 0 <= i < |rest| && f in rest[i].read;
        assert f in all[i + 1].read;
      }
    }
    forall f ensures f in Writes(all) <==> f in r.written + Writes(rest) {
      if f in Writes(all) {
        var i :| 0 <= i < |all| && f in all[i].written;
        assert i > 0 ==> f in rest[i - 1].written;
      }
      if f in r.written {
        assert f in all[0].written;
      }
      if f in Writes(rest) {
        var i :| 0 <= i < |rest| && f in rest[i].written;
        assert f in all[i + 1].written;
      }
    }
  }

  lemma ResolvedJoin(before: Snapshot, after: Snapshot, a: Touch, b: Touch)
    ensures ResolvedOf(before, after, Join(a, b)).read == ResolvedOf(before, after, a).read +
            ResolvedOf(before, after, b).read
    ensures ResolvedOf(before, after, Join(a, b)).written == ResolvedOf(before, after, a).written +
            ResolvedOf(before, after, b).written
  {
    hide Facts, FactsOfObject, FactsOfPointer;
  }

  // ---- what is not written stays as it was

  ghost predicate Framed(before: Snapshot, s: Snapshot, t: Touch) {
    && (forall i :: 0 <= i < |s.objects| ==>
          s.objects[i].id in t.writtenObjects || (i < |before.objects| &&
            Bare(s.objects[i]) == Bare(before.objects[i])))
    && (forall i :: 0 <= i < |s.pointers| ==>
          s.pointers[i].id in t.writtenPointers || (i < |before.pointers| && s.pointers[i] == before.pointers[i]))
  }

  // What existed before is read when it is written.
  ghost predicate ReadFirst(before: Snapshot, t: Touch) {
    && (forall id :: id in t.writtenObjects && id in IdSet(before.objects) ==> id in t.readObjects)
    && (forall p :: p in t.writtenPointers && FindPointer(before.pointers, p).Some? ==> p in t.readPointers)
  }

  // The plan's predictions are the overlay's temps and next pointer id.
  ghost predicate Predicts(pr: Prediction, st: State) {
    pr.temps == st.temps && pr.nextPointer == NextPointer(st.snap.pointers)
  }

  lemma ResolvedAlike(before: Snapshot, after: Snapshot, st: State, pr: Prediction, ref: Ref)
    requires Predicts(pr, st) && Resolve(st, ref).Some? && ObjectsExtend(st.snap.objects, after.objects)
    ensures ResolveIn(before, after, pr.temps, ref) == Resolve(st, ref)
  {
    ExtendsIds(st.snap.objects, after.objects);
  }

  // A created object is found by its name afterwards.
  lemma CreatedNamed(after: Snapshot, objects: seq<Object>, o: Object)
    requires WellFormed(after) && ObjectsExtend(objects + [o], after.objects)
    ensures Morphisms.FindNamed(after.objects, o.name) == Some(o.id)
  {
    var i := |objects|;
    assert (objects + [o])[i] == o;
    assert after.objects[i].id == o.id && after.objects[i].name == o.name;
    CompileProof.NamesDiffer(after);
    CompileProof.NamedUnique(after.objects, i);
  }

  lemma FramedMore(before: Snapshot, s: Snapshot, t: Touch, more: Touch)
    requires Framed(before, s, t)
    ensures Framed(before, s, Join(t, more))
  {
  }

  lemma FrameObject(before: Snapshot, after: Snapshot, st: State, pr: Prediction, op: Op, t: Touch)
    requires ObjectOp(op) && Step(st, op).Ok? && Framed(before, st.snap, t) && Predicts(pr, st)
    requires ObjectsExtend(st.snap.objects, after.objects)
    ensures var next := Step(st, op).value;
            Framed(before, next.snap, Join(t, Touched(before, after, pr, op))) && Predicts(pr, next)
  {
    hide Framed, FindObject, Resolve, NextPointer, HasSymbol;
    var next, touch := Step(st, op).value, Touched(before, after, pr, op);
    ResolvedAlike(before, after, st, pr, op.target);
    var id := Resolve(st, op.target).value;
    var i := FindObject(st.snap.objects, id).value;
    FramedMore(before, st.snap, t, touch);
    if op.AssertObject? {
      assert next.snap.objects == st.snap.objects;
    } else {
      FramedPut(before, st.snap, Join(t, touch), i, next.snap.objects[i]);
    }
  }

  lemma FramedPut(before: Snapshot, s: Snapshot, t: Touch, i: nat, o: Object)
    requires Framed(before, s, t) && i < |s.objects| && o.id in t.writtenObjects
    ensures Framed(before, s.(objects := s.objects[i := o]), t)
  {
  }

  lemma FramedPutPointer(before: Snapshot, s: Snapshot, t: Touch, i: nat, p: Pointer)
    requires Framed(before, s, t) && i < |s.pointers| && p.id in t.writtenPointers
    ensures Framed(before, s.(pointers := s.pointers[i := p]), t)
  {
  }

  lemma FramePointer(before: Snapshot, after: Snapshot, st: State, pr: Prediction, op: Op, t: Touch)
    requires PointerOp(op) && Step(st, op).Ok? && Framed(before, st.snap, t) && Predicts(pr, st)
    ensures var next := Step(st, op).value;
            Framed(before, next.snap, Join(t, Touched(before, after, pr, op))) && Predicts(pr, next)
  {
    hide Framed, FindPointer, NextPointer;
    var next, touch := Step(st, op).value, Touched(before, after, pr, op);
    var i := FindPointer(st.snap.pointers, op.pointer).value;
    SamePointerIndex(st.snap.pointers, next.snap.pointers);
    FramedMore(before, st.snap, t, touch);
    if op.AssertPointer? {
      assert next.snap.pointers == st.snap.pointers;
    } else {
      FramedPutPointer(before, st.snap, Join(t, touch), i, next.snap.pointers[i]);
    }
  }

  lemma FrameCreate(before: Snapshot, after: Snapshot, st: State, pr: Prediction, op: Op, t: Touch)
    requires op.CreateObject? && Step(st, op).Ok? && Framed(before, st.snap, t) && Predicts(pr, st)
    requires WellFormed(after) && ObjectsExtend(Step(st, op).value.snap.objects, after.objects)
    ensures var next := Step(st, op).value;
            Framed(before, next.snap, Join(t, Touched(before, after, pr, op))) &&
              Predicts(Predicted(after, pr, op), next)
  {
    hide NextPointer, NextIndex, HasSymbol, NameSet, Morphisms.FindNamed, WellFormed, Sorted;
    var o := NewObject(st, op);
    CreatedNamed(after, st.snap.objects, o);
  }

  lemma FrameLink(before: Snapshot, after: Snapshot, st: State, pr: Prediction, op: Op, t: Touch)
    requires op.CreatePointer? && Step(st, op).Ok? && Framed(before, st.snap, t) && Predicts(pr, st)
    ensures var next := Step(st, op).value;
            Framed(before, next.snap, Join(t, Touched(before, after, pr, op))) &&
              Predicts(Predicted(after, pr, op), next)
  {
    hide NextPointer, HasSymbol, Resolve, Sorted, ResolveIn;
    CompileProof.LinkNames(st, op);
  }

  lemma FrameStep(before: Snapshot, after: Snapshot, st: State, pr: Prediction, op: Op, t: Touch)
    requires StateOk(st) && Step(st, op).Ok? && Framed(before, st.snap, t) && Predicts(pr, st)
    requires WellFormed(after) && ObjectsExtend(Step(st, op).value.snap.objects, after.objects)
    ensures var next := Step(st, op).value;
            Framed(before, next.snap, Join(t, Touched(before, after, pr, op))) &&
              Predicts(Predicted(after, pr, op), next)
  {
    hide Framed, WellFormed, StepObject, StepPointer, StepCreate, StepLink, InternName, NextPointer;
    StepKeeps(st, op);
    assert ObjectsExtend(st.snap.objects, Step(st, op).value.snap.objects);
    if ObjectOp(op) {
      FrameObject(before, after, st, pr, op, t);
    } else if PointerOp(op) {
      FramePointer(before, after, st, pr, op, t);
    } else if op.CreateObject? {
      FrameCreate(before, after, st, pr, op, t);
    } else if op.CreatePointer? {
      FrameLink(before, after, st, pr, op, t);
    } else {
      FramedMore(before, st.snap, t, Touched(before, after, pr, op));
      FramedTables(before, st.snap, Step(st, op).value.snap, Join(t, Touched(before, after, pr, op)));
    }
  }

  lemma FramedTables(before: Snapshot, s: Snapshot, next: Snapshot, t: Touch)
    requires Framed(before, s, t) && next.objects == s.objects && next.pointers == s.pointers
    ensures Framed(before, next, t)
  {
  }

  lemma JoinAssoc(a: Touch, b: Touch, c: Touch)
    ensures Join(Join(a, b), c) == Join(a, Join(b, c)) && Join(Touch({}, {}, {}, {}), c) == c &&
            Join(c, Touch({}, {}, {}, {})) == c
  {
  }

  lemma {:induction false} FrameRun(before: Snapshot, after: Snapshot, st: State, pr: Prediction, ops: Delta, t: Touch)
    requires StateOk(st) && Run(st, ops).Ok? && Framed(before, st.snap, t) && Predicts(pr, st)
    requires WellFormed(after) && Extends(Run(st, ops).value.snap, after)
    ensures Framed(before, Run(st, ops).value.snap, Join(t, TouchedAll(before, after, pr, ops)))
    decreases |ops|
  {
    hide Framed, WellFormed, Step, Touched, Predicted, Predicts;
    if ops == [] {
      JoinAssoc(t, t, t);
    } else {
      StepKeeps(st, ops[0]);
      var next := Step(st, ops[0]).value;
      RunKeeps(next, ops[1..]);
      ExtendsTrans(next.snap, Run(st, ops).value.snap, after);
      FrameStep(before, after, st, pr, ops[0], t);
      var touch := Touched(before, after, pr, ops[0]);
      FrameRun(before, after, next, Predicted(after, pr, ops[0]), ops[1..], Join(t, touch));
      JoinAssoc(t, touch, TouchedAll(before, after, Predicted(after, pr, ops[0]), ops[1..]));
    }
  }

  // ---- what is written and existed before is also read

  lemma ReadStep(before: Snapshot, after: Snapshot, st: State, pr: Prediction, op: Op)
    requires StateOk(st) && Step(st, op).Ok? && Predicts(pr, st) && Extends(before, st.snap)
    requires WellFormed(after) && ObjectsExtend(Step(st, op).value.snap.objects, after.objects)
    ensures ReadFirst(before, Touched(before, after, pr, op))
  {
    hide WellFormed, StepObject, StepPointer, InternName, NextPointer, NextIndex, ResolveIn, Morphisms.FindNamed;
    if op.CreateObject? {
      CreateFresh(before, after, st, op);
    } else if op.CreatePointer? {
      LinkFresh(before, st);
    }
  }

  lemma CreateFresh(before: Snapshot, after: Snapshot, st: State, op: Op)
    requires op.CreateObject? && Step(st, op).Ok? && Extends(before, st.snap)
    requires WellFormed(after) && ObjectsExtend(Step(st, op).value.snap.objects, after.objects)
    ensures Morphisms.FindNamed(after.objects, op.name).Some? &&
            Morphisms.FindNamed(after.objects, op.name).value !in IdSet(before.objects)
  {
    hide WellFormed, NextIndex, HasSymbol, NameSet, Morphisms.FindNamed, Sorted;
    var o := NewObject(st, op);
    CreatedNamed(after, st.snap.objects, o);
    ExtendsIds(before.objects, st.snap.objects);
    NextIndexAbove(st.snap.objects);
  }

  lemma LinkFresh(before: Snapshot, st: State)
    requires Extends(before, st.snap)
    ensures FindPointer(before.pointers, NextPointer(st.snap.pointers)).None?
  {
    NextPointerAbove(st.snap.pointers);
    forall i | 0 <= i < |before.pointers| ensures before.pointers[i].id != NextPointer(st.snap.pointers) {
      assert SamePointer(before.pointers[i], st.snap.pointers[i]);
    }
  }

  function Everything(s: Snapshot): Touch {
    Touch({}, IdSet(s.objects), {}, set i | 0 <= i < |s.pointers| :: s.pointers[i].id)
  }

  lemma EverythingFramed(before: Snapshot, s: Snapshot)
    ensures Framed(before, s, Everything(s))
  {
  }

  lemma {:induction false} ReadRun(before: Snapshot, after: Snapshot, st: State, pr: Prediction, ops: Delta)
    requires StateOk(st) && Run(st, ops).Ok? && Predicts(pr, st) && Extends(before, st.snap)
    requires WellFormed(after) && Extends(Run(st, ops).value.snap, after)
    ensures ReadFirst(before, TouchedAll(before, after, pr, ops))
    decreases |ops|
  {
    hide Framed, WellFormed, Step, Touched, Predicted, Predicts, FindPointer;
    if ops != [] {
      StepKeeps(st, ops[0]);
      var next := Step(st, ops[0]).value;
      RunKeeps(next, ops[1..]);
      ExtendsTrans(next.snap, Run(st, ops).value.snap, after);
      ExtendsTrans(before, st.snap, next.snap);
      EverythingFramed(before, st.snap);
      FrameStep(before, after, st, pr, ops[0], Everything(st.snap));
      ReadStep(before, after, st, pr, ops[0]);
      ReadRun(before, after, next, Predicted(after, pr, ops[0]), ops[1..]);
    }
  }

  // ---- what is touched, read off the delta

  // The operation changes the object it names by id.
  predicate Edits(op: Op, id: ObjectId) {
    && (op.SetObjectType? || op.SetObjectExistence? || op.SetObjectAttribute? || op.RemoveObjectAttribute?)
    && op.target == ById(id)
  }

  // The operation changes the object, asserts it, or links it, naming it by id.
  predicate Names(op: Op, id: ObjectId) {
    || Edits(op, id)
    || op == AssertObject(ById(id))
    || (op.CreatePointer? && (op.from == ById(id) || op.to == ById(id)))
  }

  // Temps stand for objects that were not there before.
  ghost predicate TempsNew(before: Snapshot, st: State) {
    forall t :: t in st.temps ==> st.temps[t] !in IdSet(before.objects)
  }

  // An accepted reference touches an old object exactly when it is its id.
  lemma OldByIdOnly(before: Snapshot, after: Snapshot, st: State, pr: Prediction, ref: Ref, id: ObjectId)
    requires Predicts(pr, st) && Resolve(st, ref).Some? && ObjectsExtend(st.snap.objects, after.objects)
    requires TempsNew(before, st) && id in IdSet(before.objects)
    ensures id in Known(ResolveIn(before, after, pr.temps, ref)) <==> ref == ById(id)
  {
    ResolvedAlike(before, after, st, pr, ref);
  }

  lemma TouchedOld(before: Snapshot, after: Snapshot, st: State, pr: Prediction, op: Op, id: ObjectId)
    requires StateOk(st) && Step(st, op).Ok? && Predicts(pr, st) && Extends(before, st.snap)
    requires WellFormed(after) && ObjectsExtend(Step(st, op).value.snap.objects, after.objects)
    requires TempsNew(before, st) && id in IdSet(before.objects)
    ensures id in Touched(before, after, pr, op).writtenObjects <==> Edits(op, id)
    ensures id in Touched(before, after, pr, op).readObjects <==> Names(op, id)
  {
    hide WellFormed, StepObject, StepPointer, InternName, NextPointer, NextIndex, ResolveIn, Morphisms.FindNamed,
         Resolve, Predicts, TempsNew;
    StepKeeps(st, op);
    assert ObjectsExtend(st.snap.objects, Step(st, op).value.snap.objects);
    if ObjectOp(op) {
      TargetResolves(st, op);
      OldByIdOnly(before, after, st, pr, op.target, id);
    } else if op.CreateObject? {
      CreateFresh(before, after, st, op);
    } else if op.CreatePointer? {
      EndsResolve(st, op);
      OldByIdOnly(before, after, st, pr, op.from, id);
      OldByIdOnly(before, after, st, pr, op.to, id);
    }
  }

  lemma TargetResolves(st: State, op: Op)
    requires ObjectOp(op) && Step(st, op).Ok?
    ensures Resolve(st, op.target).Some?
  {
    hide Resolve, HasSymbol;
  }

  lemma EndsResolve(st: State, op: Op)
    requires op.CreatePointer? && Step(st, op).Ok?
    ensures Resolve(st, op.from).Some? && Resolve(st, op.to).Some?
  {
    hide Resolve, HasSymbol, NextPointer, Sorted;
  }

  lemma TempsStayNew(before: Snapshot, st: State, op: Op)
    requires Step(st, op).Ok? && Extends(before, st.snap) && TempsNew(before, st)
    ensures TempsNew(before, Step(st, op).value)
  {
    hide NextIndex, HasSymbol, FindObject, FindPointer, Facts, Sorted, InternName, NextPointer, Resolve;
    if op.CreateObject? {
      ExtendsIds(before.objects, st.snap.objects);
      NextIndexAbove(st.snap.objects);
    }
  }

  // Over a run, an old object is written exactly when an operation edits it by id, and read
  // exactly when one names it.
  lemma {:induction false} TouchedAllOld(before: Snapshot, after: Snapshot, st: State, pr: Prediction, ops: Delta,
                                         id: ObjectId)
    requires StateOk(st) && Run(st, ops).Ok? && Predicts(pr, st) && Extends(before, st.snap)
    requires WellFormed(after) && Extends(Run(st, ops).value.snap, after)
    requires TempsNew(before, st) && id in IdSet(before.objects)
    ensures id in TouchedAll(before, after, pr, ops).writtenObjects <==> exists op :: op in ops && Edits(op, id)
    ensures id in TouchedAll(before, after, pr, ops).readObjects <==> exists op :: op in ops && Names(op, id)
    decreases |ops|
  {
    hide Framed, WellFormed, Step, Touched, Predicted, Predicts, FindPointer, Edits, Names, TempsNew;
    if ops != [] {
      StepKeeps(st, ops[0]);
      var next := Step(st, ops[0]).value;
      RunKeeps(next, ops[1..]);
      ExtendsTrans(next.snap, Run(st, ops).value.snap, after);
      ExtendsTrans(before, st.snap, next.snap);
      EverythingFramed(before, st.snap);
      FrameStep(before, after, st, pr, ops[0], Everything(st.snap));
      TouchedOld(before, after, st, pr, ops[0], id);
      TempsStayNew(before, st, ops[0]);
      TouchedAllOld(before, after, next, Predicted(after, pr, ops[0]), ops[1..], id);
      assert ops == [ops[0]] + ops[1..];
    }
  }

  // ---- the frame theorem

  // The plan of an accepted delta, and what it touches.
  ghost function TouchedBy(before: Snapshot, after: Snapshot, delta: Delta): Touch {
    TouchedAll(before, after, Prediction(map[], NextPointer(before.pointers)), delta)
  }

  // ---- which pointers a delta touches

  // The operation works on a pointer named by its id: all but the assertion change it.
  predicate WorksOn(op: Op, p: nat) {
    match op
    case ExpirePointer(q) => q == p
    case SetPointerWeight(q, _) => q == p
    case SetPointerAttribute(q, _) => q == p
    case RemovePointerAttribute(q, _) => q == p
    case AssertPointer(q) => q == p
    case _ => false
  }

  predicate IsLink(op: Op) {
    op.CreatePointer?
  }

  lemma PointerTouched(before: Snapshot, after: Snapshot, pr: Prediction, op: Op, p: nat)
    ensures p in Touched(before, after, pr, op).readPointers <==> WorksOn(op, p)
    ensures p in Touched(before, after, pr, op).writtenPointers <==>
              (WorksOn(op, p) && !op.AssertPointer?) || (op.CreatePointer? && p == pr.nextPointer)
    ensures Predicted(after, pr, op).nextPointer == pr.nextPointer + if op.CreatePointer? then 1 else 0
  {
    hide ResolveIn, Known, Morphisms.FindNamed;
  }

  // A pointer is read exactly when some operation names it, and written exactly when one
  // other than an assertion does or it is among those the links make.
  lemma {:induction false} TouchedPointers(before: Snapshot, after: Snapshot, pr: Prediction, ops: Delta, p: nat)
    ensures p in TouchedAll(before, after, pr, ops).readPointers <==> exists op :: op in ops && WorksOn(op, p)
    ensures p in TouchedAll(before, after, pr, ops).writtenPointers <==>
              || (exists op :: op in ops && WorksOn(op, p) && !op.AssertPointer?)
              || pr.nextPointer <= p < pr.nextPointer + |Those(ops, IsLink)|
    decreases |ops|
  {
    hide Touched, Predicted, WorksOn;
    if ops != [] {
      TouchedPointers(before, after, Predicted(after, pr, ops[0]), ops[1..], p);
      PointerTouched(before, after, pr, ops[0], p);
      assert ops == [ops[0]] + ops[1..];
    }
  }

  ghost predicate Transition(before: Snapshot, delta: Delta, after: Snapshot) {
    WellFormed(before) && Apply(before, delta) == Ok(after)
  }

  lemma TransitionFramed(before: Snapshot, delta: Delta, after: Snapshot)
    requires Transition(before, delta, after)
    ensures WellFormed(after) && Extends(before, after) && after.epoch == before.epoch + 1
    ensures Framed(before, after, TouchedBy(before, after, delta)) && ReadFirst(before, TouchedBy(before, after, delta))
  {
    hide Framed, WellFormed, Run, TouchedAll, Counted, NextPointer, ReadFirst;
    var st, pr := Start(before), Prediction(map[], NextPointer(before.pointers));
    var end := Run(st, delta).value;
    ApplyKeeps(before, delta);
    StartKeeps(before);
    RunKeeps(st, delta);
    RecountWell(end);
    StartFramed(before);
    JoinAssoc(Touch({}, {}, {}, {}), Touch({}, {}, {}, {}), TouchedAll(before, after, pr, delta));
    FrameRun(before, after, st, pr, delta, Touch({}, {}, {}, {}));
    ReadRun(before, after, st, pr, delta);
    RecountFramed(before, end.snap, TouchedAll(before, after, pr, delta));
  }

  lemma RecountWell(st: State)
    requires StateOk(st)
    ensures Extends(st.snap, Recount(st.snap))
  {
    RecountKeeps(st.snap);
  }

  lemma StartFramed(before: Snapshot)
    ensures Framed(before, Start(before).snap, Touch({}, {}, {}, {}))
  {
  }

  lemma RecountFramed(before: Snapshot, s: Snapshot, t: Touch)
    requires Framed(before, s, t)
    ensures Framed(before, Recount(s), t)
  {
    hide FindObject, Incoming, Outgoing;
  }

  // The facts of an object whose record did not change are the same, but for the epoch a
  // tombstone carries.
  lemma SameObjectFacts(a: Snapshot, b: Snapshot, i: nat, f: Fact)
    requires i < |a.objects| && i < |b.objects| && Bare(a.objects[i]) == Bare(b.objects[i]) &&
             f in ObjectFacts(b, b.objects[i])
    requires b.objects[i].existence != Tombstoned
    ensures f in ObjectFacts(a, a.objects[i]) && f in Facts(a)
  {
    assert a.objects[i].id == b.objects[i].id;
  }

  lemma FactCases(s: Snapshot, f: Fact)
    requires f in Facts(s)
    ensures (exists i :: 0 <= i < |s.objects| && f in ObjectFacts(s, s.objects[i])) ||
            (exists i :: 0 <= i < |s.pointers| && f in PointerFacts(s.pointers[i]))
  {
  }

  lemma AboutSubject(s: Snapshot, f: Fact)
    ensures forall i :: 0 <= i < |s.objects| && f in ObjectFacts(s, s.objects[i]) ==>
              AboutObject(f, s.objects[i].id) && f in Facts(s)
    ensures forall i :: 0 <= i < |s.pointers| && f in PointerFacts(s.pointers[i]) ==>
            AboutPointer(f, s.pointers[i].id) && f in Facts(s)
  {
  }

  // Every tombstone is among the objects.
  ghost predicate TombstonesIn(s: Snapshot, ids: set<ObjectId>) {
    forall i :: 0 <= i < |s.objects| && s.objects[i].existence == Tombstoned ==> s.objects[i].id in ids
  }

  // A tombstone's fact says the epoch of its snapshot.
  lemma TombstoneFact(s: Snapshot, other: Snapshot, i: nat)
    requires s.epoch != other.epoch && i < |s.objects| && s.objects[i].existence == Tombstoned
    ensures ObjectFactOf(s, s.objects[i]) in Facts(s) && ObjectFactOf(s, s.objects[i]) !in Facts(other)
  {
    var f := ObjectFactOf(s, s.objects[i]);
    assert f in ObjectFacts(s, s.objects[i]);
    AboutSubject(s, f);
  }

  // Every new fact is written exactly when every object that was already a tombstone is.
  lemma WritesTouched(before: Snapshot, delta: Delta, after: Snapshot)
    requires Transition(before, delta, after)
    ensures Facts(after) - Facts(before) <= Writes(Plan(before, after, Prediction(map[], NextPointer(before.pointers)),
            delta)) <==>
            TombstonesIn(before, TouchedBy(before, after, delta).writtenObjects)
  {
    hide Facts, WellFormed, Plan, Transition, ObjectFacts, PointerFacts, AboutObject, AboutPointer, TouchedBy, Apply,
         ReadFirst, ResolvedOf, Touched, TouchedAll, NextPointer;
    var t, pr := TouchedBy(before, after, delta), Prediction(map[], NextPointer(before.pointers));
    TransitionFramed(before, delta, after);
    TouchedIs(before, after, delta);
    PlanUnion(before, after, pr, delta);
    var writes := ResolvedOf(before, after, t).written;
    if TombstonesIn(before, t.writtenObjects) {
      forall f | f in Facts(after) && f !in Facts(before) ensures f in writes {
        FactCases(after, f);
        AboutSubject(after, f);
        Entered(before, after, t, f);
        if i :| 0 <= i < |after.objects| && f in ObjectFacts(after, after.objects[i]) {
          if after.objects[i].id !in t.writtenObjects {
            SameObjectFacts(before, after, i, f);
          }
        } else {
          var i :| 0 <= i < |after.pointers| && f in PointerFacts(after.pointers[i]);
          if after.pointers[i].id !in t.writtenPointers {
            AboutSubject(before, f);
          }
        }
      }
    } else {
      var i :| 0 <= i < |before.objects| && before.objects[i].existence == Tombstoned &&
        before.objects[i].id !in t.writtenObjects;
      var f := ObjectFactOf(after, after.objects[i]);
      TombstoneFact(after, before, i);
      NotWritten(before, after, t, f, before.objects[i].id);
    }
  }

  lemma Entered(before: Snapshot, after: Snapshot, t: Touch, f: Fact)
    ensures forall id :: f in Facts(after) && AboutObject(f, id) && id in t.writtenObjects ==>
            f in ResolvedOf(before, after, t).written
    ensures forall p: nat :: f in Facts(after) && AboutPointer(f, p) && p in t.writtenPointers ==>
            f in ResolvedOf(before, after, t).written
    ensures forall id :: f in Facts(before) && AboutObject(f, id) && id in t.readObjects ==>
            f in ResolvedOf(before, after, t).read
    ensures forall p: nat :: f in Facts(before) && AboutPointer(f, p) && p in t.readPointers ==>
            f in ResolvedOf(before, after, t).read
  {
    hide Facts, AboutObject, AboutPointer;
    forall id | f in Facts(after) && AboutObject(f, id) &&
      id in t.writtenObjects ensures f in ResolvedOf(before, after, t).written {
      assert f in FactsOfObject(Facts(after), id);
    }
    forall p: nat | f in Facts(after) && AboutPointer(f, p) &&
      p in t.writtenPointers ensures f in ResolvedOf(before, after, t).written {
      assert f in FactsOfPointer(Facts(after), p);
    }
    forall id | f in Facts(before) && AboutObject(f, id) &&
      id in t.readObjects ensures f in ResolvedOf(before, after, t).read {
      assert f in FactsOfObject(Facts(before), id);
    }
    forall p: nat | f in Facts(before) && AboutPointer(f, p) &&
      p in t.readPointers ensures f in ResolvedOf(before, after, t).read {
      assert f in FactsOfPointer(Facts(before), p);
    }
  }

  lemma TouchedIs(before: Snapshot, after: Snapshot, delta: Delta)
    ensures TouchedBy(before, after, delta) == TouchedAll(before, after,
            Prediction(map[], NextPointer(before.pointers)), delta)
  {
  }

  lemma NotWritten(before: Snapshot, after: Snapshot, t: Touch, f: Fact, id: ObjectId)
    requires f.ObjectFact? && f.oid == id
    ensures id !in t.writtenObjects ==> f !in ResolvedOf(before, after, t).written
    ensures id !in t.readObjects ==> f !in ResolvedOf(before, after, t).read
  {
    hide Facts;
  }

  // Every lost fact was read exactly when every object that was already a tombstone was.
  lemma ReadsTouched(before: Snapshot, delta: Delta, after: Snapshot)
    requires Transition(before, delta, after)
    ensures Facts(before) - Facts(after) <= Reads(Plan(before, after, Prediction(map[], NextPointer(before.pointers)),
            delta)) <==>
            TombstonesIn(before, TouchedBy(before, after, delta).readObjects)
  {
    hide Facts, WellFormed, Plan, Transition, ObjectFacts, PointerFacts, AboutObject, AboutPointer, TouchedBy, Apply,
         ResolvedOf, Touched, TouchedAll, NextPointer;
    var t, pr := TouchedBy(before, after, delta), Prediction(map[], NextPointer(before.pointers));
    TransitionFramed(before, delta, after);
    TouchedIs(before, after, delta);
    PlanUnion(before, after, pr, delta);
    ExtendsIds(before.objects, after.objects);
    var reads' := ResolvedOf(before, after, t).read;
    if TombstonesIn(before, t.readObjects) {
      forall f | f in Facts(before) && f !in Facts(after) ensures f in reads' {
        FactCases(before, f);
        AboutSubject(before, f);
        Entered(before, after, t, f);
        if i :| 0 <= i < |before.objects| && f in ObjectFacts(before, before.objects[i]) {
          if before.objects[i].id !in t.readObjects {
            assert before.objects[i].id in IdSet(before.objects);
            SameObjectFacts(after, before, i, f);
          }
        } else {
          var i :| 0 <= i < |before.pointers| && f in PointerFacts(before.pointers[i]);
          if before.pointers[i].id !in t.readPointers {
            assert FindPointer(before.pointers, before.pointers[i].id).Some?;
            assert SamePointer(before.pointers[i], after.pointers[i]);
            AboutSubject(after, f);
          }
        }
      }
    } else {
      var i :| 0 <= i < |before.objects| && before.objects[i].existence == Tombstoned &&
        before.objects[i].id !in t.readObjects;
      TombstoneFact(before, after, i);
      NotWritten(before, after, t, ObjectFactOf(before, before.objects[i]), before.objects[i].id);
    }
  }

  // ---- the frame, by what the delta says

  ghost predicate TombstonesEdited(before: Snapshot, delta: Delta) {
    forall i :: 0 <= i < |before.objects| && before.objects[i].existence == Tombstoned ==>
      exists op :: op in delta && Edits(op, before.objects[i].id)
  }

  ghost predicate TombstonesNamed(before: Snapshot, delta: Delta) {
    forall i :: 0 <= i < |before.objects| && before.objects[i].existence == Tombstoned ==>
      exists op :: op in delta && Names(op, before.objects[i].id)
  }

  lemma TouchedByOld(before: Snapshot, delta: Delta, after: Snapshot, id: ObjectId)
    requires Transition(before, delta, after) && id in IdSet(before.objects)
    ensures id in TouchedBy(before, after, delta).writtenObjects <==> exists op :: op in delta && Edits(op, id)
    ensures id in TouchedBy(before, after, delta).readObjects <==> exists op :: op in delta && Names(op, id)
  {
    hide WellFormed, Run, TouchedAll, Counted, NextPointer, Edits, Names;
    var st := Start(before);
    StartKeeps(before);
    RunKeeps(st, delta);
    RecountWell(Run(st, delta).value);
    ApplyKeeps(before, delta);
    TouchedAllOld(before, after, st, Prediction(map[], NextPointer(before.pointers)), delta, id);
  }

  // Every new fact is in a write set exactly when the delta edits, by id, every object that
  // was already a tombstone.
  lemma WritesFrame(before: Snapshot, delta: Delta, after: Snapshot)
    requires Transition(before, delta, after)
    ensures Facts(after) - Facts(before) <= Writes(Plan(before, after, Prediction(map[], NextPointer(before.pointers)),
            delta)) <==>
            TombstonesEdited(before, delta)
  {
    hide Facts, Plan, Transition, TouchedBy, Edits, NextPointer, Writes;
    WritesTouched(before, delta, after);
    forall i | 0 <= i < |before.objects|
      ensures before.objects[i].id in TouchedBy(before, after, delta).writtenObjects <==>
              exists op :: op in delta && Edits(op, before.objects[i].id)
    {
      TouchedByOld(before, delta, after, before.objects[i].id);
    }
  }

  // Every lost fact is in a read set exactly when the delta names, by id, every object that
  // was already a tombstone.
  lemma ReadsFrame(before: Snapshot, delta: Delta, after: Snapshot)
    requires Transition(before, delta, after)
    ensures Facts(before) - Facts(after) <= Reads(Plan(before, after, Prediction(map[], NextPointer(before.pointers)),
            delta)) <==>
            TombstonesNamed(before, delta)
  {
    hide Facts, Plan, Transition, TouchedBy, Names, NextPointer, Reads;
    ReadsTouched(before, delta, after);
    forall i | 0 <= i < |before.objects|
      ensures before.objects[i].id in TouchedBy(before, after, delta).readObjects <==>
              exists op :: op in delta && Names(op, before.objects[i].id)
    {
      TouchedByOld(before, delta, after, before.objects[i].id);
    }
  }

  // A world with one tombstone.
  function Graveyard(): Snapshot {
    Snapshot(1, "w", 0, [Object(ObjectId(0, 1), "a", 1, Tombstoned, [], 0, 0)], [], map[1 := "t"], map[])
  }

  // The delta that does nothing changes the tombstone's fact, which no set of the plan has.
  lemma UntouchedTombstone()
    ensures Transition(Graveyard(), [], Graveyard().(epoch := 1))
    ensures var before, after := Graveyard(), Graveyard().(epoch := 1);
            var plan := Plan(before, after, Prediction(map[], NextPointer(before.pointers)), []);
            !(Facts(after) - Facts(before) <= Writes(plan)) && !(Facts(before) - Facts(after) <= Reads(plan))
  {
    var before, after := Graveyard(), Graveyard().(epoch := 1);
    assert Transition(before, [], after) by {
      GraveyardStays();
    }
    hide Facts, Plan, Transition, Writes, Reads;
    WritesFrame(before, [], after);
    ReadsFrame(before, [], after);
    assert before.objects[0].existence == Tombstoned;
  }

  lemma GraveyardStays()
    ensures WellFormed(Graveyard()) && Apply(Graveyard(), []) == Ok(Graveyard().(epoch := 1))
  {
    var s := Graveyard();
    assert s.objects[0].id == ObjectId(0, 1);
    assert Recount(Start(s).snap).objects == s.objects;
  }
}
