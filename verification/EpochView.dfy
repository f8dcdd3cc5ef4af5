// Snapshots seen from an earlier epoch. Clamping replaces every later epoch by that one;
// the view also forgets the pointer counts, which the overlay recomputes at the end.
// The overlay cannot tell a state from its view, so epochs can be merged.

module EpochView {
  import opened Wrappers
  import opened Model
  import opened Attributes
  import opened Overlay
  import opened Invariants

  function ClampPointer(p: Pointer, k: nat): Pointer {
    p.(bornAt := Min(p.bornAt, k),
       expiresAt := if p.expiresAt.Some? then Some(Min(p.expiresAt.value, k)) else None)
  }

  function ClampPointers(pointers: seq<Pointer>, k: nat): seq<Pointer> {
    seq(|pointers|, i requires 0 <= i < |pointers| => ClampPointer(pointers[i], k))
  }

  // Replace every epoch above k by k.
  function Clamp(s: Snapshot, k: nat): Snapshot {
    s.(epoch := Min(s.epoch, k), pointers := ClampPointers(s.pointers, k))
  }

  function Bare(o: Object): Object {
    o.(incoming := 0, outgoing := 0)
  }

  function BareAll(objects: seq<Object>): seq<Object> {
    seq(|objects|, i requires 0 <= i < |objects| => Bare(objects[i]))
  }

  function View(s: Snapshot, k: nat): Snapshot {
    Clamp(s, k).(objects := BareAll(s.objects))
  }

  function ViewState(st: State, k: nat): State {
    State(View(st.snap, k), st.temps)
  }

  ghost function ViewResult(r: Result<State, OverlayError>, k: nat): Result<State, OverlayError> {
    match r
    case Err(e) => Err(e)
    case Ok(st) => Ok(ViewState(st, k))
  }

  ghost function ClampResult(r: Result<Snapshot, OverlayError>, k: nat): Result<Snapshot, OverlayError> {
    match r
    case Err(e) => Err(e)
    case Ok(s) => Ok(Clamp(s, k))
  }

  // No operation asks about facts, the one thing that reads epochs.
  predicate FactFree(delta: Delta) {
    forall i :: 0 <= i < |delta| ==> !delta[i].AssertFact?
  }

  ghost predicate Timely(s: Snapshot) {
    forall i :: 0 <= i < |s.pointers| ==> TimesOk(s.pointers[i], s.epoch)
  }

  lemma WellFormedTimely(s: Snapshot)
    requires WellFormed(s)
    ensures Timely(s)
  {
    forall i | 0 <= i < |s.pointers| ensures TimesOk(s.pointers[i], s.epoch) {
      assert PointerOk(s.pointers[i], IdSet(s.objects), s.relationNames, s.epoch);
    }
  }

  // ---- what a view preserves of the lookups

  lemma {:induction false} SameIndex(a: seq<Object>, b: seq<Object>)
    requires |a| == |b| && forall i :: 0 <= i < |a| ==> a[i].id == b[i].id
    ensures NextIndex(a) == NextIndex(b)
  {
    if a != [] {
      SameIndex(a[..|a| - 1], b[..|b| - 1]);
    }
  }

  lemma {:induction false} SamePointerIndex(a: seq<Pointer>, b: seq<Pointer>)
    requires |a| == |b| && forall i :: 0 <= i < |a| ==> a[i].id == b[i].id
    ensures NextPointer(a) == NextPointer(b)
  {
    if a != [] {
      SamePointerIndex(a[..|a| - 1], b[..|b| - 1]);
    }
  }

  lemma BareSame(objects: seq<Object>)
    ensures Ids(BareAll(objects)) == Ids(objects)
    ensures IdSet(BareAll(objects)) == IdSet(objects)
    ensures NameSet(BareAll(objects)) == NameSet(objects)
    ensures NextIndex(BareAll(objects)) == NextIndex(objects)
  {
    var bare := BareAll(objects);
    assert forall i :: 0 <= i < |objects| ==> bare[i].id == objects[i].id && bare[i].name == objects[i].name;
    ExtendsIds(objects, bare);
    ExtendsIds(bare, objects);
    SameIndex(objects, bare);
  }

  lemma ClampSame(pointers: seq<Pointer>, k: nat)
    ensures NextPointer(ClampPointers(pointers, k)) == NextPointer(pointers)
  {
    SamePointerIndex(pointers, ClampPointers(pointers, k));
  }

  lemma ClampFind(pointers: seq<Pointer>, k: nat, id: nat)
    ensures FindPointer(ClampPointers(pointers, k), id) == FindPointer(pointers, id)
  {
    var clamped := ClampPointers(pointers, k);
    assert forall i :: 0 <= i < |pointers| ==> clamped[i].id == pointers[i].id;
    var a, b := FindPointer(clamped, id), FindPointer(pointers, id);
    if a.Some? && b.Some? {
      assert !(a.value < b.value) && !(b.value < a.value);
    }
  }

  // ---- one step

  lemma EditBare(o: Object, op: Op)
    ensures EditObject(Bare(o), op) == Bare(EditObject(o, op))
  {
    hide SetAttribute, RemoveAttribute;
  }

  lemma BarePut(objects: seq<Object>, i: nat, o: Object)
    requires i < |objects|
    ensures BareAll(objects[i := o]) == BareAll(objects)[i := Bare(o)]
  {
    hide Bare;
  }

  lemma ViewObject(st: State, op: Op, k: nat)
    requires ObjectOp(op)
    ensures StepObject(ViewState(st, k), op) == ViewResult(StepObject(st, op), k)
  {
    hide EditObject, FindId, Bare, ClampPointers, HasSymbol, IdSet, Ids;
    var v := ViewState(st, k);
    BareSame(st.snap.objects);
    assert Resolve(v, op.target) == Resolve(st, op.target);
    if StepObject(st, op).Ok? {
      var i := FindObject(st.snap.objects, Resolve(st, op.target).value).value;
      EditBare(st.snap.objects[i], op);
      BarePut(st.snap.objects, i, EditObject(st.snap.objects[i], op));
    }
  }

  lemma ClampEdit(p: Pointer, op: Op, epoch: nat, k: nat)
    requires PointerOp(op) && k <= epoch
    ensures EditPointer(ClampPointer(p, k), op, k) == ClampPointer(EditPointer(p, op, epoch), k)
  {
  }

  lemma ClampPut(pointers: seq<Pointer>, i: nat, p: Pointer, k: nat)
    requires i < |pointers|
    ensures ClampPointers(pointers[i := p], k) == ClampPointers(pointers, k)[i := ClampPointer(p, k)]
  {
  }

  lemma ViewPointer(st: State, op: Op, k: nat)
    requires PointerOp(op) && k <= st.snap.epoch
    ensures StepPointer(ViewState(st, k), op) == ViewResult(StepPointer(st, op), k)
  {
    hide ClampPointer, EditPointer, FindPointer, BareAll;
    ClampFind(st.snap.pointers, k, op.pointer);
    if StepPointer(st, op).Ok? {
      var i := FindPointer(st.snap.pointers, op.pointer).value;
      ClampEdit(st.snap.pointers[i], op, st.snap.epoch, k);
      ClampPut(st.snap.pointers, i, EditPointer(st.snap.pointers[i], op, st.snap.epoch), k);
    }
  }

  lemma ViewCreate(st: State, op: Op, k: nat)
    requires op.CreateObject?
    ensures StepCreate(ViewState(st, k), op) == ViewResult(StepCreate(st, op), k)
  {
    BareSame(st.snap.objects);
    assert NewObject(ViewState(st, k), op) == NewObject(st, op) == Bare(NewObject(st, op));
    assert BareAll(st.snap.objects + [NewObject(st, op)]) == BareAll(st.snap.objects) + [NewObject(st, op)];
  }

  lemma ViewLink(st: State, op: Op, k: nat)
    requires op.CreatePointer? && k <= st.snap.epoch
    ensures StepLink(ViewState(st, k), op) == ViewResult(StepLink(st, op), k)
  {
    var v := ViewState(st, k);
    BareSame(st.snap.objects);
    ClampSame(st.snap.pointers, k);
    assert Resolve(v, op.from) == Resolve(st, op.from) && Resolve(v, op.to) == Resolve(st, op.to);
    if StepLink(st, op).Ok? {
      var p := NewPointer(st, op, Resolve(st, op.from).value, Resolve(st, op.to).value);
      assert NewPointer(v, op, Resolve(st, op.from).value, Resolve(st, op.to).value) == ClampPointer(p, k);
      assert ClampPointers(st.snap.pointers + [p], k) == ClampPointers(st.snap.pointers, k) + [ClampPointer(p, k)];
    }
  }

  lemma ViewIntern(st: State, op: Op, k: nat)
    requires op.InternType? || op.InternRelation?
    ensures Step(ViewState(st, k), op) == ViewResult(Step(st, op), k)
  {
  }

  // The overlay steps from a view to the view of where it steps.
  lemma ViewStep(st: State, op: Op, k: nat)
    requires k <= st.snap.epoch && !op.AssertFact?
    ensures Step(ViewState(st, k), op) == ViewResult(Step(st, op), k)
    ensures Step(st, op).Ok? ==> Step(st, op).value.snap.epoch == st.snap.epoch
  {
    if ObjectOp(op) {
      ViewObject(st, op, k);
    } else if PointerOp(op) {
      ViewPointer(st, op, k);
    } else if op.CreateObject? {
      ViewCreate(st, op, k);
    } else if op.CreatePointer? {
      ViewLink(st, op, k);
    } else if op.InternType? || op.InternRelation? {
      ViewIntern(st, op, k);
    }
  }

  lemma {:induction false} ViewRun(st: State, ops: Delta, k: nat)
    requires k <= st.snap.epoch && FactFree(ops)
    ensures Run(ViewState(st, k), ops) == ViewResult(Run(st, ops), k)
    ensures Run(st, ops).Ok? ==> Run(st, ops).value.snap.epoch == st.snap.epoch
    decreases |ops|
  {
    if ops != [] {
      ViewStep(st, ops[0], k);
      if Step(st, ops[0]).Ok? {
        ViewRun(Step(st, ops[0]).value, ops[1..], k);
      }
    }
  }

  // ---- the end of a run: counts agree because a timely pointer is active iff unexpired

  lemma ActiveClamped(p: Pointer, epoch: nat, k: nat)
    requires TimesOk(p, epoch) && k <= epoch
    ensures ActiveAt(ClampPointer(p, k), k) <==> ActiveAt(p, epoch)
  {
  }

  lemma {:induction false} CountsClamped(pointers: seq<Pointer>, epoch: nat, k: nat, id: ObjectId)
    requires k <= epoch && forall i :: 0 <= i < |pointers| ==> TimesOk(pointers[i], epoch)
    ensures Outgoing(ClampPointers(pointers, k), k, id) == Outgoing(pointers, epoch, id)
    ensures Incoming(ClampPointers(pointers, k), k, id) == Incoming(pointers, epoch, id)
  {
    if pointers != [] {
      var last := |pointers| - 1;
      assert ClampPointers(pointers, k)[..last] == ClampPointers(pointers[..last], k);
      CountsClamped(pointers[..last], epoch, k, id);
      ActiveClamped(pointers[last], epoch, k);
    }
  }

  lemma RecountView(s: Snapshot, k: nat)
    requires Timely(s) && k <= s.epoch
    ensures Recount(View(s, k)) == Clamp(Recount(s), k)
  {
    var v := View(s, k);
    BareSame(s.objects);
    forall i | 0 <= i < |s.objects|
      ensures Counted(v.objects, v.pointers, k, i) == Counted(s.objects, s.pointers, s.epoch, i)
    {
      CountsClamped(s.pointers, s.epoch, k, s.objects[i].id);
    }
    assert Recount(v).objects == Recount(s).objects;
  }

  lemma ClampIdle(s: Snapshot)
    requires Timely(s)
    ensures Clamp(s, s.epoch) == s
  {
    forall i | 0 <= i < |s.pointers| ensures ClampPointer(s.pointers[i], s.epoch) == s.pointers[i] {
    }
    assert ClampPointers(s.pointers, s.epoch) == s.pointers;
  }

  // Clamping before a fact-free delta makes no difference that clamping after it
  // would not make anyway; both are accepted or both refused, for the same reason.
  lemma ClampApply(s: Snapshot, delta: Delta, k: nat)
    requires WellFormed(s) && k <= s.epoch && FactFree(delta)
    ensures ClampResult(Apply(Clamp(s, k), delta), k) == ClampResult(Apply(s, delta), k)
  {
    var c := Clamp(s, k);
    assert ViewState(Start(s), k) == ViewState(Start(c), k) by {
      assert ClampPointers(ClampPointers(s.pointers, k), k) == ClampPointers(s.pointers, k);
    }
    ViewRun(Start(s), delta, k);
    ViewRun(Start(c), delta, k);
    var a, b := Run(Start(s), delta), Run(Start(c), delta);
    if a.Ok? {
      StartKeeps(s);
      RunKeeps(Start(s), delta);
      WellFormedTimely(a.value.snap);
      RecountView(a.value.snap, k);
      ClampKeeps(s, k);
      StartKeeps(c);
      RunKeeps(Start(c), delta);
      WellFormedTimely(b.value.snap);
      RecountView(b.value.snap, k);
    }
  }

  lemma ClampKeeps(s: Snapshot, k: nat)
    requires WellFormed(s)
    ensures WellFormed(Clamp(s, k))
  {
    var c := Clamp(s, k);
    forall i | 0 <= i < |c.pointers| ensures PointerOk(c.pointers[i], IdSet(c.objects), c.relationNames, c.epoch) {
      assert PointerOk(s.pointers[i], IdSet(s.objects), s.relationNames, s.epoch);
    }
  }
}
