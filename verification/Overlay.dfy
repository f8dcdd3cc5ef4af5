// SnapshotOverlay::apply: the reference interpreter of a delta over a snapshot.

module Overlay {
  import opened Wrappers
  import opened Model
  import opened Attributes

  datatype OverlayError =
    | DuplicateTempObject
    | DuplicateObjectName
    | InvalidTempObject
    | UpdateMissingObject
    | PointerMissingObject
    | InvalidPointerRemove
    | ConflictingObjectUpdate
    | InvalidPointerRelation
    | InvalidSymbol

  // ---- lookups

  function Ids(objects: seq<Object>): seq<ObjectId> {
    seq(|objects|, i requires 0 <= i < |objects| => objects[i].id)
  }

  function FindId(ids: seq<ObjectId>, id: ObjectId): (r: Option<nat>)
    ensures r.Some? ==> r.value < |ids| && ids[r.value] == id && forall j :: 0 <= j < r.value ==> ids[j] != id
    ensures r.None? <==> id !in ids
  {
    if ids == [] then None
    else if ids[0] == id then Some(0)
    else match FindId(ids[1..], id)
      case None => None
      case Some(i) => Some(i + 1)
  }

  // The first object with that id.
  function FindObject(objects: seq<Object>, id: ObjectId): (r: Option<nat>)
    ensures r.Some? ==> r.value < |objects| && objects[r.value].id == id
    ensures r.Some? ==> forall j :: 0 <= j < r.value ==> objects[j].id != id
    ensures r.None? <==> forall j :: 0 <= j < |objects| ==> objects[j].id != id
  {
    var ids := Ids(objects);
    assert forall j :: 0 <= j < |objects| ==> ids[j] == objects[j].id;
    FindId(ids, id)
  }

  function IdSet(objects: seq<Object>): set<ObjectId> {
    set i | 0 <= i < |objects| :: objects[i].id
  }

  predicate Contains(s: Snapshot, id: ObjectId) {
    id in IdSet(s.objects)
  }

  function FindPointer(pointers: seq<Pointer>, id: nat): (r: Option<nat>)
    ensures r.Some? ==> r.value < |pointers| && pointers[r.value].id == id
    ensures r.Some? ==> forall j :: 0 <= j < r.value ==> pointers[j].id != id
    ensures r.None? <==> forall j :: 0 <= j < |pointers| ==> pointers[j].id != id
  {
    if pointers == [] then None
    else if pointers[0].id == id then Some(0)
    else match FindPointer(pointers[1..], id)
      case None => None
      case Some(i) => Some(i + 1)
  }

  function NameSet(objects: seq<Object>): set<string> {
    set i | 0 <= i < |objects| :: objects[i].name
  }

  // One above the largest object index in use.
  function NextIndex(objects: seq<Object>): nat {
    if objects == [] then 0
    else Max(NextIndex(objects[..|objects| - 1]), objects[|objects| - 1].id.index + 1)
  }

  // One above the largest pointer id in use, at least 1.
  function NextPointer(pointers: seq<Pointer>): nat {
    if pointers == [] then 1
    else Max(NextPointer(pointers[..|pointers| - 1]), pointers[|pointers| - 1].id + 1)
  }

  predicate HasSymbol(names: map<nat, string>, symbol: nat) {
    symbol != 0 && symbol in names
  }

  // ---- facts: what a snapshot says, as a set (derive_facts)

  function ObjectFactOf(s: Snapshot, o: Object): Fact {
    ObjectFact(if o.existence == Tombstoned then Some(s.epoch) else None, o.id, o.name, o.typ, o.existence)
  }

  function PointerFactOf(p: Pointer): Fact {
    PointerFact(p.id, p.from, p.to, p.relation, p.role, p.weight, p.bornAt, p.expiresAt, p.lawDomain)
  }

  function ObjectFacts(s: Snapshot, o: Object): set<Fact> {
    {ObjectFactOf(s, o)} +
    set a | a in o.attributes :: AttributeFact(ObjectSubject(o.id), a.key, a.value, 0, None)
  }

  function PointerFacts(p: Pointer): set<Fact> {
    {PointerFactOf(p)} +
    set a | a in p.attributes :: AttributeFact(PointerSubject(p.id), a.key, a.value, p.bornAt, p.expiresAt)
  }

  function Facts(s: Snapshot): set<Fact> {
    (set i, f | 0 <= i < |s.objects| && f in ObjectFacts(s, s.objects[i]) :: f) +
    (set i, f | 0 <= i < |s.pointers| && f in PointerFacts(s.pointers[i]) :: f)
  }

  // ---- the transition of one operation

  // The snapshot under construction and the objects its temp ids stand for.
  datatype State = State(snap: Snapshot, temps: map<nat, ObjectId>)

  function Resolve(st: State, ref: Ref): Option<ObjectId> {
    match ref
    case ById(id) => if Contains(st.snap, id) then Some(id) else None
    case ByTemp(t) => if t != 0 && t in st.temps then Some(st.temps[t]) else None
  }

  // intern: keep a known name, otherwise bind it at the wanted symbol or the next free one.
  ghost function InternName(names: map<nat, string>, name: string, symbol: nat): Result<map<nat, string>,
                            OverlayError> {
    if name == "" then Err(InvalidSymbol)
    else if name in names.Values then Ok(names)
    else
      var at := if symbol != 0 then symbol else NextSymbol(names);
      if at in names && names[at] != name then Err(InvalidSymbol) else Ok(names[at := name])
  }

  function PutObject(st: State, i: nat, o: Object): State
    requires i < |st.snap.objects|
  {
    st.(snap := st.snap.(objects := st.snap.objects[i := o]))
  }

  function PutPointer(st: State, i: nat, p: Pointer): State
    requires i < |st.snap.pointers|
  {
    st.(snap := st.snap.(pointers := st.snap.pointers[i := p]))
  }

  // The effect of an object operation on its object.
  function EditObject(o: Object, op: Op): Object {
    match op
    case SetObjectType(_, typ) => o.(typ := typ)
    case SetObjectExistence(_, existence) => o.(existence := existence)
    case SetObjectAttribute(_, a) => o.(attributes := SetAttribute(o.attributes, a))
    case RemoveObjectAttribute(_, key) => o.(attributes := RemoveAttribute(o.attributes, key))
    case _ => o
  }

  // The effect of a pointer operation on its pointer.
  function EditPointer(p: Pointer, op: Op, epoch: nat): Pointer {
    match op
    case ExpirePointer(_) => p.(expiresAt := Some(epoch))
    case SetPointerWeight(_, w) => p.(weight := w)
    case SetPointerAttribute(_, a) => p.(attributes := SetAttribute(p.attributes, a))
    case RemovePointerAttribute(_, key) => p.(attributes := RemoveAttribute(p.attributes, key))
    case _ => p
  }

  predicate ObjectOp(op: Op) {
    op.SetObjectType? || op.SetObjectExistence? || op.SetObjectAttribute? || op.RemoveObjectAttribute? ||
      op.AssertObject?
  }

  predicate PointerOp(op: Op) {
    op.ExpirePointer? || op.SetPointerWeight? || op.SetPointerAttribute? || op.RemovePointerAttribute? ||
      op.AssertPointer?
  }

  function StepObject(st: State, op: Op): Result<State, OverlayError>
    requires ObjectOp(op)
  {
    if op.SetObjectType? && !HasSymbol(st.snap.typeNames, op.typ) then Err(InvalidTempObject)
    else match Resolve(st, op.target)
      case None => Err(UpdateMissingObject)
      case Some(id) =>
        match FindObject(st.snap.objects, id)
        case None => Err(UpdateMissingObject)
        case Some(i) => Ok(PutObject(st, i, EditObject(st.snap.objects[i], op)))
  }

  function StepPointer(st: State, op: Op): Result<State, OverlayError>
    requires PointerOp(op)
  {
    match FindPointer(st.snap.pointers, op.pointer)
    case None => Err(InvalidPointerRemove)
    case Some(i) => Ok(PutPointer(st, i, EditPointer(st.snap.pointers[i], op, st.snap.epoch)))
  }

  function NewObject(st: State, op: Op): Object
    requires op.CreateObject?
  {
    Object(ObjectId(NextIndex(st.snap.objects), 1), op.name, op.typ, op.existence, Sorted(op.attributes), 0, 0)
  }

  function StepCreate(st: State, op: Op): Result<State, OverlayError>
    requires op.CreateObject?
  {
    if op.temp == 0 then Err(InvalidTempObject)
    else if op.temp in st.temps then Err(DuplicateTempObject)
    else if op.name in NameSet(st.snap.objects) then Err(DuplicateObjectName)
    else if !HasSymbol(st.snap.typeNames, op.typ) then Err(InvalidTempObject)
    else
      var o := NewObject(st, op);
      Ok(State(st.snap.(objects := st.snap.objects + [o]), st.temps[op.temp := o.id]))
  }

  function NewPointer(st: State, op: Op, from: ObjectId, to: ObjectId): Pointer
    requires op.CreatePointer?
  {
    Pointer(NextPointer(st.snap.pointers), from, to, op.relation, op.role, op.weight, st.snap.epoch, None,
            if op.lawDomain == "" then "core" else op.lawDomain, Sorted(op.attributes))
  }

  function StepLink(st: State, op: Op): Result<State, OverlayError>
    requires op.CreatePointer?
  {
    if !HasSymbol(st.snap.relationNames, op.relation) then Err(InvalidPointerRelation)
    else
      var from, to := Resolve(st, op.from), Resolve(st, op.to);
      if from.None? || to.None? then Err(PointerMissingObject)
      else Ok(st.(snap := st.snap.(pointers := st.snap.pointers + [NewPointer(st, op, from.value, to.value)])))
  }

  ghost function Step(st: State, op: Op): Result<State, OverlayError> {
    if ObjectOp(op) then StepObject(st, op)
    else if PointerOp(op) then StepPointer(st, op)
    else match op
    case InternType(name, symbol) =>
      (match InternName(st.snap.typeNames, name, symbol)
       case Err(e) => Err(e)
       case Ok(names) => Ok(st.(snap := st.snap.(typeNames := names))))
    case InternRelation(name, symbol) =>
      (match InternName(st.snap.relationNames, name, symbol)
       case Err(e) => Err(e)
       case Ok(names) => Ok(st.(snap := st.snap.(relationNames := names))))
    case CreateObject(_, _, _, _, _) => StepCreate(st, op)
    case CreatePointer(_, _, _, _, _, _, _) => StepLink(st, op)
    case AssertFact(f) => if f in Facts(st.snap) then Ok(st) else Err(InvalidSymbol)
    case _ => Ok(st)
  }

  ghost function Run(st: State, ops: Delta): Result<State, OverlayError>
    decreases |ops|
  {
    if ops == [] then Ok(st)
    else match Step(st, ops[0])
      case Err(e) => Err(e)
      case Ok(next) => Run(next, ops[1..])
  }

  // ---- the counts of active pointers at each object (recompute_counts)

  function Outgoing(pointers: seq<Pointer>, epoch: nat, id: ObjectId): nat {
    if pointers == [] then 0
    else
      var p := pointers[|pointers| - 1];
      Outgoing(pointers[..|pointers| - 1], epoch, id) + (if ActiveAt(p, epoch) && p.from == id then 1 else 0)
  }

  function Incoming(pointers: seq<Pointer>, epoch: nat, id: ObjectId): nat {
    if pointers == [] then 0
    else
      var p := pointers[|pointers| - 1];
      Incoming(pointers[..|pointers| - 1], epoch, id) + (if ActiveAt(p, epoch) && p.to == id then 1 else 0)
  }

  // Only the first object of an id is counted for it.
  function Counted(objects: seq<Object>, pointers: seq<Pointer>, epoch: nat, i: nat): Object
    requires i < |objects|
  {
    var o := objects[i];
    if FindObject(objects, o.id) == Some(i)
    then o.(incoming := Incoming(pointers, epoch, o.id), outgoing := Outgoing(pointers, epoch, o.id))
    else o.(incoming := 0, outgoing := 0)
  }

  function Recount(s: Snapshot): Snapshot {
    s.(objects := seq(|s.objects|, i requires 0 <= i < |s.objects| => Counted(s.objects, s.pointers, s.epoch, i)))
  }

  // ---- the whole transition

  function Start(base: Snapshot): State {
    State(base.(epoch := base.epoch + 1), map[])
  }

  ghost function Finish(r: Result<State, OverlayError>): Result<Snapshot, OverlayError> {
    match r
    case Err(e) => Err(e)
    case Ok(st) => Ok(Recount(st.snap))
  }

  ghost function Apply(base: Snapshot, delta: Delta): Result<Snapshot, OverlayError> {
    Finish(Run(Start(base), delta))
  }

  lemma RunAppend(st: State, a: Delta, b: Delta)
    ensures Run(st, a + b) ==
            match Run(st, a)
            case Err(e) => Err(e)
            case Ok(mid) => Run(mid, b)
    decreases |a|
  {
    if a == [] {
      assert a + b == b;
    } else {
      assert (a + b)[1..] == a[1..] + b;
      if Step(st, a[0]).Ok? {
        RunAppend(Step(st, a[0]).value, a[1..], b);
      }
    }
  }
}
