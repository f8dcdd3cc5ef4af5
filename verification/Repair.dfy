// The repair search: breadth first over a basis of repair operators, to the nearest
// snapshot the laws accept, carrying along one fused delta that gets there.

module Repair {
  import opened Wrappers
  import opened Model
  import opened Overlay
  import opened OverlayApply
  import opened Invariants
  import opened SequentialMerge
  import opened EpochView
  import opened MergeProof
  import opened Morphisms
  import opened MorphismProof
  import opened CategoryProof
  import opened Laws

  datatype RepairOperator = RepairOperator(name: string, delta: Delta, oid: Option<ObjectId>, pointer: nat,
    attribute: string)

  type Basis = seq<RepairOperator>

  // ---- the canonical basis

  const SIGN: nat := 0x8000_0000_0000_0000
  const INFINITY: nat := 0x7FF0_0000_0000_0000

  // Not finite, or finite and greater than one.
  predicate AboveBound(w: Double) {
    w % SIGN >= INFINITY || (w < SIGN && w > WEIGHT_ONE)
  }

  function AddOperator(basis: Basis, op: RepairOperator, limit: nat): Basis {
    if |basis| >= limit || op in basis then basis else basis + [op]
  }

  function Named(attributes: seq<Attribute>, key: string): Option<Attribute> {
    if attributes == [] then None
    else if attributes[0].key == key then Some(attributes[0])
    else Named(attributes[1..], key)
  }

  // The operators that are each one harmless operation on what the snapshot holds.
  predicate Repairs(op: RepairOperator, s: Snapshot) {
    |op.delta| == 1 &&
    match op.delta[0]
    case ExpirePointer(id) => FindPointer(s.pointers, id).Some?
    case SetPointerWeight(id, _) => FindPointer(s.pointers, id).Some?
    case SetPointerAttribute(id, _) => FindPointer(s.pointers, id).Some?
    case RemovePointerAttribute(id, _) => FindPointer(s.pointers, id).Some?
    case SetObjectAttribute(ref, _) => ref.ById? && Contains(s, ref.id)
    case RemoveObjectAttribute(ref, _) => ref.ById? && Contains(s, ref.id)
    case _ => false
  }

  predicate BasisOk(basis: Basis, s: Snapshot) {
    forall i :: 0 <= i < |basis| ==> Repairs(basis[i], s)
  }

  // ---- the candidates, in the order they are considered

  function ExpireCandidate(p: Pointer): RepairOperator {
    RepairOperator("expire_pointer", [ExpirePointer(p.id)], None, p.id, "")
  }

  function LowerCandidate(p: Pointer): RepairOperator {
    RepairOperator("lower_weight_to_bound", [SetPointerWeight(p.id, WEIGHT_ONE)], None, p.id, "weight")
  }

  function PointerRemovals(id: nat, attributes: seq<Attribute>): seq<RepairOperator> {
    seq(|attributes|, i requires 0 <= i < |attributes| =>
      RepairOperator("remove_attribute", [RemovePointerAttribute(id, attributes[i].key)], None, id, attributes[i].key))
  }

  function ObjectRemovals(id: ObjectId, attributes: seq<Attribute>): seq<RepairOperator> {
    seq(|attributes|, i requires 0 <= i < |attributes| =>
      RepairOperator("remove_attribute", [RemoveObjectAttribute(ById(id), attributes[i].key)], Some(id), 0,
        attributes[i].key))
  }

  // The attributes whose value was different before, as they were.
  function Changed(attributes: seq<Attribute>, previous: seq<Attribute>): seq<Attribute> {
    if attributes == [] then []
    else
      var last := |attributes| - 1;
      var was := Named(previous, attributes[last].key);
      Changed(attributes[..last], previous) +
      (if was.Some? && was.value.value != attributes[last].value then [was.value] else [])
  }

  function PointerRestores(id: nat, olds: seq<Attribute>): seq<RepairOperator> {
    seq(|olds|, i requires 0 <= i < |olds| =>
      RepairOperator("restore_previous_attribute", [SetPointerAttribute(id, olds[i])], None, id, olds[i].key))
  }

  function ObjectRestores(id: ObjectId, olds: seq<Attribute>): seq<RepairOperator> {
    seq(|olds|, i requires 0 <= i < |olds| =>
      RepairOperator("restore_previous_attribute", [SetObjectAttribute(ById(id), olds[i])], Some(id), 0, olds[i].key))
  }

  function PointerCandidates(id: nat, before: Snapshot, current: Snapshot): seq<RepairOperator> {
    match FindPointer(current.pointers, id)
    case None => []
    case Some(i) =>
      var p, previous := current.pointers[i], FindPointer(before.pointers, id);
      (if ActiveAt(p, current.epoch) then [ExpireCandidate(p)] else []) +
      (if AboveBound(p.weight) then [LowerCandidate(p)] else []) +
      PointerRemovals(id, p.attributes) +
      (if previous.Some? then PointerRestores(id, Changed(p.attributes, before.pointers[previous.value].attributes))
        else [])
  }

  function ObjectCandidates(id: ObjectId, before: Snapshot, current: Snapshot): seq<RepairOperator> {
    match FindObject(current.objects, id)
    case None => []
    case Some(i) =>
      var o, previous := current.objects[i], FindObject(before.objects, id);
      ObjectRemovals(id, o.attributes) +
      (if previous.Some? then ObjectRestores(id, Changed(o.attributes, before.objects[previous.value].attributes))
        else [])
  }

  function AllPointerCandidates(ids: seq<nat>, before: Snapshot, current: Snapshot): seq<RepairOperator> {
    if ids == [] then []
    else AllPointerCandidates(ids[..|ids| - 1], before, current) + PointerCandidates(ids[|ids| - 1], before, current)
  }

  function AllObjectCandidates(ids: seq<ObjectId>, before: Snapshot, current: Snapshot): seq<RepairOperator> {
    if ids == [] then []
    else AllObjectCandidates(ids[..|ids| - 1], before, current) + ObjectCandidates(ids[|ids| - 1], before, current)
  }

  // The candidates without repetitions, as many as fit.
  function Collect(basis: Basis, candidates: seq<RepairOperator>, limit: nat): Basis {
    if candidates == [] then basis
    else AddOperator(Collect(basis, candidates[..|candidates| - 1], limit), candidates[|candidates| - 1], limit)
  }

  method AddAll(basis: Basis, candidates: seq<RepairOperator>, limit: nat) returns (out: Basis)
    ensures out == Collect(basis, candidates, limit)
  {
    out := basis;
    for k := 0 to |candidates|
      invariant out == Collect(basis, candidates[..k], limit)
    {
      assert candidates[..k + 1][..k] == candidates[..k];
      out := AddOperator(out, candidates[k], limit);
    }
    assert candidates[..|candidates|] == candidates;
  }

  lemma {:induction false} CollectAppend(basis: Basis, a: seq<RepairOperator>, b: seq<RepairOperator>, limit: nat)
    ensures Collect(basis, a + b, limit) == Collect(Collect(basis, a, limit), b, limit)
  {
    if b == [] {
      assert a + b == a;
    } else {
      assert (a + b)[..|a| + |b| - 1] == a + b[..|b| - 1];
      CollectAppend(basis, a, b[..|b| - 1], limit);
    }
  }

  // The focus lists come from the recorded violations, every active pointer standing in
  // for an empty pointer list.
  method CanonicalBasis(focusPointers: seq<nat>, focusObjects: seq<ObjectId>, before: Snapshot, current: Snapshot,
                        limit: nat)
    returns (basis: Basis)
    ensures basis == Collect([], AllPointerCandidates(focusPointers, before, current) +
                                 AllObjectCandidates(focusObjects, before, current), limit)
  {
    hide PointerCandidates, ObjectCandidates, AddOperator;
    ghost var pointerOps := AllPointerCandidates(focusPointers, before, current);
    basis := [];
    for k := 0 to |focusPointers|
      invariant basis == Collect([], AllPointerCandidates(focusPointers[..k], before, current), limit)
    {
      assert focusPointers[..k + 1][..k] == focusPointers[..k];
      var candidates := PointerCandidates(focusPointers[k], before, current);
      CollectAppend([], AllPointerCandidates(focusPointers[..k], before, current), candidates, limit);
      basis := AddAll(basis, candidates, limit);
    }
    assert focusPointers[..|focusPointers|] == focusPointers;
    assert pointerOps + [] == pointerOps;
    for k := 0 to |focusObjects|
      invariant basis == Collect([], pointerOps + AllObjectCandidates(focusObjects[..k], before, current), limit)
    {
      assert focusObjects[..k + 1][..k] == focusObjects[..k];
      var candidates := ObjectCandidates(focusObjects[k], before, current);
      var soFar := AllObjectCandidates(focusObjects[..k], before, current);
      CollectAppend([], pointerOps + soFar, candidates, limit);
      assert pointerOps + (soFar + candidates) == pointerOps + soFar + candidates;
      basis := AddAll(basis, candidates, limit);
    }
    assert focusObjects[..|focusObjects|] == focusObjects;
  }

  // Whatever the focus, every operator of the canonical basis is one operation on
  // something the snapshot holds, and no operator is listed twice.
  lemma CanonicalBasisOk(focusPointers: seq<nat>, focusObjects: seq<ObjectId>, before: Snapshot, current: Snapshot,
                         limit: nat)
    ensures var basis := Collect([], AllPointerCandidates(focusPointers, before, current) +
                                     AllObjectCandidates(focusObjects, before, current), limit);
            BasisOk(basis, current) && |basis| <= limit && forall i, j :: 0 <= i < j < |basis| ==> basis[i] != basis[j]
  {
    PointersRepair(focusPointers, before, current);
    ObjectsRepair(focusObjects, before, current);
    CollectKeeps(current, [], AllPointerCandidates(focusPointers, before, current) +
                              AllObjectCandidates(focusObjects, before, current), limit);
  }

  lemma {:induction false} CollectKeeps(s: Snapshot, basis: Basis, candidates: seq<RepairOperator>, limit: nat)
    requires BasisOk(basis, s) && BasisOk(candidates, s) && |basis| <= limit
    requires forall i, j :: 0 <= i < j < |basis| ==> basis[i] != basis[j]
    ensures var out := Collect(basis, candidates, limit);
            BasisOk(out, s) && |out| <= limit && forall i, j :: 0 <= i < j < |out| ==> out[i] != out[j]
  {
    if candidates != [] {
      CollectKeeps(s, basis, candidates[..|candidates| - 1], limit);
    }
  }

  lemma JoinOk(a: Basis, b: Basis, s: Snapshot)
    requires BasisOk(a, s) && BasisOk(b, s)
    ensures BasisOk(a + b, s)
  {
  }

  lemma PointerListsOk(s: Snapshot, p: Pointer, olds: seq<Attribute>)
    requires FindPointer(s.pointers, p.id).Some?
    ensures BasisOk([ExpireCandidate(p)], s) && BasisOk([LowerCandidate(p)], s) && BasisOk([], s)
    ensures BasisOk(PointerRemovals(p.id, p.attributes), s) && BasisOk(PointerRestores(p.id, olds), s)
  {
  }

  lemma ObjectListsOk(s: Snapshot, id: ObjectId, attributes: seq<Attribute>, olds: seq<Attribute>)
    requires Contains(s, id)
    ensures BasisOk(ObjectRemovals(id, attributes), s) && BasisOk(ObjectRestores(id, olds), s)
  {
  }

  lemma {:induction false} PointersRepair(ids: seq<nat>, before: Snapshot, current: Snapshot)
    ensures BasisOk(AllPointerCandidates(ids, before, current), current)
  {
    hide BasisOk, Repairs;
    if ids == [] {
      NothingOk(current);
    } else {
      var id, rest := ids[|ids| - 1], ids[..|ids| - 1];
      PointersRepair(rest, before, current);
      PointerCandidatesOk(id, before, current);
      JoinOk(AllPointerCandidates(rest, before, current), PointerCandidates(id, before, current), current);
    }
  }

  lemma NothingOk(s: Snapshot)
    ensures BasisOk([], s)
  {
  }

  lemma PointerCandidatesOk(id: nat, before: Snapshot, current: Snapshot)
    ensures BasisOk(PointerCandidates(id, before, current), current)
  {
    hide BasisOk, Repairs, FindPointer, Changed;
    NothingOk(current);
    if FindPointer(current.pointers, id).Some? {
      var p, previous := current.pointers[FindPointer(current.pointers, id).value], FindPointer(before.pointers, id);
      var olds := if previous.Some? then Changed(p.attributes, before.pointers[previous.value].attributes) else [];
      PointerListsOk(current, p, olds);
      var a := if ActiveAt(p, current.epoch) then [ExpireCandidate(p)] else [];
      var b := if AboveBound(p.weight) then [LowerCandidate(p)] else [];
      var c := PointerRemovals(id, p.attributes);
      var d := if previous.Some? then PointerRestores(id, olds) else [];
      JoinOk(a, b, current);
      JoinOk(a + b, c, current);
      JoinOk(a + b + c, d, current);
    }
  }

  lemma {:induction false} ObjectsRepair(ids: seq<ObjectId>, before: Snapshot, current: Snapshot)
    ensures BasisOk(AllObjectCandidates(ids, before, current), current)
  {
    hide BasisOk, Repairs;
    if ids == [] {
      NothingOk(current);
    } else {
      var id, rest := ids[|ids| - 1], ids[..|ids| - 1];
      ObjectsRepair(rest, before, current);
      ObjectCandidatesOk(id, before, current);
      JoinOk(AllObjectCandidates(rest, before, current), ObjectCandidates(id, before, current), current);
    }
  }

  lemma ObjectCandidatesOk(id: ObjectId, before: Snapshot, current: Snapshot)
    ensures BasisOk(ObjectCandidates(id, before, current), current)
  {
    hide BasisOk, Repairs, Changed;
    NothingOk(current);
    if FindObject(current.objects, id).Some? {
      var o, previous := current.objects[FindObject(current.objects, id).value], FindObject(before.objects, id);
      var olds := if previous.Some? then Changed(o.attributes, before.objects[previous.value].attributes) else [];
      ObjectListsOk(current, id, o.attributes, olds);
      JoinOk(ObjectRemovals(id, o.attributes), if previous.Some? then ObjectRestores(id, olds) else [], current);
    }
  }

  // ---- which operators are offered

  // The parts of a double: sign, exponent and fraction.
  const FRACTION: nat := 0x10_0000_0000_0000

  function SignOf(w: Double): nat {
    w / SIGN % 2
  }

  function ExponentOf(w: Double): nat {
    w / FRACTION % 2048
  }

  function FractionOf(w: Double): nat {
    w % FRACTION
  }

  // A weight is above the bound exactly when it is not a finite number, or is positive and
  // greater than one: beyond the exponent of one, or at it with a fraction.
  lemma AboveBoundExact(w: Double)
    requires w < 2 * SIGN
    ensures AboveBound(w) <==>
            ExponentOf(w) == 2047 ||
            (SignOf(w) == 0 && (ExponentOf(w) > 1023 || (ExponentOf(w) == 1023 && FractionOf(w) > 0)))
  {
    assert SIGN == 2048 * FRACTION && INFINITY == 2047 * FRACTION && WEIGHT_ONE == 1023 * FRACTION;
    var top := w / FRACTION;
    assert w == top * FRACTION + FractionOf(w);
    if w < SIGN {
      assert w % SIGN == w && top < 2048;
    } else {
      assert w % SIGN == w - SIGN && 2048 <= top < 4096;
    }
  }

  // The attribute is the first of its key.
  ghost predicate FirstOfKey(attributes: seq<Attribute>, a: Attribute) {
    exists i :: 0 <= i < |attributes| && attributes[i] == a && forall j :: 0 <= j < i ==> attributes[j].key != a.key
  }

  // The value now differs from this one, which the key had first before.
  ghost predicate Restorable(now: seq<Attribute>, previous: seq<Attribute>, old': Attribute) {
    FirstOfKey(previous, old') && exists i :: 0 <= i < |now| && now[i].key == old'.key && now[i].value != old'.value
  }

  ghost predicate Carries(attributes: seq<Attribute>, key: string) {
    exists i :: 0 <= i < |attributes| && attributes[i].key == key
  }

  ghost predicate PointerRemoval(op: RepairOperator, id: nat, attributes: seq<Attribute>) {
    && Carries(attributes, op.attribute)
    && op == RepairOperator("remove_attribute", [RemovePointerAttribute(id, op.attribute)], None, id, op.attribute)
  }

  ghost predicate ObjectRemoval(op: RepairOperator, id: ObjectId, attributes: seq<Attribute>) {
    && Carries(attributes, op.attribute)
    && op == RepairOperator("remove_attribute", [RemoveObjectAttribute(ById(id), op.attribute)], Some(id), 0,
                            op.attribute)
  }

  ghost predicate PointerRestore(op: RepairOperator, id: nat, a: Attribute) {
    op == RepairOperator("restore_previous_attribute", [SetPointerAttribute(id, a)], None, id, a.key)
  }

  ghost predicate ObjectRestore(op: RepairOperator, id: ObjectId, a: Attribute) {
    op == RepairOperator("restore_previous_attribute", [SetObjectAttribute(ById(id), a)], Some(id), 0, a.key)
  }

  // One of the repairs of a pointer in focus.
  ghost predicate PointerOffer(op: RepairOperator, id: nat, before: Snapshot, current: Snapshot) {
    FindPointer(current.pointers, id).Some? &&
    var p := current.pointers[FindPointer(current.pointers, id).value];
    var previous := FindPointer(before.pointers, id);
    || (ActiveAt(p, current.epoch) && op == RepairOperator("expire_pointer", [ExpirePointer(id)], None, id, ""))
    || (AboveBound(p.weight) &&
        op == RepairOperator("lower_weight_to_bound", [SetPointerWeight(id, WEIGHT_ONE)], None, id, "weight"))
    || PointerRemoval(op, id, p.attributes)
    || (previous.Some? && (exists a ::
          PointerRestore(op, id, a) && Restorable(p.attributes, before.pointers[previous.value].attributes, a)))
  }

  // One of the repairs of an object in focus.
  ghost predicate ObjectOffer(op: RepairOperator, id: ObjectId, before: Snapshot, current: Snapshot) {
    FindObject(current.objects, id).Some? &&
    var o := current.objects[FindObject(current.objects, id).value];
    var previous := FindObject(before.objects, id);
    || ObjectRemoval(op, id, o.attributes)
    || (previous.Some? && (exists a ::
          ObjectRestore(op, id, a) && Restorable(o.attributes, before.objects[previous.value].attributes, a)))
  }

  lemma {:induction false} NamedExact(attributes: seq<Attribute>, key: string)
    ensures match Named(attributes, key)
            case None => !Carries(attributes, key)
            case Some(a) => a.key == key && FirstOfKey(attributes, a)
  {
    if attributes != [] && attributes[0].key != key {
      var rest := attributes[1..];
      NamedExact(rest, key);
      assert forall i :: 0 <= i < |rest| ==> attributes[i + 1] == rest[i];
      if Named(rest, key).Some? {
        var a := Named(rest, key).value;
        var i :| 0 <= i < |rest| && rest[i] == a && forall j :: 0 <= j < i ==> rest[j].key != a.key;
        assert attributes[i + 1] == a;
      }
    }
  }

  lemma {:induction false} ChangedExact(attributes: seq<Attribute>, previous: seq<Attribute>, old': Attribute)
    ensures old' in Changed(attributes, previous) <==> Restorable(attributes, previous, old')
  {
    hide Carries;
    if attributes != [] {
      var last := |attributes| - 1;
      var a := attributes[last];
      ChangedExact(attributes[..last], previous, old');
      NamedExact(previous, a.key);
      assert FirstOfKey(previous, old') && old'.key == a.key ==> Named(previous, a.key) == Some(old') by {
        if FirstOfKey(previous, old') && old'.key == a.key {
          OneFirst(previous, old');
        }
      }
      assert forall i :: 0 <= i < last ==> attributes[..last][i] == attributes[i];
    }
  }

  lemma OneFirst(attributes: seq<Attribute>, a: Attribute)
    requires FirstOfKey(attributes, a)
    ensures Named(attributes, a.key) == Some(a)
  {
    NamedExact(attributes, a.key);
    var i :| 0 <= i < |attributes| && attributes[i] == a && forall j :: 0 <= j < i ==> attributes[j].key != a.key;
    assert Carries(attributes, a.key);
  }

  lemma PointerRemovalsExact(id: nat, attributes: seq<Attribute>, op: RepairOperator)
    ensures op in PointerRemovals(id, attributes) <==> PointerRemoval(op, id, attributes)
  {
    if PointerRemoval(op, id, attributes) {
      var i :| 0 <= i < |attributes| && attributes[i].key == op.attribute;
      assert PointerRemovals(id, attributes)[i] == op;
    }
  }

  lemma ObjectRemovalsExact(id: ObjectId, attributes: seq<Attribute>, op: RepairOperator)
    ensures op in ObjectRemovals(id, attributes) <==> ObjectRemoval(op, id, attributes)
  {
    if ObjectRemoval(op, id, attributes) {
      var i :| 0 <= i < |attributes| && attributes[i].key == op.attribute;
      assert ObjectRemovals(id, attributes)[i] == op;
    }
  }

  lemma PointerRestoresExact(id: nat, olds: seq<Attribute>, op: RepairOperator)
    ensures op in PointerRestores(id, olds) <==> exists a :: PointerRestore(op, id, a) && a in olds
  {
    if a :| PointerRestore(op, id, a) && a in olds {
      var i :| 0 <= i < |olds| && olds[i] == a;
      assert PointerRestores(id, olds)[i] == op;
    }
    if op in PointerRestores(id, olds) {
      var i :| 0 <= i < |olds| && PointerRestores(id, olds)[i] == op;
      assert PointerRestore(op, id, olds[i]);
    }
  }

  lemma ObjectRestoresExact(id: ObjectId, olds: seq<Attribute>, op: RepairOperator)
    ensures op in ObjectRestores(id, olds) <==> exists a :: ObjectRestore(op, id, a) && a in olds
  {
    if a :| ObjectRestore(op, id, a) && a in olds {
      var i :| 0 <= i < |olds| && olds[i] == a;
      assert ObjectRestores(id, olds)[i] == op;
    }
    if op in ObjectRestores(id, olds) {
      var i :| 0 <= i < |olds| && ObjectRestores(id, olds)[i] == op;
      assert ObjectRestore(op, id, olds[i]);
    }
  }

  lemma PointerOffers(id: nat, before: Snapshot, current: Snapshot, op: RepairOperator)
    ensures op in PointerCandidates(id, before, current) <==> PointerOffer(op, id, before, current)
  {
    hide Restorable, PointerRemovals, PointerRestores, PointerRemoval, Changed, AboveBound, ActiveAt, FindPointer;
    PointerFound(current.pointers, id);
    if FindPointer(current.pointers, id).Some? {
      var p, previous := current.pointers[FindPointer(current.pointers, id).value], FindPointer(before.pointers, id);
      PointerRemovalsExact(id, p.attributes, op);
      if previous.Some? {
        PointerFound(before.pointers, id);
        var was := before.pointers[previous.value].attributes;
        PointerRestoresExact(id, Changed(p.attributes, was), op);
        forall a ensures a in Changed(p.attributes, was) <==> Restorable(p.attributes, was, a) {
          ChangedExact(p.attributes, was, a);
        }
      }
    }
  }

  lemma PointerFound(pointers: seq<Pointer>, id: nat)
    ensures FindPointer(pointers, id).Some? ==>
              FindPointer(pointers, id).value < |pointers| && pointers[FindPointer(pointers, id).value].id == id
  {
  }

  lemma ObjectOffers(id: ObjectId, before: Snapshot, current: Snapshot, op: RepairOperator)
    ensures op in ObjectCandidates(id, before, current) <==> ObjectOffer(op, id, before, current)
  {
    hide Restorable, ObjectRemovals, ObjectRestores, ObjectRemoval, Changed, FindId;
    if FindObject(current.objects, id).Some? {
      var o, previous := current.objects[FindObject(current.objects, id).value], FindObject(before.objects, id);
      ObjectRemovalsExact(id, o.attributes, op);
      if previous.Some? {
        var was := before.objects[previous.value].attributes;
        ObjectRestoresExact(id, Changed(o.attributes, was), op);
        forall a ensures a in Changed(o.attributes, was) <==> Restorable(o.attributes, was, a) {
          ChangedExact(o.attributes, was, a);
        }
      }
    }
  }

  ghost predicate Offered(op: RepairOperator, pointers: seq<nat>, objects: seq<ObjectId>, before: Snapshot,
                          current: Snapshot) {
    || (exists i :: 0 <= i < |pointers| && PointerOffer(op, pointers[i], before, current))
    || (exists i :: 0 <= i < |objects| && ObjectOffer(op, objects[i], before, current))
  }

  lemma {:induction false} AllPointerOffers(ids: seq<nat>, before: Snapshot, current: Snapshot, op: RepairOperator)
    ensures op in AllPointerCandidates(ids, before, current) <==>
            exists i :: 0 <= i < |ids| && PointerOffer(op, ids[i], before, current)
  {
    hide PointerOffer, PointerCandidates;
    if ids != [] {
      var last := |ids| - 1;
      AllPointerOffers(ids[..last], before, current, op);
      PointerOffers(ids[last], before, current, op);
      assert forall i :: 0 <= i < last ==> ids[..last][i] == ids[i];
    }
  }

  lemma {:induction false} AllObjectOffers(ids: seq<ObjectId>, before: Snapshot, current: Snapshot, op: RepairOperator)
    ensures op in AllObjectCandidates(ids, before, current) <==>
            exists i :: 0 <= i < |ids| && ObjectOffer(op, ids[i], before, current)
  {
    hide ObjectOffer, ObjectCandidates;
    if ids != [] {
      var last := |ids| - 1;
      AllObjectOffers(ids[..last], before, current, op);
      ObjectOffers(ids[last], before, current, op);
      assert forall i :: 0 <= i < last ==> ids[..last][i] == ids[i];
    }
  }

  lemma AddHas(basis: Basis, x: RepairOperator, limit: nat, op: RepairOperator)
    ensures op in AddOperator(basis, x, limit) ==> op in basis || op == x
    ensures |basis| <= |AddOperator(basis, x, limit)|
    ensures |AddOperator(basis, x, limit)| < limit ==>
              (op in AddOperator(basis, x, limit) <==> op in basis || op == x)
  {
  }

  lemma {:induction false} CollectHas(candidates: seq<RepairOperator>, limit: nat, op: RepairOperator)
    ensures op in Collect([], candidates, limit) ==> op in candidates
    ensures |Collect([], candidates, limit)| < limit ==> (op in candidates ==> op in Collect([], candidates, limit))
  {
    hide AddOperator;
    if candidates != [] {
      var rest, last := candidates[..|candidates| - 1], candidates[|candidates| - 1];
      CollectHas(rest, limit, op);
      AddHas(Collect([], rest, limit), last, limit, op);
      assert op in candidates <==> op in rest || op == last by {
        assert candidates == rest + [last];
      }
    }
  }

  // The kinds of repair in the order in which they are tried.
  function Rank(op: RepairOperator): nat {
    if op.name == "expire_pointer" then 0
    else if op.name == "lower_weight_to_bound" then 1
    else if op.name == "remove_attribute" then 2
    else 3
  }

  // Expiring and lowering a pointer come before removing its attributes, and that before
  // setting them back.
  lemma CandidatesRanked(id: nat, oid: ObjectId, before: Snapshot, current: Snapshot, i: nat, j: nat)
    requires i < j
    ensures var c := PointerCandidates(id, before, current); j < |c| ==> Rank(c[i]) <= Rank(c[j])
    ensures var c := ObjectCandidates(oid, before, current); j < |c| ==> Rank(c[i]) <= Rank(c[j])
  {
    hide Changed, FindPointer, FindObject, AboveBound, ActiveAt;
  }

  // A limit keeps the first candidates, as many as fit, and changes nothing else.
  lemma {:induction false} CollectCut(candidates: seq<RepairOperator>, limit: nat, more: nat)
    requires limit <= more
    ensures var cut, all := Collect([], candidates, limit), Collect([], candidates, more);
            cut <= all && |cut| == if |all| < limit then |all| else limit
  {
    if candidates != [] {
      CollectCut(candidates[..|candidates| - 1], limit, more);
    }
  }

  // Below its limit the canonical basis holds exactly the repairs of the focus; at the limit
  // it holds only such.
  lemma CanonicalBasisExact(focusPointers: seq<nat>, focusObjects: seq<ObjectId>, before: Snapshot, current: Snapshot,
                            limit: nat, op: RepairOperator)
    ensures var basis := Collect([], AllPointerCandidates(focusPointers, before, current) +
                                     AllObjectCandidates(focusObjects, before, current), limit);
            && (op in basis ==> Offered(op, focusPointers, focusObjects, before, current))
            && (|basis| < limit ==> (op in basis <==> Offered(op, focusPointers, focusObjects, before, current)))
  {
    hide PointerOffer, ObjectOffer, AllPointerCandidates, AllObjectCandidates, Collect;
    AllPointerOffers(focusPointers, before, current, op);
    AllObjectOffers(focusObjects, before, current, op);
    CollectHas(AllPointerCandidates(focusPointers, before, current) +
               AllObjectCandidates(focusObjects, before, current), limit, op);
  }

  // ---- what the search is about

  function Deltas(ops: seq<RepairOperator>): seq<Delta> {
    seq(|ops|, i requires 0 <= i < |ops| => ops[i].delta)
  }

  // Applying the operators one after another leads from the target to that snapshot.
  ghost predicate Leads(target: Snapshot, basis: Basis, ops: seq<RepairOperator>, s: Snapshot) {
    (forall i :: 0 <= i < |ops| ==> ops[i] in basis) && ApplyAll(target, Deltas(ops)) == Ok(s)
  }

  // No sequence of at most n operators leads to a snapshot that passes.
  ghost predicate NoneWithin(target: Snapshot, basis: Basis, legal: Snapshot -> bool, n: nat) {
    forall ops: seq<RepairOperator>, s :: |ops| <= n && Leads(target, basis, ops, s) ==> !legal(s)
  }

  // The most expansions a search of that depth can need.
  function TreeSize(width: nat, depth: nat): nat {
    if depth == 0 then 0 else width * (1 + TreeSize(width, depth - 1))
  }

  const MAX_U64: nat := 0xFFFF_FFFF_FFFF_FFFF

  function ExpansionLimit(maxDepth: nat, maxCandidates: nat): nat {
    if maxCandidates == 0 then 0
    else if maxDepth + 1 > MAX_U64 / maxCandidates then MAX_U64
    else (maxDepth + 1) * maxCandidates
  }

  datatype Status = Accepted' | VerifierUnavailable | Found | Exhausted

  datatype Solution = Solution(status: Status, depth: nat, fused: Delta, operators: seq<RepairOperator>, frontier: nat)

  datatype Node = Node(snapshot: Snapshot, fused: Delta, depth: nat, operators: seq<RepairOperator>)
}
