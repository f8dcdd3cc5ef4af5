// Snapshots whose attribute lists are sorted, as all of the kernel's are, and what two of
// them with the same canonical form have in common.

module Tidiness {
  import opened Wrappers
  import opened Model
  import opened Attributes
  import opened AttributeOrder
  import opened Overlay
  import opened OverlayApply
  import opened Invariants
  import opened KeySort
  import opened CanonicalLists
  import SnapshotCodec
  import SnapshotNormal

  ghost predicate Tidied(s: Snapshot) {
    && (forall i :: 0 <= i < |s.objects| ==> Ordered(s.objects[i].attributes))
    && (forall i :: 0 <= i < |s.pointers| ==> Ordered(s.pointers[i].attributes))
  }

  lemma {:induction false} RemoveOrdered(s: seq<Attribute>, key: string)
    requires Ordered(s)
    ensures Ordered(RemoveAttribute(s, key)) && forall a :: a in RemoveAttribute(s, key) ==> a in s
  {
    hide Le, Ordered;
    if s != [] {
      OrderedTail(s);
      RemoveOrdered(s[1..], key);
      assert s == [s[0]] + s[1..];
      if s[0].key != key {
        OrderedCons(s[0], RemoveAttribute(s[1..], key));
      }
    }
  }

  lemma EditTidies(o: Object, op: Op)
    requires Ordered(o.attributes)
    ensures Ordered(EditObject(o, op).attributes)
  {
    hide Ordered, Sorted;
    match op
    case SetObjectAttribute(_, a) => SetOrdered(o.attributes, a);
    case RemoveObjectAttribute(_, key) => RemoveOrdered(o.attributes, key);
    case _ =>
  }

  lemma EditPointerTidies(p: Pointer, op: Op, epoch: nat)
    requires Ordered(p.attributes)
    ensures Ordered(EditPointer(p, op, epoch).attributes)
  {
    hide Ordered, Sorted;
    match op
    case SetPointerAttribute(_, a) => SetOrdered(p.attributes, a);
    case RemovePointerAttribute(_, key) => RemoveOrdered(p.attributes, key);
    case _ =>
  }

  lemma SetOrdered(s: seq<Attribute>, a: Attribute)
    ensures Ordered(SetAttribute(s, a))
  {
    hide Ordered, Sorted;
    match FindKey(s, a.key)
    case None => SortedOrdered(s + [a]);
    case Some(i) => SortedOrdered(s[i := a]);
  }

  lemma StepTidies(st: State, op: Op)
    requires Step(st, op).Ok? && Tidied(st.snap)
    ensures Tidied(Step(st, op).value.snap)
  {
    hide Ordered, Sorted, EditObject, EditPointer, NextIndex, NextPointer, Resolve, HasSymbol, InternName, Facts;
    if ObjectOp(op) {
      var i := FindObject(st.snap.objects, Resolve(st, op.target).value).value;
      EditTidies(st.snap.objects[i], op);
    } else if PointerOp(op) {
      var i := FindPointer(st.snap.pointers, op.pointer).value;
      EditPointerTidies(st.snap.pointers[i], op, st.snap.epoch);
    } else if op.CreateObject? || op.CreatePointer? {
      SortedOrdered(op.attributes);
    }
  }

  lemma {:induction false} RunTidies(st: State, ops: Delta)
    requires Run(st, ops).Ok? && Tidied(st.snap)
    ensures Tidied(Run(st, ops).value.snap)
    decreases |ops|
  {
    hide Step, Tidied;
    if ops != [] {
      StepTidies(st, ops[0]);
      RunTidies(Step(st, ops[0]).value, ops[1..]);
    }
  }

  // An accepted delta keeps every attribute list sorted.
  lemma ApplyTidies(base: Snapshot, delta: Delta)
    requires Apply(base, delta).Ok? && Tidied(base)
    ensures Tidied(Apply(base, delta).value)
  {
    hide Run, FindObject, Incoming, Outgoing, Ordered;
    RunTidies(Start(base), delta);
    CountedTidies(Run(Start(base), delta).value.snap);
  }

  lemma CountedTidies(s: Snapshot)
    requires Tidied(s)
    ensures Tidied(Recount(s))
  {
    hide FindObject, Incoming, Outgoing, Ordered;
  }

  // ---- one frame: the same objects and pointers in the same places, and the same tables

  ghost predicate SameFrame(a: Snapshot, b: Snapshot) {
    && |a.objects| == |b.objects| && (forall i :: 0 <= i < |a.objects| ==> a.objects[i].id == b.objects[i].id)
    && |a.pointers| == |b.pointers| && (forall i :: 0 <= i < |a.pointers| ==> a.pointers[i].id == b.pointers[i].id)
    && a.typeNames == b.typeNames && a.relationNames == b.relationNames
  }

  lemma OrderedAlike(a: seq<Attribute>, b: seq<Attribute>)
    requires Ordered(a) && Ordered(b) && multiset(a) == multiset(b)
    ensures a == b
  {
    OrderedUnique(a, b);
  }

  // In one frame, tidy snapshots with the same canonical form are the same.
  lemma CanonicalApart(a: Snapshot, b: Snapshot)
    requires WellFormed(a) && WellFormed(b) && Tidied(a) && Tidied(b) && SameFrame(a, b)
    ensures SnapshotCodec.Canonical(a) == SnapshotCodec.Canonical(b) <==> a == b
  {
    hide WellFormed, Ordered, SnapshotCodec.Canonical, SnapshotNormal.UniqueIds;
    SnapshotNormal.WellFormedUnique(a);
    SnapshotNormal.WellFormedUnique(b);
    SnapshotNormal.SameCanonical(a, b);
    if SnapshotCodec.Canonical(a) == SnapshotCodec.Canonical(b) {
      ObjectsApart(a, b);
      PointersApart(a, b);
    }
  }

  lemma ObjectsApart(a: Snapshot, b: Snapshot)
    requires WellFormed(b) && Tidied(a) && Tidied(b) && SameFrame(a, b) &&
             SnapshotNormal.AlikeObjects(a.objects, b.objects)
    ensures a.objects == b.objects
  {
    hide Ordered, SnapshotNormal.AlikeObject, SnapshotNormal.AlikeObjects, SymbolsOk, PointersOk;
    forall i | 0 <= i < |a.objects| ensures a.objects[i] == b.objects[i] {
      var o := a.objects[i];
      assert o in a.objects;
      var p := SnapshotNormal.PartnerOf(o, a.objects, b.objects);
      var j :| 0 <= j < |b.objects| && b.objects[j] == p;
      ObjectApart(o, p);
    }
  }

  lemma ObjectApart(o: Object, p: Object)
    requires SnapshotNormal.AlikeObject(o, p)
    ensures o.id == p.id && (Ordered(o.attributes) && Ordered(p.attributes) ==> o == p)
  {
    hide Ordered;
    assert o.(attributes := []).id == p.(attributes := []).id;
    if Ordered(o.attributes) && Ordered(p.attributes) {
      OrderedAlike(o.attributes, p.attributes);
      assert o == o.(attributes := []).(attributes := o.attributes);
      assert p == p.(attributes := []).(attributes := p.attributes);
    }
  }

  lemma PointersApart(a: Snapshot, b: Snapshot)
    requires WellFormed(b) && Tidied(a) && Tidied(b) && SameFrame(a, b) &&
             SnapshotNormal.AlikePointers(a.pointers, b.pointers)
    ensures a.pointers == b.pointers
  {
    hide Ordered, SnapshotNormal.AlikePointer, SnapshotNormal.AlikePointers, SymbolsOk, ObjectsOk, PointerOk;
    forall i | 0 <= i < |a.pointers| ensures a.pointers[i] == b.pointers[i] {
      var o := a.pointers[i];
      assert o in a.pointers;
      var p := SnapshotNormal.PointerPartner(o, a.pointers, b.pointers);
      var j :| 0 <= j < |b.pointers| && b.pointers[j] == p;
      PointerApart(o, p);
    }
  }

  lemma PointerApart(o: Pointer, p: Pointer)
    requires SnapshotNormal.AlikePointer(o, p)
    ensures o.id == p.id && (Ordered(o.attributes) && Ordered(p.attributes) ==> o == p)
  {
    hide Ordered;
    assert o.(attributes := []).id == p.(attributes := []).id;
    if Ordered(o.attributes) && Ordered(p.attributes) {
      OrderedAlike(o.attributes, p.attributes);
      assert o == o.(attributes := []).(attributes := o.attributes);
      assert p == p.(attributes := []).(attributes := p.attributes);
    }
  }
}
