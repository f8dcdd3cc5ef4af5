// Dropping overwritten type updates changes nothing.

module CompressProof {
  import opened Wrappers
  import opened Model
  import opened Attributes
  import opened Overlay
  import opened Invariants
  import opened SequentialMerge
  import opened EpochView

  // The two states differ at most in the type of the i-th object.
  ghost predicate TypeApart(a: State, b: State, i: nat) {
    && i < |a.snap.objects| == |b.snap.objects|
    && b == PutObject(a, i, a.snap.objects[i].(typ := b.snap.objects[i].typ))
  }

  lemma TypeApartSame(a: State, b: State, i: nat)
    requires TypeApart(a, b, i)
    ensures Ids(b.snap.objects) == Ids(a.snap.objects) && IdSet(b.snap.objects) == IdSet(a.snap.objects)
    ensures NameSet(b.snap.objects) == NameSet(a.snap.objects)
    ensures NextIndex(b.snap.objects) == NextIndex(a.snap.objects)
  {
    ExtendsIds(a.snap.objects, b.snap.objects);
    ExtendsIds(b.snap.objects, a.snap.objects);
    SameIndex(a.snap.objects, b.snap.objects);
    var x, y := a.snap.objects, b.snap.objects;
    assert forall k :: 0 <= k < |x| ==> x[k].name == y[k].name;
    forall name ensures name in NameSet(x) <==> name in NameSet(y) {
      if name in NameSet(x) {
        var k :| 0 <= k < |x| && x[k].name == name;
        assert y[k].name == name;
      }
    }
  }

  lemma TypeApartObject(a: State, b: State, i: nat, op: Op)
    requires TypeApart(a, b, i) && ObjectOp(op) && StepObject(b, op).Ok?
    ensures StepObject(a, op).Ok? && TypeApart(StepObject(a, op).value, StepObject(b, op).value, i)
  {
    hide SetAttribute, RemoveAttribute, FindId, HasSymbol, IdSet, NextIndex;
    TypeApartSame(a, b, i);
    assert Resolve(a, op.target) == Resolve(b, op.target);
    var at := FindObject(b.snap.objects, Resolve(b, op.target).value).value;
    assert FindObject(a.snap.objects, Resolve(a, op.target).value) == Some(at);
    var x, y := a.snap.objects[at], b.snap.objects[at];
    var typ := y.typ;
    assert EditObject(y, op) == EditObject(x, op).(typ := EditObject(y, op).typ);
  }

  lemma TypeApartStep(a: State, b: State, i: nat, op: Op)
    requires TypeApart(a, b, i) && Step(b, op).Ok? && !op.AssertFact?
    ensures Step(a, op).Ok? && TypeApart(Step(a, op).value, Step(b, op).value, i)
  {
    hide StepObject, NextIndex, NextPointer, NextSymbol, Sorted;
    TypeApartSame(a, b, i);
    if ObjectOp(op) {
      TypeApartObject(a, b, i, op);
    } else if op.CreateObject? {
      assert NewObject(a, op) == NewObject(b, op);
    } else if op.CreatePointer? {
      assert Resolve(a, op.from) == Resolve(b, op.from) && Resolve(a, op.to) == Resolve(b, op.to);
    }
  }

  lemma TempsAfter(st: State, op: Op)
    requires Step(st, op).Ok?
    ensures Step(st, op).value.temps ==
            if op.CreateObject? then st.temps[op.temp := ObjectId(NextIndex(st.snap.objects), 1)] else st.temps
    ensures op.CreateObject? ==> op.temp !in st.temps && op.temp != 0
  {
  }

  // A reference goes on naming the same object.
  lemma ResolveStays(st: State, op: Op, ref: Ref)
    requires StateOk(st) && Step(st, op).Ok? && Resolve(st, ref).Some?
    ensures Resolve(Step(st, op).value, ref) == Resolve(st, ref)
  {
    if ref.ById? {
      StepKeeps(st, op);
      ExtendsIds(st.snap.objects, Step(st, op).value.snap.objects);
    } else {
      TempsAfter(st, op);
    }
  }

  lemma FindStays(a: Snapshot, b: Snapshot, id: ObjectId)
    requires Extends(a, b) && FindObject(a.objects, id).Some?
    ensures FindObject(b.objects, id) == FindObject(a.objects, id)
  {
    var i := FindObject(a.objects, id).value;
    assert b.objects[i].id == id;
    assert FindObject(b.objects, id).Some?;
    var j := FindObject(b.objects, id).value;
    assert forall k :: 0 <= k < i ==> b.objects[k].id == a.objects[k].id != id;
    assert j == i;
  }

  // Resolvable references with the same printed form are the same reference.
  lemma KeyNames(st: State, a: Ref, b: Ref)
    requires StateOk(st) && Resolve(st, a).Some? && Resolve(st, b).Some? && KeyOf(a) == KeyOf(b)
    ensures a == b
  {
    if a.ById? && b.ById? {
      var i :| 0 <= i < |st.snap.objects| && st.snap.objects[i].id == a.id;
      var j :| 0 <= j < |st.snap.objects| && st.snap.objects[j].id == b.id;
      assert a.id.generation != 0 && b.id.generation != 0;
    }
  }

  // The retyping itself makes the two states the same.
  lemma OverwriteNow(a: State, b: State, ref: Ref, i: nat, op: Op)
    requires StateOk(a) && TypeApart(a, b, i) && TypeUpdateOf(op, KeyOf(ref))
    requires Resolve(a, ref).Some? && FindObject(a.snap.objects, Resolve(a, ref).value) == Some(i)
    requires Step(a, op).Ok? && Step(b, op).Ok? && TypeApart(Step(a, op).value, Step(b, op).value, i)
    ensures Step(a, op) == Step(b, op)
  {
    hide StateOk, FindObject, Resolve, KeyOf, HasSymbol;
    assert Resolve(a, op.target).Some?;
    KeyNames(a, op.target, ref);
    assert Step(a, op).value.snap.objects[i].typ == op.typ == Step(b, op).value.snap.objects[i].typ by {
      TypeApartFinds(a, b, i, ref);
    }
    var objects := Step(a, op).value.snap.objects;
    assert objects[i := objects[i]] == objects;
  }

  lemma TypeApartFinds(a: State, b: State, i: nat, ref: Ref)
    requires TypeApart(a, b, i) && Resolve(a, ref).Some? && FindObject(a.snap.objects, Resolve(a, ref).value) == Some(i)
    ensures Resolve(b, ref) == Resolve(a, ref) && FindObject(b.snap.objects, Resolve(b, ref).value) == Some(i)
  {
    hide FindId;
    TypeApartSame(a, b, i);
  }

  lemma OverwriteStep(a: State, b: State, ref: Ref, i: nat, op: Op)
    requires StateOk(a) && StateOk(b) && TypeApart(a, b, i) && !op.AssertFact?
    requires Resolve(a, ref).Some? && FindObject(a.snap.objects, Resolve(a, ref).value) == Some(i)
    requires Step(b, op).Ok?
    ensures Step(a, op).Ok?
    ensures var a', b' := Step(a, op).value, Step(b, op).value;
            if TypeUpdateOf(op, KeyOf(ref)) then a' == b'
            else StateOk(a') && StateOk(b') && TypeApart(a', b', i) && Resolve(a', ref) == Resolve(a, ref) &&
                 FindObject(a'.snap.objects, Resolve(a, ref).value) == Some(i)
  {
    hide StateOk, FindObject, Resolve, Step, KeyOf, TypeApart, Extends, TypeUpdateOf;
    TypeApartStep(a, b, i, op);
    var a' := Step(a, op).value;
    if TypeUpdateOf(op, KeyOf(ref)) {
      OverwriteNow(a, b, ref, i, op);
    } else {
      StepKeeps(a, op);
      StepKeeps(b, op);
      ResolveStays(a, op, ref);
      FindStays(a.snap, a'.snap, Resolve(a, ref).value);
    }
  }

  // A run that retypes the object later does not see its type now.
  lemma {:induction false} Overwrite(a: State, b: State, ref: Ref, i: nat, rest: Delta)
    requires StateOk(a) && StateOk(b) && TypeApart(a, b, i) && FactFree(rest)
    requires Resolve(a, ref).Some? && FindObject(a.snap.objects, Resolve(a, ref).value) == Some(i)
    requires exists j :: 0 <= j < |rest| && TypeUpdateOf(rest[j], KeyOf(ref))
    requires Run(b, rest).Ok?
    ensures Run(a, rest) == Run(b, rest)
    decreases |rest|
  {
    hide Step, StateOk, TypeApart, FindObject, Resolve, TypeUpdateOf, KeyOf;
    var op := rest[0];
    OverwriteStep(a, b, ref, i, op);
    if !TypeUpdateOf(op, KeyOf(ref)) {
      var j :| 0 <= j < |rest| && TypeUpdateOf(rest[j], KeyOf(ref));
      assert rest[1..][j - 1] == rest[j];
      Overwrite(Step(a, op).value, Step(b, op).value, ref, i, rest[1..]);
    }
  }

  lemma {:induction false} CompressRun(st: State, ops: Delta)
    requires StateOk(st) && FactFree(ops) && Run(st, ops).Ok?
    ensures Run(st, Compress(ops)) == Run(st, ops)
    decreases |ops|
  {
    if ops != [] {
      var op, rest := ops[0], ops[1..];
      var next := Step(st, op).value;
      StepKeeps(st, op);
      if Overwritten(op, rest) {
        var i := FindObject(st.snap.objects, Resolve(st, op.target).value).value;
        assert TypeApart(st, next, i);
        Overwrite(st, next, op.target, i, rest);
        CompressRun(st, rest);
      } else {
        CompressRun(next, rest);
        assert ([op] + Compress(rest))[1..] == Compress(rest);
      }
    }
  }

  lemma LastOfItsKey(op: Op, rest: Delta, later: Op)
    requires !Overwritten(op, rest) && later in rest && op.SetObjectType? && later.SetObjectType?
    ensures KeyOf(op.target) != KeyOf(later.target)
  {
    var k :| 0 <= k < |rest| && rest[k] == later;
    assert !TypeUpdateOf(rest[k], KeyOf(op.target));
  }

  // What is left names no type twice, so it can be merged again.
  lemma {:induction false} CompressSettles(ops: Delta)
    ensures !TypeConflict(Compress(ops))
    ensures forall j :: 0 <= j < |Compress(ops)| ==> Compress(ops)[j] in ops
    ensures FactFree(ops) ==> FactFree(Compress(ops))
  {
    if ops != [] {
      CompressSettles(ops[1..]);
      var out, tail := Compress(ops), Compress(ops[1..]);
      if !Overwritten(ops[0], ops[1..]) {
        forall i, j | 0 <= i < j < |out| && out[i].SetObjectType? && out[j].SetObjectType? &&
          KeyOf(out[i].target) == KeyOf(out[j].target)
          ensures out[i].typ == out[j].typ
        {
          assert out[j] == tail[j - 1];
          if i == 0 {
            LastOfItsKey(ops[0], ops[1..], out[j]);
          } else {
            assert out[i] == tail[i - 1];
          }
        }
      }
    }
  }
}
