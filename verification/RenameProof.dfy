// The second delta, with its temp ids renamed and the first delta's new objects named by
// temp id again, runs after the first exactly as the original ran on its result.

module RenameProof {
  import opened Wrappers
  import opened Model
  import opened Overlay
  import opened OverlayApply
  import opened Invariants
  import opened SequentialMerge
  import opened EpochView
  import opened CompressProof

  // ---- the ids a delta creates are the synthetic ones

  ghost predicate InTemps(table: map<ObjectId, nat>, temps: map<nat, ObjectId>) {
    forall id :: id in table ==> table[id] != 0 && table[id] in temps && temps[table[id]] == id
  }

  lemma {:induction false} SyntheticSplit(next: nat, a: seq<nat>, b: seq<nat>)
    ensures Synthetic(next, a + b) == Synthetic(next, a) + Synthetic(next + |a|, b)
    ensures forall id :: id in Synthetic(next, a) ==> next <= id.index < next + |a|
  {
    SyntheticRange(next, a);
    if b == [] {
      assert a + b == a;
    } else {
      var last := |b| - 1;
      SyntheticSplit(next, a, b[..last]);
      SyntheticLast(next, a, b);
    }
  }

  lemma SyntheticLast(next: nat, a: seq<nat>, b: seq<nat>)
    requires b != [] && Synthetic(next, a + b[..|b| - 1]) == Synthetic(next, a) + Synthetic(next + |a|, b[..|b| - 1])
    ensures Synthetic(next, a + b) == Synthetic(next, a) + Synthetic(next + |a|, b)
  {
    var last := |b| - 1;
    assert (a + b)[..|a| + last] == a + b[..last] && (a + b)[|a| + last] == b[last];
  }

  lemma {:induction false} SyntheticRange(next: nat, a: seq<nat>)
    ensures forall id :: id in Synthetic(next, a) ==> next <= id.index < next + |a|
  {
    if a != [] {
      SyntheticRange(next, a[..|a| - 1]);
    }
  }

  lemma SyntheticHead(next: nat, temp: nat, rest: seq<nat>)
    ensures Synthetic(next, [temp] + rest) == map[ObjectId(next, 1) := temp] + Synthetic(next + 1, rest)
  {
    SyntheticSplit(next, [temp], rest);
    assert [temp][..0] == [];
  }

  lemma PushIndex(objects: seq<Object>, o: Object)
    ensures NextIndex(objects + [o]) == Max(NextIndex(objects), o.id.index + 1)
  {
    assert (objects + [o])[..|objects|] == objects;
  }

  lemma CreateCreates(st: State, op: Op)
    requires StateOk(st) && op.CreateObject? && Step(st, op).Ok?
    ensures var next := Step(st, op).value.snap.objects;
            NextIndex(next) == NextIndex(st.snap.objects) + 1 &&
            IdSet(next) == IdSet(st.snap.objects) + {ObjectId(NextIndex(st.snap.objects), 1)}
  {
    PushIndex(st.snap.objects, NewObject(st, op));
    PushObjectKeeps(st.snap.objects, NewObject(st, op), st.snap.typeNames);
  }

  lemma OtherCreatesNone(st: State, op: Op)
    requires StateOk(st) && !op.CreateObject? && Step(st, op).Ok?
    ensures var next := Step(st, op).value.snap.objects;
            NextIndex(next) == NextIndex(st.snap.objects) && IdSet(next) == IdSet(st.snap.objects)
  {
    if ObjectOp(op) {
      var i := FindObject(st.snap.objects, Resolve(st, op.target).value).value;
      var o := EditObject(st.snap.objects[i], op);
      PutIndex(st.snap.objects, i, o);
      PutObjectKeeps(st.snap.objects, i, o, st.snap.typeNames);
    }
  }

  lemma InTemps1(id: ObjectId, temp: nat, table: map<ObjectId, nat>, temps: map<nat, ObjectId>)
    requires InTemps(table, temps) && temp != 0 && temp in temps && temps[temp] == id
    ensures InTemps(map[id := temp] + table, temps)
  {
  }

  // What creating objects from `index` on adds to the object ids and to the temp table.
  ghost predicate Creates(index: nat, ids: set<ObjectId>, known: map<nat, ObjectId>, created: seq<nat>,
                          ids': set<ObjectId>, known': map<nat, ObjectId>) {
    var table := Synthetic(index, created);
    && InTemps(table, known')
    && ids' == ids + table.Keys
    && known'.Keys == known.Keys + TempSet(created)
    && (forall t :: t in known ==> t in known' && known'[t] == known[t])
  }

  lemma CreatesHead(index: nat, ids: set<ObjectId>, known: map<nat, ObjectId>, temp: nat, rest: seq<nat>,
                    ids': set<ObjectId>, known': map<nat, ObjectId>)
    requires temp != 0 && temp !in known
    requires Creates(index + 1, ids + {ObjectId(index, 1)}, known[temp := ObjectId(index, 1)], rest, ids', known')
    ensures Creates(index, ids, known, [temp] + rest, ids', known')
  {
    SyntheticHead(index, temp, rest);
    var next := known[temp := ObjectId(index, 1)];
    assert temp in next && next[temp] == ObjectId(index, 1);
    InTemps1(ObjectId(index, 1), temp, Synthetic(index + 1, rest), known');
    assert TempSet([temp] + rest) == {temp} + TempSet(rest);
    assert forall t :: t in known ==> t in next && next[t] == known[t];
  }

  lemma CreatesIdle(index: nat, ids: set<ObjectId>, known: map<nat, ObjectId>)
    ensures Creates(index, ids, known, [], ids, known)
  {
    assert TempSet([]) == {};
  }

  // What a run adds to the temp table and to the objects.
  lemma {:induction false} RunCreates(st: State, ops: Delta)
    requires StateOk(st) && Run(st, ops).Ok?
    ensures var after := Run(st, ops).value;
            Creates(NextIndex(st.snap.objects), IdSet(st.snap.objects), st.temps, CreatedTemps(ops),
                    IdSet(after.snap.objects), after.temps)
    decreases |ops|
  {
    hide Step, Creates, StateOk, IdSet, NextIndex;
    if ops == [] {
      CreatesIdle(NextIndex(st.snap.objects), IdSet(st.snap.objects), st.temps);
    } else {
      var op, next, after := ops[0], Step(st, ops[0]).value, Run(st, ops).value;
      StepKeeps(st, op);
      RunCreates(next, ops[1..]);
      TempsAfter(st, op);
      var rest := CreatedTemps(ops[1..]);
      if op.CreateObject? {
        CreateCreates(st, op);
        CreatesHead(NextIndex(st.snap.objects), IdSet(st.snap.objects), st.temps, op.temp, rest,
                    IdSet(after.snap.objects), after.temps);
      } else {
        OtherCreatesNone(st, op);
        assert [] + rest == rest;
      }
    }
  }

  // ---- the renaming of temp ids

  ghost predicate RemapOk(remap: map<nat, nat>, firstTemps: set<nat>) {
    && (forall t :: t in remap ==> remap[t] != 0 && remap[t] !in firstTemps)
    && (forall t, u :: t in remap && u in remap && remap[t] == remap[u] ==> t == u)
  }

  // Names the remap has handed out so far: unchanged ones below `low`, fresh ones from it up.
  ghost predicate RemapGrown(remap: map<nat, nat>, firstTemps: set<nat>, low: nat, next: nat) {
    && RemapOk(remap, firstTemps)
    && (forall t :: t in remap ==> if t in firstTemps then low <= remap[t] < next else remap[t] == t < low)
  }

  lemma RemapGrows(remap: map<nat, nat>, firstTemps: set<nat>, low: nat, next: nat, t: nat)
    requires RemapGrown(remap, firstTemps, low, next) && 1 <= low <= next && 0 < t < low && t !in remap
    requires forall t :: t in firstTemps ==> t < low
    ensures t in firstTemps ==> RemapGrown(remap[t := next], firstTemps, low, next + 1)
    ensures t !in firstTemps ==> RemapGrown(remap[t := t], firstTemps, low, next)
  {
  }

  // Distinct valid temp ids, none of them known yet.
  ghost predicate Fresh(temps: seq<nat>, known: set<nat>) {
    && (forall i :: 0 <= i < |temps| ==> temps[i] != 0 && temps[i] !in known)
    && (forall i, j :: 0 <= i < j < |temps| ==> temps[i] != temps[j])
  }

  lemma FreshTail(temps: seq<nat>, known: set<nat>)
    requires temps != []
    ensures Fresh(temps, known) <==> temps[0] != 0 && temps[0] !in known && Fresh(temps[1..], known + {temps[0]})
    ensures TempSet(temps) == {temps[0]} + TempSet(temps[1..])
  {
    var rest := temps[1..];
    assert temps == [temps[0]] + rest;
    if Fresh(rest, known + {temps[0]}) {
      assert forall i :: 1 <= i < |temps| ==> temps[i] == rest[i - 1];
    }
  }

  lemma RemapDone(remap: map<nat, nat>, firstTemps: set<nat>, low: nat, next: nat)
    requires RemapGrown(remap, firstTemps, low, next)
    ensures RemapOk(remap, firstTemps) && remap.Keys == remap.Keys + TempSet([])
  {
  }

  lemma {:induction false} RemapWorks(temps: seq<nat>, firstTemps: set<nat>, low: nat, next: nat, acc: map<nat, nat>)
    requires 1 <= low <= next && RemapGrown(acc, firstTemps, low, next)
    requires Fresh(temps, acc.Keys) && forall i :: 0 <= i < |temps| ==> temps[i] < low
    requires forall t :: t in firstTemps ==> t < low
    ensures var r := Remap(temps, firstTemps, next, acc);
            r.Ok? && RemapOk(r.value, firstTemps) && r.value.Keys == acc.Keys + TempSet(temps)
    decreases |temps|
  {
    hide RemapGrown, RemapOk, Fresh;
    if temps == [] {
      RemapDone(acc, firstTemps, low, next);
    } else {
      var t := temps[0];
      FreshTail(temps, acc.Keys);
      RemapGrows(acc, firstTemps, low, next, t);
      if t in firstTemps {
        var grown := acc[t := next];
        assert grown.Keys == acc.Keys + {t};
        RemapWorks(temps[1..], firstTemps, low, next + 1, grown);
        assert Remap(temps, firstTemps, next, acc) == Remap(temps[1..], firstTemps, next + 1, grown);
      } else {
        var grown := acc[t := t];
        assert grown.Keys == acc.Keys + {t};
        RemapWorks(temps[1..], firstTemps, low, next, grown);
        assert Remap(temps, firstTemps, next, acc) == Remap(temps[1..], firstTemps, next, grown);
      }
    }
  }

  lemma {:induction false} TempAboveAll(temps: seq<nat>)
    ensures TempAbove(temps) >= 1 && forall i :: 0 <= i < |temps| ==> temps[i] < TempAbove(temps)
  {
    if temps != [] {
      var last := |temps| - 1;
      TempAboveAll(temps[..last]);
      assert forall i :: 0 <= i < last ==> temps[..last][i] == temps[i];
    }
  }

  // An accepted delta creates distinct, valid temp ids, none of them known before.
  lemma {:induction false} CreatedFresh(st: State, ops: Delta)
    requires Run(st, ops).Ok?
    ensures Fresh(CreatedTemps(ops), st.temps.Keys)
    decreases |ops|
  {
    if ops != [] {
      var op, next := ops[0], Step(st, ops[0]).value;
      TempsAfter(st, op);
      CreatedFresh(next, ops[1..]);
      var rest := CreatedTemps(ops[1..]);
      if op.CreateObject? {
        assert next.temps.Keys == st.temps.Keys + {op.temp};
        FreshTail([op.temp] + rest, st.temps.Keys);
        assert ([op.temp] + rest)[1..] == rest;
      } else {
        assert [] + rest == rest;
      }
    }
  }

  // ---- the correspondence between the two runs of the second delta

  // `own` is the table of the second delta alone, `joint` that of the merged run.
  ghost predicate Corresponds(n: Names, own: map<nat, ObjectId>, joint: map<nat, ObjectId>) {
    && own.Keys <= n.remap.Keys
    && (forall t :: t in own ==> n.remap[t] in joint && joint[n.remap[t]] == own[t])
    && (forall t :: t in n.remap && t !in own ==> n.remap[t] !in joint)
    && InTemps(n.synthetic, joint)
    && RemapOk(n.remap, n.firstTemps)
  }

  // Every object id the operation names was there before the second delta began.
  predicate RefKnown(ref: Ref, ids: set<ObjectId>) {
    ref.ById? ==> ref.id in ids
  }

  predicate OpKnown(op: Op, ids: set<ObjectId>) {
    if ObjectOp(op) then RefKnown(op.target, ids)
    else op.CreatePointer? ==> RefKnown(op.from, ids) && RefKnown(op.to, ids)
  }

  predicate AllKnown(delta: Delta, ids: set<ObjectId>) {
    forall i :: 0 <= i < |delta| ==> OpKnown(delta[i], ids)
  }

  function KnownIds(n: Names): set<ObjectId> {
    n.baseIds + n.synthetic.Keys
  }

  lemma RefNormalized(n: Names, snap: Snapshot, own: map<nat, ObjectId>, joint: map<nat, ObjectId>, ref: Ref)
    requires Corresponds(n, own, joint) && KnownIds(n) <= IdSet(snap.objects)
    requires Resolve(State(snap, own), ref).Some?
    ensures NormalizeRef(n, ref).Some? <==> RefKnown(ref, KnownIds(n))
    ensures NormalizeRef(n, ref).Some? ==>
            Resolve(State(snap, joint), NormalizeRef(n, ref).value) == Resolve(State(snap, own), ref)
  {
  }

  lemma ObjectOpNormalized(n: Names, snap: Snapshot, own: map<nat, ObjectId>, joint: map<nat, ObjectId>, op: Op)
    requires Corresponds(n, own, joint) && KnownIds(n) <= IdSet(snap.objects)
    requires ObjectOp(op) && StepObject(State(snap, own), op).Ok?
    ensures NormalizeOp(n, op).Ok? <==> OpKnown(op, KnownIds(n))
    ensures NormalizeOp(n, op).Ok? ==>
            var r := StepObject(State(snap, joint), NormalizeOp(n, op).value);
            r.Ok? && r.value.temps == joint && r.value.snap == StepObject(State(snap, own), op).value.snap &&
            StepObject(State(snap, own), op).value.temps == own
  {
    RefNormalized(n, snap, own, joint, op.target);
    if NormalizeOp(n, op).Ok? {
      var op' := NormalizeOp(n, op).value;
      var i := FindObject(snap.objects, Resolve(State(snap, own), op.target).value).value;
      assert EditObject(snap.objects[i], op') == EditObject(snap.objects[i], op);
    }
  }

  lemma LinkNormalized(n: Names, snap: Snapshot, own: map<nat, ObjectId>, joint: map<nat, ObjectId>, op: Op)
    requires Corresponds(n, own, joint) && KnownIds(n) <= IdSet(snap.objects)
    requires op.CreatePointer? && StepLink(State(snap, own), op).Ok?
    ensures NormalizeOp(n, op).Ok? <==> OpKnown(op, KnownIds(n))
    ensures NormalizeOp(n, op).Ok? ==>
            var r := StepLink(State(snap, joint), NormalizeOp(n, op).value);
            r.Ok? && r.value.temps == joint && r.value.snap == StepLink(State(snap, own), op).value.snap &&
            StepLink(State(snap, own), op).value.temps == own
  {
    RefNormalized(n, snap, own, joint, op.from);
    RefNormalized(n, snap, own, joint, op.to);
  }

  lemma CreateNormalized(n: Names, snap: Snapshot, own: map<nat, ObjectId>, joint: map<nat, ObjectId>, op: Op)
    requires Corresponds(n, own, joint)
    requires op.CreateObject? && StepCreate(State(snap, own), op).Ok? && op.temp in n.remap
    requires forall id :: id in n.synthetic ==> n.synthetic[id] in n.firstTemps
    ensures var r := StepCreate(State(snap, joint), NormalizeOp(n, op).value);
            r.Ok? && r.value.snap == StepCreate(State(snap, own), op).value.snap &&
            Corresponds(n, StepCreate(State(snap, own), op).value.temps, r.value.temps)
  {
    var st := State(snap, own);
    assert NewObject(State(snap, joint), NormalizeOp(n, op).value) == NewObject(st, op);
  }

  lemma StepNormalized(n: Names, snap: Snapshot, own: map<nat, ObjectId>, joint: map<nat, ObjectId>, op: Op)
    requires Corresponds(n, own, joint) && KnownIds(n) <= IdSet(snap.objects)
    requires Step(State(snap, own), op).Ok? && !op.AssertFact? && (op.CreateObject? ==> op.temp in n.remap)
    requires forall id :: id in n.synthetic ==> n.synthetic[id] in n.firstTemps
    ensures NormalizeOp(n, op).Ok? <==> OpKnown(op, KnownIds(n))
    ensures NormalizeOp(n, op).Ok? ==>
            var a, r := Step(State(snap, own), op).value, Step(State(snap, joint), NormalizeOp(n, op).value);
            r.Ok? && r.value.snap == a.snap && Corresponds(n, a.temps, r.value.temps)
    ensures NormalizeOp(n, op).Ok? ==> !NormalizeOp(n, op).value.AssertFact?
  {
    hide StepObject, StepCreate, StepLink, KnownIds, IdSet, Corresponds;
    if ObjectOp(op) {
      ObjectOpNormalized(n, snap, own, joint, op);
    } else if op.CreateObject? {
      CreateNormalized(n, snap, own, joint, op);
    } else if op.CreatePointer? {
      LinkNormalized(n, snap, own, joint, op);
    }
  }

  lemma StepIds(st: State, op: Op)
    requires Step(st, op).Ok?
    ensures IdSet(st.snap.objects) <= IdSet(Step(st, op).value.snap.objects)
  {
    var next := Step(st, op).value;
    assert ObjectsExtend(st.snap.objects, next.snap.objects) by {
      if ObjectOp(op) {
        assert StepObject(st, op).Ok?;
      }
    }
    ExtendsIds(st.snap.objects, next.snap.objects);
  }

  lemma {:induction false} RunNormalized(n: Names, snap: Snapshot, own: map<nat, ObjectId>, joint: map<nat, ObjectId>,
                                         ops: Delta)
    requires Corresponds(n, own, joint) && KnownIds(n) <= IdSet(snap.objects)
    requires Run(State(snap, own), ops).Ok? && FactFree(ops)
    requires forall t :: t in TempSet(CreatedTemps(ops)) ==> t in n.remap
    requires forall id :: id in n.synthetic ==> n.synthetic[id] in n.firstTemps
    ensures Normalize(n, ops).Ok? <==> AllKnown(ops, KnownIds(n))
    ensures Normalize(n, ops).Ok? ==>
            var r := Run(State(snap, joint), Normalize(n, ops).value);
            r.Ok? && r.value.snap == Run(State(snap, own), ops).value.snap && FactFree(Normalize(n, ops).value)
    decreases |ops|
  {
    if ops != [] {
      var op, st := ops[0], State(snap, own);
      assert op.CreateObject? ==> op.temp in CreatedTemps(ops);
      StepNormalized(n, snap, own, joint, op);
      StepIds(st, op);
      var next := Step(st, op).value;
      assert forall t :: t in CreatedTemps(ops[1..]) ==> t in CreatedTemps(ops);
      assert AllKnown(ops, KnownIds(n)) <==> OpKnown(op, KnownIds(n)) && AllKnown(ops[1..], KnownIds(n)) by {
        assert ops == [op] + ops[1..];
      }
      if OpKnown(op, KnownIds(n)) {
        var op' := NormalizeOp(n, op).value;
        var joint' := Step(State(snap, joint), op').value;
        RunNormalized(n, next.snap, next.temps, joint'.temps, ops[1..]);
        if Normalize(n, ops[1..]).Ok? {
          assert ([op'] + Normalize(n, ops[1..]).value)[1..] == Normalize(n, ops[1..]).value;
        }
      }
    }
  }
}
