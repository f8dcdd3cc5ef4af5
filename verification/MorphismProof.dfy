// Morphisms form a category: what a composite does depends only on the list of its
// defined parts, so composition is associative and identities are neutral.

module MorphismProof {
  import opened Wrappers
  import opened Model
  import opened Overlay
  import opened Invariants
  import opened SequentialMerge
  import opened EpochView
  import opened CompressProof
  import opened RenameProof
  import opened MergeProof
  import opened Morphisms

  // ---- what the declarations must provide

  predicate ActionOk(action: Action) {
    action.EmitAction? ==> action.relation != ""
  }

  // Types a morphism changes to are registered, and the relations it emits have names.
  predicate MorphismOk(m: Morphism, typeNames: map<nat, string>) {
    match m
    case Identity(_) => true
    case Defined(_, signature, actions) =>
      && (signature.domain != signature.codomain ==> HasSymbol(typeNames, signature.codomain))
      && (forall i :: 0 <= i < |actions| ==> ActionOk(actions[i]))
    case Composed(_, _, first, second) => MorphismOk(first, typeNames) && MorphismOk(second, typeNames)
  }

  lemma {:induction false} OkStays(m: Morphism, a: map<nat, string>, b: map<nat, string>)
    requires MorphismOk(m, a) && NamesExtend(a, b)
    ensures MorphismOk(m, b)
  {
    if m.Composed? {
      OkStays(m.first, a, b);
      OkStays(m.second, a, b);
    }
  }

  // ---- tame deltas: no creations, no facts, objects named by known id

  predicate RefTame(ref: Ref, ids: set<ObjectId>) {
    ref.ById? && ref.id in ids
  }

  predicate OpTame(op: Op, ids: set<ObjectId>) {
    && !op.CreateObject? && !op.AssertFact?
    && (ObjectOp(op) ==> RefTame(op.target, ids))
    && (op.CreatePointer? ==> RefTame(op.from, ids) && RefTame(op.to, ids))
  }

  predicate Tame(ops: Delta, ids: set<ObjectId>) {
    forall i :: 0 <= i < |ops| ==> OpTame(ops[i], ids)
  }

  lemma TameBasics(ops: Delta, ids: set<ObjectId>)
    requires Tame(ops, ids)
    ensures FactFree(ops) && AllKnown(ops, ids)
    ensures CreatedTemps(ops) == []
  {
    forall i | 0 <= i < |ops| ensures OpKnown(ops[i], ids) && !ops[i].AssertFact? {
      assert OpTame(ops[i], ids);
    }
    TameNoTemps(ops, ids);
  }

  lemma {:induction false} TameNoTemps(ops: Delta, ids: set<ObjectId>)
    requires Tame(ops, ids)
    ensures CreatedTemps(ops) == []
  {
    if ops != [] {
      assert OpTame(ops[0], ids);
      assert forall i :: 0 <= i < |ops[1..]| ==> ops[1..][i] == ops[i + 1];
      TameNoTemps(ops[1..], ids);
    }
  }

  // With no objects created, normalising the second delta changes nothing.
  lemma {:induction false} TameNormalize(n: Names, ops: Delta)
    requires Tame(ops, n.baseIds)
    ensures Normalize(n, ops) == Ok(ops)
  {
    if ops != [] {
      assert OpTame(ops[0], n.baseIds);
      assert forall i :: 0 <= i < |ops[1..]| ==> ops[1..][i] == ops[i + 1];
      TameNormalize(n, ops[1..]);
      assert ops == [ops[0]] + ops[1..];
    }
  }

  // Tame deltas create no objects.
  lemma TameIds(s: Snapshot, ops: Delta)
    requires WellFormed(s) && Tame(ops, IdSet(s.objects)) && Apply(s, ops).Ok?
    ensures IdSet(Apply(s, ops).value.objects) == IdSet(s.objects)
  {
    hide Step, Run;
    StartKeeps(s);
    RunCreates(Start(s), ops);
    TameNoTemps(ops, IdSet(s.objects));
    assert Synthetic(NextIndex(s.objects), []) == map[];
    RecountIds(Run(Start(s), ops).value.snap);
  }

  // The deltas morphisms make can be fused, and what comes out is of the same kind.
  lemma FuseTame(s: Snapshot, d1: Delta, d2: Delta)
    requires WellFormed(s) && Apply(s, d1).Ok? && Apply(Apply(s, d1).value, d2).Ok?
    requires Tame(d1, IdSet(s.objects)) && Tame(d2, IdSet(s.objects))
    requires !TypeConflict(d1) && !TypeConflict(d2)
    ensures var r := MergeSequential(s, d1, d2);
            r.Ok? && Tame(r.value, IdSet(s.objects)) && !TypeConflict(r.value) &&
            Apply(s, r.value) == ClampResult(Apply(Apply(s, d1).value, d2), s.epoch + 1)
  {
    hide Step, Run, TypeConflict;
    var ids, mid := IdSet(s.objects), Apply(s, d1).value;
    TameIds(s, d1);
    TameBasics(d1, ids);
    TameBasics(d2, ids);
    MergeComplete(s, d1, d2);
    MergeSound(s, d1, d2);
    assert Remap([], TempSet([]), Max(TempAbove([]), TempAbove([])), map[]) == Ok(map[]);
    TameNormalize(NamesFor(s, d1, map[]), d2);
    CompressSettles(d1 + d2);
    forall i | 0 <= i < |Compress(d1 + d2)| ensures OpTame(Compress(d1 + d2)[i], ids) {
      var op := Compress(d1 + d2)[i];
      var j :| 0 <= j < |d1 + d2| && (d1 + d2)[j] == op;
      assert if j < |d1| then d1[j] == op else d2[j - |d1|] == op;
    }
  }

  // ---- the delta of a defined morphism is always accepted

  ghost predicate RetypesTo(ops: Delta, typ: nat) {
    forall i :: 0 <= i < |ops| ==> (ops[i].SetObjectType? ==> ops[i].typ == typ)
  }

  ghost predicate CacheOk(s: Snapshot, d: Draft, names: map<nat, string>) {
    && NamesExtend(s.relationNames, names)
    && (forall n :: n in d.cache ==> d.cache[n] in names && names[d.cache[n]] == n)
    && (forall id :: id in names ==> id < d.next && (id in s.relationNames || names[id] in d.cache))
    && d.next >= 1
  }

  ghost predicate DraftOk(s: Snapshot, d: Draft, typ: nat) {
    && Run(Start(s), d.ops).Ok?
    && DraftState(s, d, Run(Start(s), d.ops).value)
    && Tame(d.ops, IdSet(s.objects))
    && RetypesTo(d.ops, typ)
  }

  ghost predicate DraftState(s: Snapshot, d: Draft, st: State) {
    && StateOk(st) && Extends(s, st.snap)
    && st.snap.typeNames == s.typeNames
    && IdSet(st.snap.objects) == IdSet(s.objects)
    && CacheOk(s, d, st.snap.relationNames)
  }

  lemma RunPush(s: Snapshot, ops: Delta, op: Op)
    requires Run(Start(s), ops).Ok?
    ensures Run(Start(s), ops + [op]) == Step(Run(Start(s), ops).value, op)
  {
    RunAppend(Start(s), ops, [op]);
  }

  lemma TamePush(ops: Delta, op: Op, ids: set<ObjectId>, typ: nat)
    requires Tame(ops, ids) && RetypesTo(ops, typ) && OpTame(op, ids) && (op.SetObjectType? ==> op.typ == typ)
    ensures Tame(ops + [op], ids) && RetypesTo(ops + [op], typ)
  {
  }

  lemma PushOk(s: Snapshot, d: Draft, typ: nat, op: Op)
    requires DraftOk(s, d, typ) && OpTame(op, IdSet(s.objects)) && (op.SetObjectType? ==> op.typ == typ)
    requires !op.InternType? && !op.InternRelation?
    requires Step(Run(Start(s), d.ops).value, op).Ok?
    ensures DraftOk(s, Push(d, op), typ)
    ensures Run(Start(s), Push(d, op).ops).value.snap.relationNames == Run(Start(s), d.ops).value.snap.relationNames
  {
    hide Run, Step, StateOk, Extends, Tame, RetypesTo, OpTame, IdSet;
    var st := Run(Start(s), d.ops).value;
    RunPush(s, d.ops, op);
    TamePush(d.ops, op, IdSet(s.objects), typ);
    StepKeeps(st, op);
    assert !op.CreateObject? by {
      TameOpKind(op, IdSet(s.objects));
    }
    OtherCreatesNone(st, op);
    ExtendsTrans(s, st.snap, Step(st, op).value.snap);
    StepNames(st, op);
  }

  lemma TameOpKind(op: Op, ids: set<ObjectId>)
    requires OpTame(op, ids)
    ensures !op.CreateObject?
  {
  }

  lemma StepNames(st: State, op: Op)
    requires Step(st, op).Ok? && !op.InternType? && !op.InternRelation?
    ensures Step(st, op).value.snap.relationNames == st.snap.relationNames
    ensures Step(st, op).value.snap.typeNames == st.snap.typeNames
  {
  }

  lemma FindRelationExact(s: Snapshot, name: string)
    ensures FindRelation(s, name).Some? <==> name in s.relationNames.Values
    ensures FindRelation(s, name).Some? ==>
            FindRelation(s, name).value in s.relationNames && s.relationNames[FindRelation(s, name).value] == name
  {
    if name in s.relationNames.Values {
      var k :| k in s.relationNames && s.relationNames[k] == name;
      assert k < NextSymbol(s.relationNames);
    }
  }

  lemma InternStep(st: State, name: string, id: nat)
    requires name != "" && id != 0 && id !in st.snap.relationNames && name !in st.snap.relationNames.Values
    ensures Step(st, InternRelation(name, id)) ==
            Ok(st.(snap := st.snap.(relationNames := st.snap.relationNames[id := name])))
  {
  }

  lemma CacheGrows(s: Snapshot, d: Draft, names: map<nat, string>, name: string)
    requires CacheOk(s, d, names) && name !in s.relationNames.Values && name !in d.cache
    ensures d.next !in names && name !in names.Values
    ensures CacheOk(s, Draft(d.ops + [InternRelation(name, d.next)], d.cache[name := d.next], d.next + 1),
            names[d.next := name])
  {
  }

  lemma InternOk(s: Snapshot, d: Draft, typ: nat, name: string)
    requires WellFormed(s) && DraftOk(s, d, typ) && name != ""
    ensures DraftOk(s, Interned(s, d, name), typ)
    ensures var names := Run(Start(s), Interned(s, d, name).ops).value.snap.relationNames;
            HasSymbol(names, RelationIn(s, d, name)) && names[RelationIn(s, d, name)] == name
  {
    hide Run, Step, Extends, Tame, RetypesTo, WellFormed, CacheOk;
    var st := Run(Start(s), d.ops).value;
    FindRelationExact(s, name);
    if FindRelation(s, name).None? && name !in d.cache {
      var op := InternRelation(name, d.next);
      CacheGrows(s, d, st.snap.relationNames, name);
      CacheFacts(s, d, st);
      InternStep(st, name, d.next);
      RunPush(s, d.ops, op);
      TamePush(d.ops, op, IdSet(s.objects), typ);
      StepKeeps(st, op);
      ExtendsTrans(s, st.snap, Step(st, op).value.snap);
    } else {
      CacheFacts(s, d, st);
    }
  }

  lemma CacheFacts(s: Snapshot, d: Draft, st: State)
    requires StateOk(st) && CacheOk(s, d, st.snap.relationNames)
    ensures d.next >= 1
    ensures forall n :: n in d.cache ==>
              HasSymbol(st.snap.relationNames, d.cache[n]) && st.snap.relationNames[d.cache[n]] == n
    ensures forall k :: k in s.relationNames ==>
              HasSymbol(st.snap.relationNames, k) && st.snap.relationNames[k] == s.relationNames[k]
  {
  }

  // Operations the draft may append: edges on registered relations, updates of known objects.
  lemma LinkAccepted(st: State, op: Op)
    requires StateOk(st) && op.CreatePointer? && RefTame(op.from, IdSet(st.snap.objects)) &&
             RefTame(op.to, IdSet(st.snap.objects))
    requires HasSymbol(st.snap.relationNames, op.relation)
    ensures Step(st, op).Ok?
  {
  }

  lemma ObjectAccepted(st: State, op: Op)
    requires ObjectOp(op) && RefTame(op.target, IdSet(st.snap.objects))
    requires op.SetObjectType? ==> HasSymbol(st.snap.typeNames, op.typ)
    ensures Step(st, op).Ok?
  {
    var i :| 0 <= i < |st.snap.objects| && st.snap.objects[i].id == op.target.id;
  }

  lemma ExpireAccepted(s: Snapshot, st: State, i: nat)
    requires Extends(s, st.snap) && i < |s.pointers|
    ensures Step(st, ExpirePointer(s.pointers[i].id)).Ok?
  {
    assert SamePointer(s.pointers[i], st.snap.pointers[i]);
  }

  // One prior edge more expired.
  lemma ExpirationOk(s: Snapshot, d: Draft, typ: nat, i: nat)
    requires DraftOk(s, d, typ) && i < |s.pointers|
    ensures var r := Push(d, ExpirePointer(s.pointers[i].id));
            DraftOk(s, r, typ) &&
            Run(Start(s), r.ops).value.snap.relationNames == Run(Start(s), d.ops).value.snap.relationNames
  {
    hide Run, Step, DraftState;
    DraftExtends(s, d, typ);
    ExpireAccepted(s, Run(Start(s), d.ops).value, i);
    PushOk(s, d, typ, ExpirePointer(s.pointers[i].id));
  }

  lemma {:induction false} ExpirationsOk(s: Snapshot, d: Draft, typ: nat, oid: ObjectId, relation: nat, count: nat)
    requires DraftOk(s, d, typ) && count <= |s.pointers|
    ensures var r := d.(ops := d.ops + Expirations(s.pointers[..count], oid, relation, s.epoch));
            DraftOk(s, r, typ) &&
            Run(Start(s), r.ops).value.snap.relationNames == Run(Start(s), d.ops).value.snap.relationNames
  {
    hide Run, DraftOk, PriorEdge;
    if count == 0 {
      assert d.ops + [] == d.ops;
    } else {
      var last := count - 1;
      ExpirationsOk(s, d, typ, oid, relation, last);
      assert s.pointers[..count][..last] == s.pointers[..last];
      var before := Expirations(s.pointers[..last], oid, relation, s.epoch);
      var mid := d.(ops := d.ops + before);
      if PriorEdge(s.pointers[last], oid, relation, s.epoch) {
        ExpirationOk(s, mid, typ, last);
        assert d.ops + (before + [ExpirePointer(s.pointers[last].id)]) == mid.ops +
               [ExpirePointer(s.pointers[last].id)];
      } else {
        assert before + [] == before;
      }
    }
  }

  lemma DraftExtends(s: Snapshot, d: Draft, typ: nat)
    requires DraftOk(s, d, typ)
    ensures Run(Start(s), d.ops).Ok?
    ensures var st := Run(Start(s), d.ops).value;
            Extends(s, st.snap) && StateOk(st) && IdSet(st.snap.objects) == IdSet(s.objects) &&
            st.snap.typeNames == s.typeNames
  {
  }

  lemma LinkOk(s: Snapshot, d: Draft, typ: nat, op: Op)
    requires DraftOk(s, d, typ) && op.CreatePointer? && OpTame(op, IdSet(s.objects))
    requires HasSymbol(Run(Start(s), d.ops).value.snap.relationNames, op.relation)
    ensures DraftOk(s, Push(d, op), typ)
  {
    hide Run, Step;
    LinkAccepted(Run(Start(s), d.ops).value, op);
    PushOk(s, d, typ, op);
  }

  lemma ActOk(s: Snapshot, d: Draft, typ: nat, o: Object, action: Action)
    requires WellFormed(s) && DraftOk(s, d, typ) && o in s.objects && ActionOk(action)
    ensures DraftOk(s, Act(s, d, o, action), typ)
  {
    hide Run, Step, DraftOk, WellFormed;
    assert o.id in IdSet(s.objects);
    match action
    case SetAction(key, eval) =>
      if eval(o.attributes).Some? {
        var op := SetObjectAttribute(ById(o.id), Attribute(key, eval(o.attributes).value));
        DraftExtends(s, d, typ);
        ObjectAccepted(Run(Start(s), d.ops).value, op);
        PushOk(s, d, typ, op);
      }
    case EmitAction(target, relation, _, _, _) =>
      if FindNamed(s.objects, target).Some? {
        var t := FindNamed(s.objects, target).value;
        InternOk(s, d, typ, relation);
        LinkOk(s, Interned(s, d, relation), typ, EmittedEdge(o.id, t, RelationIn(s, d, relation), action));
      }
  }

  lemma {:induction false} ActAllOk(s: Snapshot, d: Draft, typ: nat, o: Object, actions: seq<Action>)
    requires WellFormed(s) && DraftOk(s, d, typ) && o in s.objects
    requires forall i :: 0 <= i < |actions| ==> ActionOk(actions[i])
    ensures DraftOk(s, ActAll(s, d, o, actions), typ)
  {
    hide DraftOk, WellFormed, Act;
    if actions != [] {
      var last := |actions| - 1;
      ActAllOk(s, d, typ, o, actions[..last]);
      ActOk(s, ActAll(s, d, o, actions[..last]), typ, o, actions[last]);
    }
  }

  lemma TransformedOk(m: Morphism, s: Snapshot, d: Draft, o: Object)
    requires m.Defined? && WellFormed(s) && MorphismOk(m, s.typeNames) && o in s.objects
    requires DraftOk(s, d, m.signature.codomain)
    ensures DraftOk(s, Transformed(m, s, d, o), m.signature.codomain)
  {
    hide Run, Step, DraftOk, WellFormed, ActAll;
    var relation, typ := "morphism." + m.name, m.signature.codomain;
    assert relation[0] == 'm';
    var self := RelationIn(s, d, relation);
    var known := Interned(s, d, relation);
    InternOk(s, d, typ, relation);
    ExpirationsOk(s, known, typ, o.id, self, |s.pointers|);
    assert s.pointers[..|s.pointers|] == s.pointers;
    var expired := known.(ops := known.ops + Expirations(s.pointers, o.id, self, s.epoch));
    var retyped := expired;
    if m.signature.domain != typ {
      var op := SetObjectType(ById(o.id), typ);
      DraftExtends(s, expired, typ);
      ObjectAccepted(Run(Start(s), expired.ops).value, op);
      PushOk(s, expired, typ, op);
      retyped := Push(expired, op);
    }
    LinkOk(s, retyped, typ, SelfLoop(o.id, self));
    ActAllOk(s, Push(retyped, SelfLoop(o.id, self)), typ, o, m.actions);
  }

  lemma {:induction false} TransformedAllOk(m: Morphism, s: Snapshot, d: Draft, selection: seq<ObjectId>)
    requires m.Defined? && WellFormed(s) && MorphismOk(m, s.typeNames)
    requires DraftOk(s, d, m.signature.codomain)
    ensures DraftOk(s, TransformedAll(m, s, d, selection), m.signature.codomain)
  {
    hide DraftOk, WellFormed, Transformed;
    if selection != [] {
      var last := |selection| - 1;
      TransformedAllOk(m, s, d, selection[..last]);
      if Selected(m, s, selection[last]) {
        TransformedOk(m, s, TransformedAll(m, s, d, selection[..last]),
          s.objects[FindObject(s.objects, selection[last]).value]);
      }
    }
  }

  lemma EmptyDraftOk(s: Snapshot, typ: nat)
    requires WellFormed(s)
    ensures DraftOk(s, EmptyDraft(s), typ)
  {
    StartKeeps(s);
  }

  ghost predicate Accepted(s: Snapshot, delta: Delta) {
    Apply(s, delta).Ok? && Tame(delta, IdSet(s.objects)) && !TypeConflict(delta)
  }

  lemma TraceIdle(s: Snapshot, ops: Delta, name: string)
    requires Apply(s, ops).Ok?
    ensures Apply(s, ops + [Traced(name)]) == Apply(s, ops)
  {
    RunPush(s, ops, Traced(name));
  }

  lemma TraceTame(ops: Delta, ids: set<ObjectId>, name: string)
    requires Tame(ops, ids) && !TypeConflict(ops)
    ensures Tame(ops + [Traced(name)], ids) && !TypeConflict(ops + [Traced(name)])
  {
  }

  lemma DefinedAccepted(m: Morphism, s: Snapshot, selection: seq<ObjectId>)
    requires m.Defined? && WellFormed(s) && MorphismOk(m, s.typeNames)
    ensures Accepted(s, DefinedDelta(m, s, selection))
  {
    hide Step, Run, StateOk, WellFormed, TransformedAll;
    EmptyDraftOk(s, m.signature.codomain);
    TransformedAllOk(m, s, EmptyDraft(s), selection);
    var ops := TransformedAll(m, s, EmptyDraft(s), selection).ops;
    TraceIdle(s, ops, "morphism.apply");
    TraceTame(ops, IdSet(s.objects), "morphism.apply");
  }
}
