// What applying a defined morphism does to a snapshot: which objects change type, which
// attributes are set, which edges are new and which are retired.

module MorphismEffect {
  import opened Wrappers
  import opened Model
  import opened Overlay
  import opened Invariants
  import opened OpLists
  import opened Effects
  import opened Morphisms
  import opened MorphismProof
  import opened SequentialMerge
  import CategoryProof
  import MergeShape

  // ---- what is expected

  // An object of the domain type.
  ghost predicate OfDomain(m: Morphism, s: Snapshot, id: ObjectId)
    requires m.Defined?
  {
    exists i :: 0 <= i < |s.objects| && s.objects[i].id == id && s.objects[i].typ == m.signature.domain
  }

  // The object of that name.
  ghost function TargetOf(s: Snapshot, name: string): Option<ObjectId> {
    if exists i :: 0 <= i < |s.objects| && s.objects[i].name == name then
      var i :| 0 <= i < |s.objects| && s.objects[i].name == name;
      Some(s.objects[i].id)
    else None
  }

  datatype Edge = Edge(from: ObjectId, to: ObjectId, relation: string, role: Role, weight: Double)

  // From the object to the target of an emit action that has one, or the other way.
  ghost function EmittedBy(s: Snapshot, id: ObjectId, action: Action): seq<Edge> {
    if action.SetAction? || TargetOf(s, action.target).None? then []
    else
      var t := TargetOf(s, action.target).value;
      [Edge(if action.reverse then t else id, if action.reverse then id else t, action.relation, action.role,
            action.weight)]
  }

  ghost function EmittedEdges(s: Snapshot, id: ObjectId, actions: seq<Action>): seq<Edge> {
    if actions == [] then []
    else EmittedEdges(s, id, actions[..|actions| - 1]) + EmittedBy(s, id, actions[|actions| - 1])
  }

  // Per object of the domain type, as often as it is selected: a loop named after the
  // morphism and the edges of its actions.
  ghost function NewEdges(m: Morphism, s: Snapshot, selection: seq<ObjectId>): seq<Edge>
    requires m.Defined?
  {
    if selection == [] then []
    else
      var id := selection[|selection| - 1];
      NewEdges(m, s, selection[..|selection| - 1]) +
      if OfDomain(m, s, id)
      then [Edge(id, id, "morphism." + m.name, Transformative, WEIGHT_ONE)] + EmittedEdges(s, id, m.actions)
      else []
  }

  // The value of the last set action of a key that evaluates.
  function LastSet(actions: seq<Action>, attributes: seq<Attribute>, key: string): Option<Value> {
    if actions == [] then None
    else
      var last := |actions| - 1;
      var a := actions[last];
      if a.SetAction? && a.key == key && a.eval(attributes).Some? then a.eval(attributes)
      else LastSet(actions[..last], attributes, key)
  }

  // A loop an earlier application left at a selected object of the domain type.
  ghost predicate PriorLoop(m: Morphism, s: Snapshot, selection: seq<ObjectId>, p: Pointer)
    requires m.Defined?
  {
    && p.from == p.to && p.from in selection && OfDomain(m, s, p.from)
    && p.relation in s.relationNames && s.relationNames[p.relation] == "morphism." + m.name
    && p.lawDomain == "morphism" && ActiveAt(p, s.epoch)
  }

  // ---- what the result must show

  ghost predicate ObjectDone(m: Morphism, s: Snapshot, selection: seq<ObjectId>, o: Object, now: Object)
    requires m.Defined?
  {
    var chosen := o.id in selection && o.typ == m.signature.domain;
    && now.id == o.id && now.name == o.name && now.existence == o.existence
    && now.typ == (if chosen then m.signature.codomain else o.typ)
    && (!chosen ==> multiset(now.attributes) == multiset(o.attributes))
    && (chosen ==> forall key :: ValueDone(LastSet(m.actions, o.attributes, key), key, o.attributes, now.attributes))
  }

  ghost predicate ValueDone(set_: Option<Value>, key: string, before: seq<Attribute>, now: seq<Attribute>) {
    && (set_.None? ==> SaysAlike(now, before, key))
    && (set_.Some? && (exists x :: Says(before, key, x)) ==> Says(now, key, set_))
  }

  ghost predicate PointerDone(m: Morphism, s: Snapshot, selection: seq<ObjectId>, p: Pointer, now: Pointer)
    requires m.Defined?
  {
    && now == p.(expiresAt := now.expiresAt, attributes := now.attributes)
    && now.expiresAt == (if PriorLoop(m, s, selection, p) then Some(s.epoch + 1) else p.expiresAt)
    && multiset(now.attributes) == multiset(p.attributes)
  }

  ghost predicate EdgeDone(s: Snapshot, after: Snapshot, e: Edge, p: Pointer) {
    && p.from == e.from && p.to == e.to && p.role == e.role && p.weight == e.weight
    && p.relation in after.relationNames && after.relationNames[p.relation] == e.relation
    && p.lawDomain == "morphism" && p.bornAt == s.epoch + 1 && p.expiresAt == None && p.attributes == []
  }

  ghost predicate Done(m: Morphism, s: Snapshot, selection: seq<ObjectId>, after: Snapshot)
    requires m.Defined?
  {
    && |after.objects| == |s.objects|
    && (forall i :: 0 <= i < |s.objects| ==> ObjectDone(m, s, selection, s.objects[i], after.objects[i]))
    && |after.pointers| == |s.pointers| + |NewEdges(m, s, selection)|
    && (forall i :: 0 <= i < |s.pointers| ==> PointerDone(m, s, selection, s.pointers[i], after.pointers[i]))
    && (forall j :: 0 <= j < |NewEdges(m, s, selection)| ==>
          EdgeDone(s, after, NewEdges(m, s, selection)[j], after.pointers[|s.pointers| + j]))
    && after.typeNames == s.typeNames && NamesExtend(s.relationNames, after.relationNames)
    && after.relationNames.Values == s.relationNames.Values + (set e | e in NewEdges(m, s, selection) :: e.relation)
  }

  // ---- what the scans of the draft see, of one object, key and pointer

  ghost predicate Sees(s: Snapshot, ops: Delta, id: ObjectId, key: string, pid: nat, typ: Option<nat>,
                       value: Option<Value>, gone: bool) {
    && LastType(s, ops, id) == typ
    && LastValue(s, ops, id, key) == (if value.Some? then Some(value) else None)
    && (ExpirePointer(pid) in ops <==> gone)
    && LastExistence(s, ops, id).None? && LastWeight(ops, pid).None? && LastPointerValue(ops, pid, key).None?
  }

  // The kinds of operation a draft appends, on objects of the snapshot.
  ghost predicate Drafted(s: Snapshot, op: Op) {
    || op.InternRelation? || op.ExpirePointer? || op.CreatePointer? || op.EmitEvent?
    || ((op.SetObjectType? || op.SetObjectAttribute?) && op.target.ById? && Contains(s, op.target.id))
  }

  lemma PushSees(s: Snapshot, ops: Delta, op: Op, id: ObjectId, key: string, pid: nat, typ: Option<nat>,
                 value: Option<Value>, gone: bool)
    requires Sees(s, ops, id, key, pid, typ, value, gone) && Drafted(s, op)
    ensures Sees(s, ops + [op], id, key, pid,
                 if op.SetObjectType? && op.target.id == id then Some(op.typ) else typ,
                 if op.SetObjectAttribute? && op.target.id == id && op.attribute.key == key
                 then Some(op.attribute.value) else value,
                 gone || op == ExpirePointer(pid))
  {
    assert Init(ops + [op]) == ops && Last(ops + [op]) == op;
  }

  lemma InternedSees(s: Snapshot, d: Draft, name: string, id: ObjectId, key: string, pid: nat, typ: Option<nat>,
                     value: Option<Value>, gone: bool)
    requires Sees(s, d.ops, id, key, pid, typ, value, gone)
    ensures Sees(s, Interned(s, d, name).ops, id, key, pid, typ, value, gone)
  {
    hide Sees;
    if FindRelation(s, name).None? && name !in d.cache {
      PushSees(s, d.ops, InternRelation(name, d.next), id, key, pid, typ, value, gone);
    }
  }

  // The pointer is one of an object's loops of that relation.
  ghost predicate Retires(s: Snapshot, count: nat, oid: ObjectId, relation: nat, pid: nat)
    requires count <= |s.pointers|
  {
    exists i :: 0 <= i < count && PriorEdge(s.pointers[i], oid, relation, s.epoch) && s.pointers[i].id == pid
  }

  lemma {:induction false} ExpirationsSees(s: Snapshot, ops: Delta, oid: ObjectId, relation: nat, count: nat,
                                           id: ObjectId, key: string, pid: nat, typ: Option<nat>,
                                           value: Option<Value>, gone: bool)
    requires count <= |s.pointers| && Sees(s, ops, id, key, pid, typ, value, gone)
    ensures Sees(s, ops + Expirations(s.pointers[..count], oid, relation, s.epoch), id, key, pid, typ, value,
                 gone || Retires(s, count, oid, relation, pid))
    decreases count
  {
    hide Sees, PriorEdge;
    if count == 0 {
      assert ops + [] == ops;
    } else {
      var last := count - 1;
      var p, before := s.pointers[last], Expirations(s.pointers[..last], oid, relation, s.epoch);
      ExpirationsSees(s, ops, oid, relation, last, id, key, pid, typ, value, gone);
      assert s.pointers[..count][..last] == s.pointers[..last];
      if PriorEdge(p, oid, relation, s.epoch) {
        assert ops + (before + [ExpirePointer(p.id)]) == ops + before + [ExpirePointer(p.id)];
        PushSees(s, ops + before, ExpirePointer(p.id), id, key, pid, typ, value,
          gone || Retires(s, last, oid, relation, pid));
      } else {
        assert before + [] == before;
      }
    }
  }

  lemma ActSees(s: Snapshot, d: Draft, o: Object, action: Action, id: ObjectId, key: string, pid: nat,
                typ: Option<nat>, value: Option<Value>, gone: bool)
    requires Sees(s, d.ops, id, key, pid, typ, value, gone) && Contains(s, o.id)
    ensures Sees(s, Act(s, d, o, action).ops, id, key, pid, typ,
                 if o.id == id && action.SetAction? && action.key == key && action.eval(o.attributes).Some?
                 then action.eval(o.attributes) else value,
                 gone)
  {
    hide Sees, Contains, FindRelation, FindNamed;
    match action
    case SetAction(k, eval) =>
      if eval(o.attributes).Some? {
        PushSees(s, d.ops, SetObjectAttribute(ById(o.id), Attribute(k, eval(o.attributes).value)), id, key, pid, typ,
          value, gone);
      }
    case EmitAction(target, relation, _, _, _) =>
      if FindNamed(s.objects, target).Some? {
        InternedSees(s, d, relation, id, key, pid, typ, value, gone);
        PushSees(s, Interned(s, d, relation).ops,
          EmittedEdge(o.id, FindNamed(s.objects, target).value, RelationIn(s, d, relation), action), id, key, pid, typ,
          value, gone);
      }
  }

  function SetTo(o: Object, actions: seq<Action>, id: ObjectId, key: string, value: Option<Value>): Option<Value> {
    if o.id == id && LastSet(actions, o.attributes, key).Some? then LastSet(actions, o.attributes, key) else value
  }

  lemma {:induction false} ActAllSees(s: Snapshot, d: Draft, o: Object, actions: seq<Action>, id: ObjectId,
                                      key: string, pid: nat, typ: Option<nat>, value: Option<Value>, gone: bool)
    requires Sees(s, d.ops, id, key, pid, typ, value, gone) && Contains(s, o.id)
    ensures Sees(s, ActAll(s, d, o, actions).ops, id, key, pid, typ, SetTo(o, actions, id, key, value), gone)
    decreases |actions|
  {
    hide Sees, Contains, Act;
    if actions != [] {
      var last := |actions| - 1;
      ActAllSees(s, d, o, actions[..last], id, key, pid, typ, value, gone);
      ActSees(s, ActAll(s, d, o, actions[..last]), o, actions[last], id, key, pid, typ,
        SetTo(o, actions[..last], id, key, value), gone);
    }
  }

  lemma TransformedSees(m: Morphism, s: Snapshot, d: Draft, o: Object, id: ObjectId, key: string, pid: nat,
                        typ: Option<nat>, value: Option<Value>, gone: bool)
    requires m.Defined? && Sees(s, d.ops, id, key, pid, typ, value, gone) && Contains(s, o.id)
    ensures Sees(s, Transformed(m, s, d, o).ops, id, key, pid,
                 if o.id == id && m.signature.domain != m.signature.codomain then Some(m.signature.codomain) else typ,
                 SetTo(o, m.actions, id, key, value),
                 gone || Retires(s, |s.pointers|, o.id, RelationIn(s, d, "morphism." + m.name), pid))
  {
    hide Sees, Contains, Retires, ActAll, FindRelation, SetTo, Expirations;
    var name := "morphism." + m.name;
    var self, known := RelationIn(s, d, name), Interned(s, d, name);
    InternedSees(s, d, name, id, key, pid, typ, value, gone);
    ExpirationsSees(s, known.ops, o.id, self, |s.pointers|, id, key, pid, typ, value, gone);
    assert s.pointers[..|s.pointers|] == s.pointers;
    var expired := known.(ops := known.ops + Expirations(s.pointers, o.id, self, s.epoch));
    var gone' := gone || Retires(s, |s.pointers|, o.id, self, pid);
    var retyped, typ' := expired, typ;
    if m.signature.domain != m.signature.codomain {
      var op := SetObjectType(ById(o.id), m.signature.codomain);
      PushSees(s, expired.ops, op, id, key, pid, typ, value, gone');
      retyped, typ' := Push(expired, op), if o.id == id then Some(m.signature.codomain) else typ;
    }
    PushSees(s, retyped.ops, SelfLoop(o.id, self), id, key, pid, typ', value, gone');
    ActAllSees(s, Push(retyped, SelfLoop(o.id, self)), o, m.actions, id, key, pid, typ', value, gone');
  }

  // ---- over the whole selection

  ghost predicate Chosen(m: Morphism, s: Snapshot, selection: seq<ObjectId>, o: Object)
    requires m.Defined?
  {
    o.id in selection && o.typ == m.signature.domain
  }

  ghost predicate Gone(m: Morphism, s: Snapshot, selection: seq<ObjectId>, pid: nat)
    requires m.Defined?
  {
    exists j :: 0 <= j < |s.pointers| && s.pointers[j].id == pid && PriorLoop(m, s, selection, s.pointers[j])
  }

  // A selected object is one of the domain type.
  lemma SelectedIs(m: Morphism, s: Snapshot, id: ObjectId)
    requires m.Defined? && WellFormed(s)
    ensures Selected(m, s, id) <==> OfDomain(m, s, id)
    ensures forall i :: 0 <= i < |s.objects| && s.objects[i].id == id ==>
              (OfDomain(m, s, id) <==> s.objects[i].typ == m.signature.domain)
    ensures Selected(m, s, id) ==>
              FindObject(s.objects, id).Some? && s.objects[FindObject(s.objects, id).value].id == id
  {
    hide PointersOk, SymbolsOk, FindId;
  }

  // The relation of the morphism, as the draft knows it, is the one of that name.
  lemma RelationIs(s: Snapshot, d: Draft, typ: nat, name: string, relation: nat)
    requires WellFormed(s) && DraftOk(s, d, typ) && relation in s.relationNames
    ensures relation == RelationIn(s, d, name) <==> s.relationNames[relation] == name
  {
    hide Run, Tame, RetypesTo, StateOk, Extends, ObjectsOk, PointersOk;
    FindRelationExact(s, name);
    var names := Run(Start(s), d.ops).value.snap.relationNames;
    assert CacheOk(s, d, names);
  }

  lemma RetiresIs(m: Morphism, s: Snapshot, d: Draft, id: ObjectId, pid: nat)
    requires m.Defined? && WellFormed(s) && DraftOk(s, d, m.signature.codomain) && OfDomain(m, s, id)
    ensures Retires(s, |s.pointers|, id, RelationIn(s, d, "morphism." + m.name), pid) <==> Gone(m, s, [id], pid)
  {
    hide DraftOk, RelationIn, OfDomain, ActiveAt;
    var relation := RelationIn(s, d, "morphism." + m.name);
    forall j | 0 <= j < |s.pointers|
      ensures PriorEdge(s.pointers[j], id, relation, s.epoch) <==> PriorLoop(m, s, [id], s.pointers[j])
    {
      assert PointerOk(s.pointers[j], IdSet(s.objects), s.relationNames, s.epoch);
      RelationIs(s, d, m.signature.codomain, "morphism." + m.name, s.pointers[j].relation);
    }
  }

  lemma GoneMore(m: Morphism, s: Snapshot, selection: seq<ObjectId>, id: ObjectId, pid: nat)
    requires m.Defined?
    ensures Gone(m, s, selection + [id], pid) <==>
            Gone(m, s, selection, pid) || (OfDomain(m, s, id) && Gone(m, s, [id], pid))
  {
    hide OfDomain, ActiveAt;
    forall p
      ensures PriorLoop(m, s, selection + [id], p) <==> PriorLoop(m, s, selection, p) || PriorLoop(m, s, [id], p)
    {
    }
    if Gone(m, s, selection, pid) {
      var j :| 0 <= j < |s.pointers| && s.pointers[j].id == pid && PriorLoop(m, s, selection, s.pointers[j]);
      assert PriorLoop(m, s, selection + [id], s.pointers[j]);
    }
    if Gone(m, s, [id], pid) {
      var j :| 0 <= j < |s.pointers| && s.pointers[j].id == pid && PriorLoop(m, s, [id], s.pointers[j]);
      assert PriorLoop(m, s, selection + [id], s.pointers[j]);
    }
  }

  ghost predicate SeesAll(m: Morphism, s: Snapshot, selection: seq<ObjectId>, ops: Delta, o: Object, key: string,
                          pid: nat)
    requires m.Defined?
  {
    var chosen := Chosen(m, s, selection, o);
    Sees(s, ops, o.id, key, pid,
         if chosen && m.signature.domain != m.signature.codomain then Some(m.signature.codomain) else None,
         if chosen then LastSet(m.actions, o.attributes, key) else None,
         Gone(m, s, selection, pid))
  }

  lemma {:induction false} SelectionSees(m: Morphism, s: Snapshot, selection: seq<ObjectId>, i: nat, key: string,
                                         pid: nat)
    requires m.Defined? && WellFormed(s) && MorphismOk(m, s.typeNames) && i < |s.objects|
    ensures SeesAll(m, s, selection, TransformedAll(m, s, EmptyDraft(s), selection).ops, s.objects[i], key, pid)
    decreases |selection|
  {
    hide Sees, WellFormed, DraftOk, Selected, OfDomain, Transformed, Gone, EmptyDraft, MorphismOk, Retires;
    var o, typ := s.objects[i], m.signature.codomain;
    if selection == [] {
      NothingSees(m, s, o, key, pid);
    } else {
      var last := |selection| - 1;
      var id, rest := selection[last], selection[..last];
      var d := TransformedAll(m, s, EmptyDraft(s), rest);
      assert selection == rest + [id];
      SelectionSees(m, s, rest, i, key, pid);
      EmptyDraftOk(s, typ);
      TransformedAllOk(m, s, EmptyDraft(s), rest);
      SelectedIs(m, s, id);
      GoneMore(m, s, rest, id, pid);
      if Selected(m, s, id) {
        var at := s.objects[FindObject(s.objects, id).value];
        RetiresIs(m, s, d, id, pid);
        var chosen := Chosen(m, s, rest, o);
        SameObject(s, at, i);
        TransformedSees(m, s, d, at, o.id, key, pid,
          if chosen && m.signature.domain != typ then Some(typ) else None,
          if chosen then LastSet(m.actions, o.attributes, key) else None,
          Gone(m, s, rest, pid));
      }
    }
  }

  lemma SameObject(s: Snapshot, o: Object, i: nat)
    requires WellFormed(s) && o in s.objects && i < |s.objects|
    ensures o.id == s.objects[i].id ==> o == s.objects[i]
    ensures Contains(s, o.id)
  {
    hide PointersOk, SymbolsOk;
  }

  lemma NothingSees(m: Morphism, s: Snapshot, o: Object, key: string, pid: nat)
    requires m.Defined?
    ensures SeesAll(m, s, [], EmptyDraft(s).ops, o, key, pid)
  {
  }

  // ---- the edges

  // A pointer the delta makes, as an edge; its relation is one the draft knows.
  ghost predicate EdgeMade(s: Snapshot, d: Draft, e: Edge, p: Pointer) {
    && p.from == e.from && p.to == e.to && p.role == e.role && p.weight == e.weight
    && p.relation == RelationIn(s, d, e.relation)
    && p.lawDomain == "morphism" && p.bornAt == s.epoch + 1 && p.expiresAt == None && p.attributes == []
  }

  ghost predicate Knows(s: Snapshot, d: Draft, name: string) {
    name in s.relationNames.Values || name in d.cache
  }

  // The links of the draft are the edges; it has cached names of theirs and of `more`, and
  // it has no events.
  ghost predicate Makes(s: Snapshot, d: Draft, edges: seq<Edge>, more: set<string>) {
    && Those(d.ops, IsEvent) == []
    && |NewPointers(s, d.ops)| == |edges|
    && (forall j :: 0 <= j < |edges| ==>
          Knows(s, d, edges[j].relation) && EdgeMade(s, d, edges[j], NewPointers(s, d.ops)[j]))
    && (forall n :: n in d.cache ==> n in more || exists j :: 0 <= j < |edges| && edges[j].relation == n)
  }

  lemma InternedMakes(s: Snapshot, d: Draft, edges: seq<Edge>, more: set<string>, name: string)
    requires Makes(s, d, edges, more)
    ensures Makes(s, Interned(s, d, name), edges, more + {name})
    ensures Knows(s, Interned(s, d, name), name)
    ensures RelationIn(s, Interned(s, d, name), name) == RelationIn(s, d, name)
  {
    hide FindRelation;
    FindRelationExact(s, name);
    forall n ensures FindRelation(s, n).Some? <==> n in s.relationNames.Values {
      FindRelationExact(s, n);
    }
    var next := Interned(s, d, name);
    if next != d {
      assert Init(next.ops) == d.ops && NewPointers(s, next.ops) == NewPointers(s, d.ops) + [];
      NoEvent(d.ops, InternRelation(name, d.next));
    }
    forall j | 0 <= j < |edges|
      ensures Knows(s, next, edges[j].relation) && EdgeMade(s, next, edges[j], NewPointers(s, next.ops)[j])
    {
      assert EdgeMade(s, d, edges[j], NewPointers(s, d.ops)[j]);
    }
  }

  lemma NoEvent(ops: Delta, op: Op)
    requires Those(ops, IsEvent) == [] && !op.EmitEvent?
    ensures Those(ops + [op], IsEvent) == []
  {
    ThoseAppend(ops, [op], IsEvent);
  }

  lemma PushMakes(s: Snapshot, d: Draft, edges: seq<Edge>, more: set<string>, op: Op)
    requires Makes(s, d, edges, more) && !op.CreatePointer? && !op.EmitEvent?
    ensures Makes(s, Push(d, op), edges, more)
  {
    hide FindRelation;
    assert Init(d.ops + [op]) == d.ops;
    NoEvent(d.ops, op);
    forall j | 0 <= j < |edges|
      ensures Knows(s, Push(d, op), edges[j].relation)
      ensures EdgeMade(s, Push(d, op), edges[j], NewPointers(s, d.ops)[j])
    {
      assert EdgeMade(s, d, edges[j], NewPointers(s, d.ops)[j]);
    }
  }

  lemma LinkMakes(s: Snapshot, d: Draft, edges: seq<Edge>, more: set<string>, op: Op, e: Edge)
    requires Makes(s, d, edges, more) && Knows(s, d, e.relation)
    requires op == CreatePointer(ById(e.from), ById(e.to), RelationIn(s, d, e.relation), e.role, e.weight, "morphism",
                                 [])
    requires Contains(s, e.from) && Contains(s, e.to)
    ensures Makes(s, Push(d, op), edges + [e], more - {e.relation})
  {
    hide FindRelation;
    var next, all := Push(d, op), edges + [e];
    assert Init(next.ops) == d.ops && Last(next.ops) == op;
    NoEvent(d.ops, op);
    var made := NewPointers(s, next.ops);
    assert made == NewPointers(s, d.ops) + [NewestPointer(s, next.ops)];
    forall j | 0 <= j < |all| ensures Knows(s, next, all[j].relation) && EdgeMade(s, next, all[j], made[j]) {
      if j < |edges| {
        assert EdgeMade(s, d, edges[j], NewPointers(s, d.ops)[j]);
      }
    }
    forall n | n in d.cache && n !in more - {e.relation} ensures exists j :: 0 <= j < |all| && all[j].relation == n {
      if n == e.relation {
        assert all[|edges|].relation == n;
      } else {
        var j :| 0 <= j < |edges| && edges[j].relation == n;
        assert all[j].relation == n;
      }
    }
  }

  lemma {:induction false} ExpirationsMake(s: Snapshot, d: Draft, edges: seq<Edge>, more: set<string>, oid: ObjectId,
                                           relation: nat, count: nat)
    requires count <= |s.pointers| && Makes(s, d, edges, more)
    ensures Makes(s, d.(ops := d.ops + Expirations(s.pointers[..count], oid, relation, s.epoch)), edges, more)
    decreases count
  {
    hide Makes, PriorEdge;
    if count == 0 {
      assert d.ops + [] == d.ops;
    } else {
      var last := count - 1;
      var p, before := s.pointers[last], Expirations(s.pointers[..last], oid, relation, s.epoch);
      ExpirationsMake(s, d, edges, more, oid, relation, last);
      assert s.pointers[..count][..last] == s.pointers[..last];
      if PriorEdge(p, oid, relation, s.epoch) {
        assert d.ops + (before + [ExpirePointer(p.id)]) == d.ops + before + [ExpirePointer(p.id)];
        PushMakes(s, d.(ops := d.ops + before), edges, more, ExpirePointer(p.id));
      } else {
        assert before + [] == before;
      }
    }
  }

  lemma TargetIs(s: Snapshot, name: string)
    requires WellFormed(s)
    ensures FindNamed(s.objects, name) == TargetOf(s, name)
    ensures TargetOf(s, name).Some? ==> Contains(s, TargetOf(s, name).value)
  {
    hide PointersOk, SymbolsOk;
    NamedNone(s.objects, name);
  }

  lemma {:induction false} NamedNone(objects: seq<Object>, name: string)
    ensures FindNamed(objects, name).None? ==> forall i :: 0 <= i < |objects| ==> objects[i].name != name
  {
    if objects != [] {
      NamedNone(objects[1..], name);
      assert forall i :: 1 <= i < |objects| ==> objects[i] == objects[1..][i - 1];
    }
  }

  lemma ActMakes(s: Snapshot, d: Draft, edges: seq<Edge>, o: Object, action: Action)
    requires WellFormed(s) && Contains(s, o.id) && Makes(s, d, edges, {})
    ensures Makes(s, Act(s, d, o, action), edges + EmittedBy(s, o.id, action), {})
  {
    hide Makes, Knows, RelationIn, Interned, WellFormed, FindNamed, TargetOf, Contains;
    assert edges + [] == edges;
    match action
    case SetAction(key, eval) =>
      if eval(o.attributes).Some? {
        PushMakes(s, d, edges, {}, SetObjectAttribute(ById(o.id), Attribute(key, eval(o.attributes).value)));
      }
    case EmitAction(target, relation, _, _, _) =>
      TargetIs(s, target);
      if TargetOf(s, target).Some? {
        InternedMakes(s, d, edges, {}, relation);
        LinkMakes(s, Interned(s, d, relation), edges, {} + {relation},
          EmittedEdge(o.id, TargetOf(s, target).value, RelationIn(s, d, relation), action),
          EmittedBy(s, o.id, action)[0]);
        assert {} + {relation} - {relation} == {};
      }
  }

  lemma {:induction false} ActAllMakes(s: Snapshot, d: Draft, edges: seq<Edge>, o: Object, actions: seq<Action>)
    requires WellFormed(s) && Contains(s, o.id) && Makes(s, d, edges, {})
    ensures Makes(s, ActAll(s, d, o, actions), edges + EmittedEdges(s, o.id, actions), {})
    decreases |actions|
  {
    hide Makes, Act, WellFormed, Contains, EmittedBy;
    if actions == [] {
      assert edges + [] == edges;
    } else {
      var last := |actions| - 1;
      var before := EmittedEdges(s, o.id, actions[..last]);
      ActAllMakes(s, d, edges, o, actions[..last]);
      ActMakes(s, ActAll(s, d, o, actions[..last]), edges + before, o, actions[last]);
      assert edges + (before + EmittedBy(s, o.id, actions[last])) == edges + before + EmittedBy(s, o.id, actions[last]);
    }
  }

  lemma TransformedMakes(m: Morphism, s: Snapshot, d: Draft, edges: seq<Edge>, o: Object)
    requires m.Defined? && WellFormed(s) && Contains(s, o.id) && Makes(s, d, edges, {})
    ensures Makes(s, Transformed(m, s, d, o),
                  edges + ([Edge(o.id, o.id, "morphism." + m.name, Transformative, WEIGHT_ONE)] +
                  EmittedEdges(s, o.id, m.actions)), {})
  {
    hide Makes, Knows, RelationIn, Interned, WellFormed, Contains, ActAll, Expirations, EmittedEdges;
    var name := "morphism." + m.name;
    var self, known := RelationIn(s, d, name), Interned(s, d, name);
    InternedMakes(s, d, edges, {}, name);
    ExpirationsMake(s, known, edges, {} + {name}, o.id, self, |s.pointers|);
    assert s.pointers[..|s.pointers|] == s.pointers;
    var expired := known.(ops := known.ops + Expirations(s.pointers, o.id, self, s.epoch));
    var op := SetObjectType(ById(o.id), m.signature.codomain);
    PushMakes(s, expired, edges, {} + {name}, op);
    var retyped := if m.signature.domain != m.signature.codomain then Push(expired, op) else expired;
    var loop := Edge(o.id, o.id, name, Transformative, WEIGHT_ONE);
    SameCache(s, known, retyped, name);
    LinkMakes(s, retyped, edges, {} + {name}, SelfLoop(o.id, self), loop);
    assert {} + {name} - {name} == {};
    ActAllMakes(s, Push(retyped, SelfLoop(o.id, self)), edges + [loop], o, m.actions);
    assert edges + [loop] + EmittedEdges(s, o.id, m.actions) == edges + ([loop] + EmittedEdges(s, o.id, m.actions));
  }

  lemma SameCache(s: Snapshot, d: Draft, e: Draft, name: string)
    requires e.cache == d.cache && e.next == d.next
    ensures RelationIn(s, e, name) == RelationIn(s, d, name) && (Knows(s, e, name) <==> Knows(s, d, name))
  {
    hide FindRelation;
  }

  lemma {:induction false} SelectionMakes(m: Morphism, s: Snapshot, selection: seq<ObjectId>)
    requires m.Defined? && WellFormed(s)
    ensures Makes(s, TransformedAll(m, s, EmptyDraft(s), selection), NewEdges(m, s, selection), {})
    decreases |selection|
  {
    hide Makes, WellFormed, Contains, Selected, OfDomain, Transformed, EmittedEdges, EmptyDraft, FindObject;
    if selection == [] {
      NothingMakes(s);
    } else {
      var last := |selection| - 1;
      var id := selection[last];
      var d, edges := TransformedAll(m, s, EmptyDraft(s), selection[..last]), NewEdges(m, s, selection[..last]);
      SelectionMakes(m, s, selection[..last]);
      SelectedIs(m, s, id);
      if Selected(m, s, id) {
        var i := FindObject(s.objects, id).value;
        SameObject(s, s.objects[i], i);
        TransformedMakes(m, s, d, edges, s.objects[i]);
      } else {
        assert edges + [] == edges;
      }
    }
  }

  lemma NothingMakes(s: Snapshot)
    ensures Makes(s, EmptyDraft(s), [], {})
  {
  }

  // ---- the result

  lemma {:induction false} NoNewObjects(s: Snapshot, ops: Delta, ids: set<ObjectId>)
    requires Tame(ops, ids)
    ensures NewObjects(s, ops) == []
    decreases |ops|
  {
    if ops != [] {
      NoNewObjects(s, Init(ops), ids);
      assert OpTame(ops[|ops| - 1], ids);
    }
  }

  lemma AlikeMultisets(a: seq<Attribute>, b: seq<Attribute>)
    requires forall key :: SaysAlike(a, b, key)
    ensures multiset(a) == multiset(b)
  {
    forall x: Attribute ensures multiset(a)[x] == multiset(b)[x] {
      assert SaysAlike(a, b, x.key) && x == Attribute(x.key, x.value);
    }
  }

  lemma ObjectIsDone(m: Morphism, s: Snapshot, selection: seq<ObjectId>, ops: Delta, i: nat, now: Object)
    requires m.Defined? && i < |s.objects|
    requires forall key, pid :: SeesAll(m, s, selection, ops, s.objects[i], key, pid)
    requires ObjectAfter(s, ops, s.objects[i], now)
    ensures ObjectDone(m, s, selection, s.objects[i], now)
  {
    hide Gone, Says, SaysAlike, LastSet;
    var o := s.objects[i];
    assert SeesAll(m, s, selection, ops, o, "", 0);
    forall key
      ensures !Chosen(m, s, selection, o) ==> SaysAlike(now.attributes, o.attributes, key)
      ensures Chosen(m, s, selection, o) ==>
              ValueDone(LastSet(m.actions, o.attributes, key), key, o.attributes, now.attributes)
    {
      assert SeesAll(m, s, selection, ops, o, key, 0);
      assert ValueAfter(o.attributes, LastValue(s, ops, o.id, key), key, now.attributes);
    }
    if !Chosen(m, s, selection, o) {
      AlikeMultisets(now.attributes, o.attributes);
    }
  }

  // Nothing but its expiry can have changed of a pointer.
  lemma PointerStays(m: Morphism, s: Snapshot, selection: seq<ObjectId>, ops: Delta, i: nat, first: Pointer,
                     now: Pointer)
    requires m.Defined? && i < |s.objects|
    requires forall key, pid :: SeesAll(m, s, selection, ops, s.objects[i], key, pid)
    requires PointerAfter(s, ops, first, now)
    ensures now == first.(expiresAt := now.expiresAt, attributes := now.attributes)
    ensures now.expiresAt == if Gone(m, s, selection, first.id) then Some(s.epoch + 1) else first.expiresAt
    ensures multiset(now.attributes) == multiset(first.attributes)
  {
    hide Gone, Says, SaysAlike, LastSet, LastType, LastValue;
    var o := s.objects[i];
    assert SeesAll(m, s, selection, ops, o, "", first.id);
    forall key ensures SaysAlike(now.attributes, first.attributes, key) {
      assert SeesAll(m, s, selection, ops, o, key, first.id);
      assert ValueAfter(first.attributes, LastPointerValue(ops, now.id, key), key, now.attributes);
    }
    AlikeMultisets(now.attributes, first.attributes);
  }

  lemma GoneIs(m: Morphism, s: Snapshot, selection: seq<ObjectId>, i: nat)
    requires m.Defined? && WellFormed(s) && i < |s.pointers|
    ensures Gone(m, s, selection, s.pointers[i].id) <==> PriorLoop(m, s, selection, s.pointers[i])
  {
    hide ObjectsOk, SymbolsOk, PriorLoop;
  }

  lemma NotGone(m: Morphism, s: Snapshot, selection: seq<ObjectId>, pid: nat)
    requires m.Defined? && pid >= NextPointer(s.pointers)
    ensures !Gone(m, s, selection, pid)
  {
    hide PriorLoop;
    NextPointerAbove(s.pointers);
  }

  lemma {:induction false} NewPointerIds(s: Snapshot, ops: Delta)
    ensures forall j :: 0 <= j < |NewPointers(s, ops)| ==> NewPointers(s, ops)[j].id >= NextPointer(s.pointers)
    decreases |ops|
  {
    hide NextPointer, Named;
    if ops != [] {
      NewPointerIds(s, Init(ops));
    }
  }

  lemma EdgeIsDone(s: Snapshot, d: Draft, after: Snapshot, e: Edge, first: Pointer, now: Pointer)
    requires Knows(s, d, e.relation) && EdgeMade(s, d, e, first) && CacheOk(s, d, after.relationNames)
    requires now == first.(attributes := now.attributes) && multiset(now.attributes) == multiset(first.attributes)
    ensures EdgeDone(s, after, e, now)
  {
    FindRelationExact(s, e.relation);
    assert |multiset(now.attributes)| == |now.attributes|;
  }

  lemma NamesDone(s: Snapshot, d: Draft, edges: seq<Edge>, names: map<nat, string>)
    requires CacheOk(s, d, names) && Makes(s, d, edges, {})
    ensures NamesExtend(s.relationNames, names)
    ensures names.Values == s.relationNames.Values + (set e | e in edges :: e.relation)
  {
    hide EdgeMade, NewPointers;
    var made := set e | e in edges :: e.relation;
    forall n | n in names.Values ensures n in s.relationNames.Values + made {
      var id :| id in names && names[id] == n;
      if id !in s.relationNames {
        var j :| 0 <= j < |edges| && edges[j].relation == n;
        assert edges[j] in edges;
      }
    }
    forall n | n in s.relationNames.Values + made ensures n in names.Values {
      if n in s.relationNames.Values {
        var id :| id in s.relationNames && s.relationNames[id] == n;
        assert names[id] == n;
      } else {
        var e :| e in edges && e.relation == n;
        assert Knows(s, d, e.relation);
        assert names[d.cache[n]] == n;
      }
    }
  }

  lemma AllSeen(m: Morphism, s: Snapshot, selection: seq<ObjectId>, i: nat)
    requires m.Defined? && WellFormed(s) && MorphismOk(m, s.typeNames) && i < |s.objects|
    ensures var ops := TransformedAll(m, s, EmptyDraft(s), selection).ops;
            forall key, pid :: SeesAll(m, s, selection, ops, s.objects[i], key, pid)
  {
    hide SeesAll, WellFormed, MorphismOk;
    var ops := TransformedAll(m, s, EmptyDraft(s), selection).ops;
    forall key, pid ensures SeesAll(m, s, selection, ops, s.objects[i], key, pid) {
      SelectionSees(m, s, selection, i, key, pid);
    }
  }

  lemma SelectionDone(m: Morphism, s: Snapshot, selection: seq<ObjectId>, after: Snapshot)
    requires m.Defined? && WellFormed(s) && MorphismOk(m, s.typeNames)
    requires var d := TransformedAll(m, s, EmptyDraft(s), selection);
             && Tame(d.ops, IdSet(s.objects)) && CacheOk(s, d, after.relationNames)
             && ObjectsAfter(s, d.ops, after.objects) && PointersAfter(s, d.ops, after.pointers)
    requires after.typeNames == s.typeNames && (after.pointers != [] ==> s.objects != [])
    ensures Done(m, s, selection, after)
  {
    hide WellFormed, MorphismOk, Tame, ObjectAfter, PointerAfter, SeesAll, Makes, NewEdges, EdgeMade, EmptyDraft,
         PriorLoop, Gone, ObjectDone, CacheOk, EdgeDone, TransformedAll, NewPointers, NewObjects, Knows;
    var d := TransformedAll(m, s, EmptyDraft(s), selection);
    var edges, made := NewEdges(m, s, selection), NewPointers(s, d.ops);
    NoNewObjects(s, d.ops, IdSet(s.objects));
    SelectionMakes(m, s, selection);
    NamesDone(s, d, edges, after.relationNames);
    forall i | 0 <= i < |s.objects| ensures ObjectDone(m, s, selection, s.objects[i], after.objects[i]) {
      AllSeen(m, s, selection, i);
      assert ObjectAfter(s, d.ops, (s.objects + [])[i], after.objects[i]);
      ObjectIsDone(m, s, selection, d.ops, i, after.objects[i]);
    }
    MakesLength(s, d, edges);
    forall i | 0 <= i < |s.pointers| ensures PointerDone(m, s, selection, s.pointers[i], after.pointers[i]) {
      AllSeen(m, s, selection, 0);
      assert PointerAfter(s, d.ops, (s.pointers + made)[i], after.pointers[i]);
      PointerStays(m, s, selection, d.ops, 0, s.pointers[i], after.pointers[i]);
      GoneIs(m, s, selection, i);
    }
    NewPointerIds(s, d.ops);
    forall j | 0 <= j < |edges| ensures EdgeDone(s, after, edges[j], after.pointers[|s.pointers| + j]) {
      AllSeen(m, s, selection, 0);
      var first, now := made[j], after.pointers[|s.pointers| + j];
      assert PointerAfter(s, d.ops, (s.pointers + made)[|s.pointers| + j], now);
      PointerStays(m, s, selection, d.ops, 0, first, now);
      NotGone(m, s, selection, first.id);
      MadeAt(s, d, edges, j);
      EdgeIsDone(s, d, after, edges[j], first, now);
    }
  }

  lemma MakesLength(s: Snapshot, d: Draft, edges: seq<Edge>)
    requires Makes(s, d, edges, {})
    ensures |NewPointers(s, d.ops)| == |edges|
  {
  }

  lemma MadeAt(s: Snapshot, d: Draft, edges: seq<Edge>, j: nat)
    requires Makes(s, d, edges, {}) && j < |edges|
    ensures Knows(s, d, edges[j].relation) && EdgeMade(s, d, edges[j], NewPointers(s, d.ops)[j])
  {
  }

  // Applying a defined morphism. Selected objects of the domain type get the codomain and,
  // for each key, the value its last set action gives; the loops of earlier applications at
  // them expire; per selected occurrence there is a new loop and the edges of its emit
  // actions, in order. Nothing else changes.
  lemma DefinedEffect(m: Morphism, s: Snapshot, selection: seq<ObjectId>)
    requires m.Defined? && WellFormed(s) && MorphismOk(m, s.typeNames)
    ensures Apply(s, DefinedDelta(m, s, selection)).Ok?
    ensures Done(m, s, selection, Apply(s, DefinedDelta(m, s, selection)).value)
    ensures Those(DefinedDelta(m, s, selection), IsEvent) == [Traced("morphism.apply")]
  {
    hide WellFormed, MorphismOk, Run, Done, Tame, Makes, NewEdges, ObjectsAfter, PointersAfter, CacheOk, StateOk,
         Extends, TransformedAll, Those, RetypesTo, Recount;
    var d := TransformedAll(m, s, EmptyDraft(s), selection);
    EmptyDraftOk(s, m.signature.codomain);
    TransformedAllOk(m, s, EmptyDraft(s), selection);
    TraceIdle(s, d.ops, "morphism.apply");
    Effect(s, d.ops);
    ApplyKeeps(s, d.ops);
    var after := Apply(s, d.ops).value;
    RecountFrame(Run(Start(s), d.ops).value.snap);
    EnoughObjects(s, d.ops, after);
    SelectionDone(m, s, selection, after);
    SelectionMakes(m, s, selection);
    OneEvent(s, d, NewEdges(m, s, selection));
  }

  lemma OneEvent(s: Snapshot, d: Draft, edges: seq<Edge>)
    requires Makes(s, d, edges, {})
    ensures Those(d.ops + [Traced("morphism.apply")], IsEvent) == [Traced("morphism.apply")]
  {
    ThoseAppend(d.ops, [Traced("morphism.apply")], IsEvent);
  }

  lemma RecountFrame(s: Snapshot)
    ensures Recount(s).typeNames == s.typeNames && Recount(s).relationNames == s.relationNames
  {
  }

  lemma EnoughObjects(s: Snapshot, ops: Delta, after: Snapshot)
    requires WellFormed(after) && Tame(ops, IdSet(s.objects)) && ObjectsAfter(s, ops, after.objects)
    ensures after.pointers != [] ==> s.objects != []
  {
    hide ObjectsOk, SymbolsOk;
    NoNewObjects(s, ops, IdSet(s.objects));
    if after.pointers != [] {
      assert PointerOk(after.pointers[0], IdSet(after.objects), after.relationNames, after.epoch);
    }
  }

  // ---- the events of any morphism

  function Trace(m: Morphism): Delta {
    match m
    case Identity(_) => [Traced("morphism.apply")]
    case Defined(_, _, _) => [Traced("morphism.apply")]
    case Composed(_, _, first, second) => Trace(first) + Trace(second) + [Traced("morphism.compose")]
  }

  // A composite passes on the events of its parts, in order, and adds its own.
  lemma {:induction false} TraceKept(m: Morphism, s: Snapshot, selection: seq<ObjectId>)
    requires WellFormed(s) && MorphismOk(m, s.typeNames)
    ensures Those(MorphismDelta(m, s, selection), IsEvent) == Trace(m)
    decreases m
  {
    hide WellFormed, DefinedDelta, Apply, Accepted, MergeSequential, Tame, TypeConflict;
    match m
    case Identity(_) =>
    case Defined(_, _, _) => DefinedEffect(m, s, selection);
    case Composed(_, _, first, second) =>
      var d1 := MorphismDelta(first, s, selection);
      CategoryProof.MorphismRuns(first, s, selection);
      CategoryProof.AcceptedKeeps(s, d1);
      var mid := Apply(s, d1).value;
      var narrowed := Project(selection, mid);
      var d2 := MorphismDelta(second, mid, narrowed);
      OkStays(second, s.typeNames, mid.typeNames);
      CategoryProof.MorphismRuns(second, mid, narrowed);
      TraceKept(first, s, selection);
      TraceKept(second, mid, narrowed);
      PartsFuse(s, d1, d2);
      var merged := MergeSequential(s, d1, d2).value;
      MergeShape.EventsAndAssertions(s, d1, d2);
      ThoseAppend(merged, [Traced("morphism.compose")], IsEvent);
  }

  lemma PartsFuse(s: Snapshot, d1: Delta, d2: Delta)
    requires WellFormed(s) && Accepted(s, d1) && Apply(s, d1).Ok? && Accepted(Apply(s, d1).value, d2)
    ensures MergeSequential(s, d1, d2).Ok?
  {
    hide WellFormed, Run, Step, TypeConflict, Tame, MergeSequential;
    CategoryProof.AcceptedKeeps(s, d1);
    FuseTame(s, d1, d2);
  }
}
