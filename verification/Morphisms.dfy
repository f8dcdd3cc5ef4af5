// Morphisms: retyping and rewiring of selected objects, and their composition.

module Morphisms {
  import opened Wrappers
  import opened Model
  import opened Overlay
  import opened OverlayApply
  import opened SequentialMerge

  datatype Signature = Signature(domain: nat, codomain: nat)

  // `eval` computes the new value from the attributes of the object, or declines:
  // an operand is missing or not a number, or a division by zero.
  datatype Action =
    | SetAction(key: string, eval: seq<Attribute> -> Option<Value>)
    | EmitAction(target: string, relation: string, role: Role, weight: Double, reverse: bool)

  datatype Morphism =
    | Identity(typ: nat)
    | Defined(name: string, signature: Signature, actions: seq<Action>)
    | Composed(name: string, signature: Signature, first: Morphism, second: Morphism)

  datatype CompositionError = DomainCodomainMismatch

  function NameOf(m: Morphism): string {
    if m.Identity? then "id" else m.name
  }

  function SignatureOf(m: Morphism): Signature {
    if m.Identity? then Signature(m.typ, m.typ) else m.signature
  }

  function Compose(g: Morphism, f: Morphism): Result<Morphism, CompositionError> {
    if SignatureOf(f).codomain != SignatureOf(g).domain then Err(DomainCodomainMismatch)
    else Ok(Composed(NameOf(g) + " after " + NameOf(f),
                     Signature(SignatureOf(f).domain, SignatureOf(g).codomain), f, g))
  }

  // ---- relation names to ids, allocating for the unseen

  // The least symbol from `i` up bound to the name.
  function FirstSymbol(names: map<nat, string>, name: string, i: nat, bound: nat): (r: Option<nat>)
    ensures r.Some? ==> r.value in names && names[r.value] == name
    ensures r.None? ==> forall k :: k in names && i <= k < bound ==> names[k] != name
    decreases bound - i
  {
    if i >= bound then None
    else if i in names && names[i] == name then Some(i)
    else FirstSymbol(names, name, i + 1, bound)
  }

  ghost function FindRelation(s: Snapshot, name: string): Option<nat> {
    FirstSymbol(s.relationNames, name, 0, NextSymbol(s.relationNames))
  }

  // The delta under construction together with the interner's cache and next free id.
  datatype Draft = Draft(ops: Delta, cache: map<string, nat>, next: nat)

  ghost function RelationIn(s: Snapshot, d: Draft, name: string): nat {
    match FindRelation(s, name)
    case Some(id) => id
    case None => if name in d.cache then d.cache[name] else d.next
  }

  ghost function Interned(s: Snapshot, d: Draft, name: string): Draft {
    if FindRelation(s, name).Some? || name in d.cache then d
    else Draft(d.ops + [InternRelation(name, d.next)], d.cache[name := d.next], d.next + 1)
  }

  function Push(d: Draft, op: Op): Draft {
    d.(ops := d.ops + [op])
  }

  // ---- a defined morphism on one object

  const WEIGHT_ONE: Double := 0x3FF0_0000_0000_0000

  predicate PriorEdge(p: Pointer, oid: ObjectId, relation: nat, epoch: nat) {
    p.from == oid && p.to == oid && p.relation == relation && p.lawDomain == "morphism" && ActiveAt(p, epoch)
  }

  function Expirations(pointers: seq<Pointer>, oid: ObjectId, relation: nat, epoch: nat): Delta {
    if pointers == [] then []
    else
      var last := |pointers| - 1;
      Expirations(pointers[..last], oid, relation, epoch) +
      (if PriorEdge(pointers[last], oid, relation, epoch) then [ExpirePointer(pointers[last].id)] else [])
  }

  // The first object of that name.
  function FindNamed(objects: seq<Object>, name: string): (r: Option<ObjectId>)
    ensures r.Some? ==> exists i :: 0 <= i < |objects| && objects[i].id == r.value && objects[i].name == name
  {
    if objects == [] then None
    else if objects[0].name == name then Some(objects[0].id)
    else
      var r := FindNamed(objects[1..], name);
      assert r.Some? ==>
        exists i :: 0 <= i < |objects[1..]| && objects[1..][i].id == r.value && objects[1..][i].name == name;
      r
  }

  function SelfLoop(oid: ObjectId, relation: nat): Op {
    CreatePointer(ById(oid), ById(oid), relation, Transformative, WEIGHT_ONE, "morphism", [])
  }

  function EmittedEdge(oid: ObjectId, target: ObjectId, relation: nat, action: Action): Op
    requires action.EmitAction?
  {
    CreatePointer(ById(if action.reverse then target else oid), ById(if action.reverse then oid else target),
                  relation, action.role, action.weight, "morphism", [])
  }

  // The change an action makes on the object, with a count of applied actions.
  ghost function Act(s: Snapshot, d: Draft, o: Object, action: Action): Draft {
    match action
    case SetAction(key, eval) =>
      (match eval(o.attributes)
       case None => d
       case Some(v) => Push(d, SetObjectAttribute(ById(o.id), Attribute(key, v))))
    case EmitAction(target, relation, _, _, _) =>
      (match FindNamed(s.objects, target)
       case None => d
       case Some(t) => Push(Interned(s, d, relation), EmittedEdge(o.id, t, RelationIn(s, d, relation), action)))
  }

  ghost function ActAll(s: Snapshot, d: Draft, o: Object, actions: seq<Action>): Draft {
    if actions == [] then d else Act(s, ActAll(s, d, o, actions[..|actions| - 1]), o, actions[|actions| - 1])
  }

  ghost function Transformed(m: Morphism, s: Snapshot, d: Draft, o: Object): Draft
    requires m.Defined?
  {
    var relation := "morphism." + m.name;
    var self := RelationIn(s, d, relation);
    var known := Interned(s, d, relation);
    var expired := known.(ops := known.ops + Expirations(s.pointers, o.id, self, s.epoch));
    var retyped := if m.signature.domain != m.signature.codomain
                   then Push(expired, SetObjectType(ById(o.id), m.signature.codomain)) else expired;
    ActAll(s, Push(retyped, SelfLoop(o.id, self)), o, m.actions)
  }

  // ---- a defined morphism on a selection; what is absent or of another type is skipped

  predicate Selected(m: Morphism, s: Snapshot, id: ObjectId)
    requires m.Defined?
  {
    var i := FindObject(s.objects, id);
    i.Some? && s.objects[i.value].typ == m.signature.domain
  }

  ghost function TransformedAll(m: Morphism, s: Snapshot, d: Draft, selection: seq<ObjectId>): Draft
    requires m.Defined?
  {
    if selection == [] then d
    else
      var last := |selection| - 1;
      var before := TransformedAll(m, s, d, selection[..last]);
      if Selected(m, s, selection[last])
      then Transformed(m, s, before, s.objects[FindObject(s.objects, selection[last]).value])
      else before
  }

  ghost function EmptyDraft(s: Snapshot): Draft {
    Draft([], map[], NextSymbol(s.relationNames))
  }

  // Trace events carry no effect on snapshots; only their names are kept here.
  function Traced(name: string): Op {
    EmitEvent(Event(name, map[], map[]))
  }

  ghost function DefinedDelta(m: Morphism, s: Snapshot, selection: seq<ObjectId>): Delta
    requires m.Defined?
  {
    TransformedAll(m, s, EmptyDraft(s), selection).ops + [Traced("morphism.apply")]
  }

  // ---- any morphism

  function Project(selection: seq<ObjectId>, s: Snapshot): seq<ObjectId> {
    if selection == [] then []
    else
      var last := |selection| - 1;
      Project(selection[..last], s) + (if Contains(s, selection[last]) then [selection[last]] else [])
  }

  const REJECTED: Delta := [Traced("morphism.compose.rejected")]

  ghost function MorphismDelta(m: Morphism, s: Snapshot, selection: seq<ObjectId>): Delta
    decreases m
  {
    match m
    case Identity(_) => [Traced("morphism.apply")]
    case Defined(_, _, _) => DefinedDelta(m, s, selection)
    case Composed(_, _, first, second) =>
      var d1 := MorphismDelta(first, s, selection);
      match Apply(s, d1)
      case Err(_) => REJECTED
      case Ok(mid) =>
        match MergeSequential(s, d1, MorphismDelta(second, mid, Project(selection, mid)))
        case Err(_) => REJECTED
        case Ok(merged) => merged + [Traced("morphism.compose")]
  }

  // ---- as it runs

  method FindRelationOf(s: Snapshot, name: string) returns (r: Option<nat>)
    ensures r == FindRelation(s, name)
  {
    var bound := NextSymbolOf(s.relationNames);
    for i := 0 to bound
      invariant FindRelation(s, name) == FirstSymbol(s.relationNames, name, i, bound)
    {
      if i in s.relationNames && s.relationNames[i] == name {
        return Some(i);
      }
    }
    return None;
  }

  class RelationInterner {
    const snapshot: Snapshot
    var delta: Delta
    var cache: map<string, nat>
    var next: nat

    ghost function Value(): Draft
      reads this
    {
      Draft(delta, cache, next)
    }

    constructor (s: Snapshot)
      ensures snapshot == s && Value() == EmptyDraft(s)
    {
      snapshot := s;
      delta, cache := [], map[];
      new;
      next := NextSymbolOf(s.relationNames);
    }

    method Intern(name: string) returns (relation: nat)
      modifies this
      ensures relation == RelationIn(snapshot, old(Value()), name)
      ensures Value() == Interned(snapshot, old(Value()), name)
    {
      var existing := FindRelationOf(snapshot, name);
      if existing.Some? {
        return existing.value;
      }
      if name in cache {
        return cache[name];
      }
      relation := next;
      next := next + 1;
      delta := delta + [InternRelation(name, relation)];
      cache := cache[name := relation];
    }

    method Append(op: Op)
      modifies this`delta
      ensures Value() == Push(old(Value()), op)
    {
      delta := delta + [op];
    }

    method ExpirePrior(oid: ObjectId, relation: nat)
      modifies this`delta
      ensures Value() == old(Value()).(ops := old(delta) +
              Expirations(snapshot.pointers, oid, relation, snapshot.epoch))
    {
      var pointers := snapshot.pointers;
      for k := 0 to |pointers|
        invariant delta == old(delta) + Expirations(pointers[..k], oid, relation, snapshot.epoch)
      {
        assert pointers[..k + 1][..k] == pointers[..k];
        if PriorEdge(pointers[k], oid, relation, snapshot.epoch) {
          delta := delta + [ExpirePointer(pointers[k].id)];
        }
      }
      assert pointers[..|pointers|] == pointers;
    }

    method RunAction(o: Object, action: Action)
      modifies this
      ensures Value() == Act(snapshot, old(Value()), o, action)
    {
      match action
      case SetAction(key, eval) =>
        var result := eval(o.attributes);
        if result.Some? {
          Append(SetObjectAttribute(ById(o.id), Attribute(key, result.value)));
        }
      case EmitAction(target, relation, _, _, _) =>
        var t := FindNamed(snapshot.objects, target);
        if t.Some? {
          var id := Intern(relation);
          Append(EmittedEdge(o.id, t.value, id, action));
        }
    }

    method RunActions(o: Object, actions: seq<Action>)
      modifies this
      ensures Value() == ActAll(snapshot, old(Value()), o, actions)
    {
      for k := 0 to |actions|
        invariant Value() == ActAll(snapshot, old(Value()), o, actions[..k])
      {
        assert actions[..k + 1][..k] == actions[..k];
        RunAction(o, actions[k]);
      }
      assert actions[..|actions|] == actions;
    }
  }

  method ApplyDefined(m: Morphism, s: Snapshot, selection: seq<ObjectId>) returns (delta: Delta)
    requires m.Defined?
    ensures delta == DefinedDelta(m, s, selection)
  {
    var draft := new RelationInterner(s);
    for k := 0 to |selection|
      invariant draft.snapshot == s && fresh(draft)
      invariant draft.Value() == TransformedAll(m, s, EmptyDraft(s), selection[..k])
    {
      assert selection[..k + 1][..k] == selection[..k];
      var at := FindObject(s.objects, selection[k]);
      if at.Some? && s.objects[at.value].typ == m.signature.domain {
        var o := s.objects[at.value];
        var self := draft.Intern("morphism." + m.name);
        draft.ExpirePrior(o.id, self);
        if m.signature.domain != m.signature.codomain {
          draft.Append(SetObjectType(ById(o.id), m.signature.codomain));
        }
        draft.Append(SelfLoop(o.id, self));
        draft.RunActions(o, m.actions);
      }
    }
    assert selection[..|selection|] == selection;
    draft.Append(Traced("morphism.apply"));
    delta := draft.delta;
  }

  method ProjectOf(selection: seq<ObjectId>, s: Snapshot) returns (out: seq<ObjectId>)
    ensures out == Project(selection, s)
  {
    out := [];
    for k := 0 to |selection|
      invariant out == Project(selection[..k], s)
    {
      assert selection[..k + 1][..k] == selection[..k];
      if Contains(s, selection[k]) {
        out := out + [selection[k]];
      }
    }
    assert selection[..|selection|] == selection;
  }

  method ApplyMorphism(m: Morphism, s: Snapshot, selection: seq<ObjectId>) returns (delta: Delta)
    ensures delta == MorphismDelta(m, s, selection)
    decreases m
  {
    match m
    case Identity(_) =>
      delta := [Traced("morphism.apply")];
    case Defined(_, _, _) =>
      delta := ApplyDefined(m, s, selection);
    case Composed(_, _, first, second) =>
      var d1 := ApplyMorphism(first, s, selection);
      var mid := ApplyDelta(s, d1);
      if mid.Err? {
        return REJECTED;
      }
      var sub := ProjectOf(selection, mid.value);
      var d2 := ApplyMorphism(second, mid.value, sub);
      var merged := Merge(s, d1, d2);
      if merged.Err? {
        return REJECTED;
      }
      delta := merged.value + [Traced("morphism.compose")];
  }
}
