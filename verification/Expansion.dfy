// What the program compiled from a delta makes of it: the same operations in order, with the
// names it interns, the attributes it sets and the law domain it defaults to written out.

module Expansion {
  import opened Wrappers
  import opened Model
  import opened Overlay
  import opened Invariants
  import opened OpLists
  import opened Effects
  import opened Refusals

  // The symbol an intern gives: the one it asks for, else the one the name has.
  ghost function SymbolGiven(names: map<nat, string>, name: string, symbol: nat): nat {
    if symbol != 0 then symbol
    else if name in names.Values then
      var k :| k in names && names[k] == name;
      k
    else NextSymbol(names)
  }

  function NameAt(names: map<nat, string>, symbol: nat): string {
    if symbol in names then names[symbol] else ""
  }

  // One operation for each attribute, in order.
  function ObjectSets(target: Ref, attributes: seq<Attribute>): (ops: Delta)
    ensures |ops| == |attributes|
  {
    seq(|attributes|, i requires 0 <= i < |attributes| => SetObjectAttribute(target, attributes[i]))
  }

  function PointerSets(pointer: nat, attributes: seq<Attribute>): (ops: Delta)
    ensures |ops| == |attributes|
  {
    seq(|attributes|, i requires 0 <= i < |attributes| => SetPointerAttribute(pointer, attributes[i]))
  }

  // An operation written out, where those are the tables and that the next pointer.
  ghost function WrittenOut(types: map<nat, string>, relations: map<nat, string>, next: nat, op: Op): Delta {
    match op
    case InternType(name, symbol) => [InternType(name, SymbolGiven(types, name, symbol))]
    case InternRelation(name, symbol) => [InternRelation(name, SymbolGiven(relations, name, symbol))]
    case CreateObject(temp, name, typ, existence, attributes) =>
      [InternType(NameAt(types, typ), typ), CreateObject(temp, name, typ, existence, [])] +
      ObjectSets(ByTemp(temp), attributes)
    case SetObjectType(_, typ) => [InternType(NameAt(types, typ), typ), op]
    case CreatePointer(from, to, relation, role, weight, lawDomain, attributes) =>
      [InternRelation(NameAt(relations, relation), relation),
       CreatePointer(from, to, relation, role, weight, if lawDomain == "" then "core" else lawDomain, [])] +
      PointerSets(next, attributes)
    case _ => [op]
  }

  // A delta written out, each operation against what the ones before it leave.
  ghost function Expanded(base: Snapshot, delta: Delta): Delta {
    if delta == [] then []
    else
      Expanded(base, Init(delta)) +
      WrittenOut(TypesAfter(base, Init(delta)), RelationsAfter(base, Init(delta)), FreshPointer(base, Init(delta)),
                 Last(delta))
  }

  // The kinds of operation that writing out may add.
  predicate Added(op: Op) {
    op.InternType? || op.InternRelation? || op.CreateObject? || op.CreatePointer? || op.SetObjectAttribute? ||
      op.SetPointerAttribute?
  }

  lemma {:induction false} NoneOf(ops: Delta, p: Op -> bool)
    requires forall k :: 0 <= k < |ops| ==> !p(ops[k])
    ensures Those(ops, p) == []
  {
    if ops != [] {
      NoneOf(ops[1..], p);
    }
  }

  lemma WrittenOutLists(types: map<nat, string>, relations: map<nat, string>, next: nat, op: Op, p: Op -> bool)
    requires forall op :: p(op) ==> !Added(op)
    ensures Those(WrittenOut(types, relations, next, op), p) == Those([op], p)
  {
    var ops := WrittenOut(types, relations, next, op);
    if op.SetObjectType? {
      ThoseAppend([ops[0]], [op], p);
      NoneOf([ops[0]], p);
      assert ops == [ops[0]] + [op];
    } else if Added(op) {
      NoneOf(ops, p);
      NoneOf([op], p);
    }
  }

  // Whatever kind is not added to, its operations are those of the delta, in order.
  lemma {:induction false} ExpandedLists(base: Snapshot, delta: Delta, p: Op -> bool)
    requires forall op :: p(op) ==> !Added(op)
    ensures Those(Expanded(base, delta), p) == Those(delta, p)
    decreases |delta|
  {
    hide WrittenOut, Those, Added;
    if delta != [] {
      var before := Init(delta);
      var ops := WrittenOut(TypesAfter(base, before), RelationsAfter(base, before), FreshPointer(base, before),
                            Last(delta));
      ExpandedLists(base, before, p);
      WrittenOutLists(TypesAfter(base, before), RelationsAfter(base, before), FreshPointer(base, before), Last(delta),
        p);
      ThoseAppend(Expanded(base, before), ops, p);
      ThoseAppend(before, [Last(delta)], p);
      assert delta == before + [Last(delta)];
    }
  }

  // The events and the assertions of objects and pointers are those of the delta.
  lemma EventsAndAssertions(base: Snapshot, delta: Delta)
    ensures Those(Expanded(base, delta), IsEvent) == Those(delta, IsEvent)
    ensures Those(Expanded(base, delta), IsObjectAssertion) == Those(delta, IsObjectAssertion)
    ensures Those(Expanded(base, delta), IsPointerAssertion) == Those(delta, IsPointerAssertion)
  {
    hide Expanded, Those;
    ExpandedLists(base, delta, IsEvent);
    ExpandedLists(base, delta, IsObjectAssertion);
    ExpandedLists(base, delta, IsPointerAssertion);
  }

  // What the run knows of the tables and the next pointer.
  lemma StateWritesOut(base: Snapshot, delta: Delta, st: State, op: Op)
    requires WellFormed(base) && Run(Start(base), delta) == Ok(st)
    ensures Expanded(base, delta + [op]) ==
            Expanded(base, delta) +
            WrittenOut(st.snap.typeNames, st.snap.relationNames, NextPointer(st.snap.pointers), op)
  {
    hide Run, WrittenOut, TypesAfter, RelationsAfter, FirstRefusal;
    RunRefused(base, delta);
    RunTracks(base, delta);
    assert Init(delta + [op]) == delta && Last(delta + [op]) == op;
  }
}
