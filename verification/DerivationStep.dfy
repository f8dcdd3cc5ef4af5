// The delta of one derivation step, and why stepping again changes nothing.

module DerivationStep {
  import opened Wrappers
  import opened Model
  import opened Attributes
  import opened Overlay
  import opened OverlayApply
  import opened Morphisms
  import opened Datalog
  import opened Closure
  import opened Derivation

  // ---- the order created edges are listed in: by source, target, then relation

  function CompareId(a: ObjectId, b: ObjectId): int {
    if a.index != b.index then CompareInt(a.index, b.index) else CompareInt(a.generation, b.generation)
  }

  function CompareEdge(a: Edge, b: Edge): int {
    if a.from != b.from then CompareId(a.from, b.from)
    else if a.to != b.to then CompareId(a.to, b.to)
    else CompareString(a.relation, b.relation)
  }

  predicate Less(a: Derived, b: Derived) {
    CompareEdge(a.edge, b.edge) < 0
  }

  lemma LessTotal(a: Derived, b: Derived)
    requires a.edge != b.edge
    ensures Less(a, b) <==> !Less(b, a)
  {
    StringOrder(a.edge.relation, b.edge.relation);
  }

  lemma LessTrans(a: Derived, b: Derived, c: Derived)
    requires Less(a, b) && Less(b, c)
    ensures Less(a, c)
  {
    if a.edge.from == b.edge.from == c.edge.from && a.edge.to == b.edge.to == c.edge.to {
      StringTrans(a.edge.relation, b.edge.relation, c.edge.relation);
    }
  }

  predicate InOrder(list: seq<Derived>) {
    forall i, j :: 0 <= i < j < |list| ==> Less(list[i], list[j])
  }

  function InsertDerived(x: Derived, list: seq<Derived>): seq<Derived> {
    if list == [] then [x]
    else if Less(x, list[0]) then [x] + list
    else [list[0]] + InsertDerived(x, list[1..])
  }

  lemma {:induction false} InsertInOrder(x: Derived, list: seq<Derived>)
    requires InOrder(list) && forall d :: d in list ==> d.edge != x.edge
    ensures InOrder(InsertDerived(x, list)) && Elems(InsertDerived(x, list)) == Elems(list) + {x}
  {
    hide Less;
    if list != [] {
      var out := InsertDerived(x, list);
      if Less(x, list[0]) {
        forall j | 1 <= j < |list| ensures Less(x, list[j]) {
          LessTrans(x, list[0], list[j]);
        }
      } else {
        var rest := list[1..];
        InsertInOrder(x, rest);
        LessTotal(x, list[0]);
        forall j | 1 <= j < |out| ensures Less(out[0], out[j]) {
          assert out[j] == InsertDerived(x, rest)[j - 1];
          assert out[j] in Elems(rest) + {x};
          if out[j] != x {
            var k :| 0 <= k < |rest| && rest[k] == out[j];
            assert list[k + 1] == out[j];
          }
        }
        assert Elems([list[0]] + InsertDerived(x, rest)) == {list[0]} + Elems(InsertDerived(x, rest));
        assert list == [list[0]] + rest;
      }
    }
  }

  function SortDerived(list: seq<Derived>): seq<Derived> {
    if list == [] then [] else InsertDerived(list[0], SortDerived(list[1..]))
  }

  lemma {:induction false} SortInOrder(list: seq<Derived>)
    requires Distinct(list)
    ensures InOrder(SortDerived(list)) && Elems(SortDerived(list)) == Elems(list)
  {
    if list != [] {
      var rest := list[1..];
      assert list == [list[0]] + rest;
      SortInOrder(rest);
      forall d | d in SortDerived(rest) ensures d.edge != list[0].edge {
        assert d in Elems(rest);
        var k :| 0 <= k < |rest| && rest[k] == d;
        assert list[k + 1] == d;
      }
      InsertInOrder(list[0], SortDerived(rest));
    }
  }

  // The order leaves no choice: one set, one list.
  lemma {:induction false} OneOrder(a: seq<Derived>, b: seq<Derived>)
    requires InOrder(a) && InOrder(b) && Elems(a) == Elems(b)
    ensures a == b
    decreases |a|
  {
    ElemsEmpty(a);
    ElemsEmpty(b);
    if a != [] {
      assert a[0] in Elems(a) && a[0] in b;
      assert b[0] in Elems(b) && b[0] in a;
      if a[0] != b[0] {
        FirstLess(a, b[0]);
        FirstLess(b, a[0]);
        LessAsym(a[0], b[0]);
      }
      TailElems(a);
      TailElems(b);
      OneOrder(a[1..], b[1..]);
    }
  }

  lemma FirstLess(list: seq<Derived>, d: Derived)
    requires InOrder(list) && d in list && d != list[0]
    ensures Less(list[0], d)
  {
  }

  lemma LessAsym(a: Derived, b: Derived)
    ensures !(Less(a, b) && Less(b, a))
  {
    StringOrder(a.edge.relation, b.edge.relation);
  }

  lemma TailElems(list: seq<Derived>)
    requires InOrder(list) && list != []
    ensures Elems(list[1..]) == Elems(list) - {list[0]}
  {
    assert list == [list[0]] + list[1..];
    forall d | d in list[1..] ensures d != list[0] {
      var k :| 0 <= k < |list[1..]| && list[1..][k] == d;
      LessAsym(list[0], list[k + 1]);
    }
  }

  // The list of a set of edges in that order.
  ghost function Listed(created: set<Derived>): seq<Derived>
    requires forall d, d' :: d in created && d' in created && d.edge == d'.edge ==> d == d'
    ensures InOrder(Listed(created)) && Elems(Listed(created)) == created
    decreases |created|
  {
    if created == {} then []
    else
      var d :| d in created;
      var rest := Listed(created - {d});
      assert forall x :: x in rest ==> x in Elems(rest);
      InsertInOrder(d, rest);
      InsertDerived(d, rest)
  }

  // ---- the delta

  predicate ToClear(p: Pointer, epoch: nat) {
    p.lawDomain == "derivation" && ActiveAt(p, epoch)
  }

  function Clearing(pointers: seq<Pointer>, epoch: nat): Delta {
    if pointers == [] then []
    else
      var last := |pointers| - 1;
      Clearing(pointers[..last], epoch) + (if ToClear(pointers[last], epoch) then [ExpirePointer(pointers[last].id)]
        else [])
  }

  // relation_name: the registered name, or the printed id.
  function RelationName(names: map<nat, string>, relation: nat): string {
    if relation in names then names[relation] else if relation != 0 then "R" + Decimal(relation) else "R<invalid>"
  }

  predicate IsAuthored(p: Pointer, epoch: nat) {
    ActiveAt(p, epoch) && p.lawDomain != "derivation"
  }

  // The active edges nobody derived.
  function Authored(s: Snapshot): set<Edge> {
    set i | 0 <= i < |s.pointers| && IsAuthored(s.pointers[i], s.epoch) ::
      Edge(RelationName(s.relationNames, s.pointers[i].relation), s.pointers[i].from, s.pointers[i].to)
  }

  const EXTRA_ROUNDS: nat := 64

  function Cap(s: Snapshot): nat {
    EXTRA_ROUNDS + |s.objects|
  }

  ghost function CreatedList(s: Snapshot, rules: seq<Rule>): seq<Derived> {
    CreatedExact(rules, Authored(s), Cap(s));
    Listed(Created(rules, Authored(s), Cap(s)))
  }

  function LinkFor(d: Derived, relation: nat): Op {
    CreatePointer(ById(d.edge.from), ById(d.edge.to), relation, d.role, d.weight, "derivation", [])
  }

  ghost function LinkAll(s: Snapshot, d: Draft, created: seq<Derived>): Draft {
    if created == [] then d
    else
      var last := |created| - 1;
      var before := LinkAll(s, d, created[..last]);
      var name := created[last].edge.relation;
      Push(Interned(s, before, name), LinkFor(created[last], RelationIn(s, before, name)))
  }

  ghost function StepDelta(s: Snapshot, rules: seq<Rule>): Delta {
    if rules == [] then []
    else
      var cleared := Draft(Clearing(s.pointers, s.epoch), map[], NextSymbol(s.relationNames));
      LinkAll(s, cleared, CreatedList(s, rules)).ops + [Traced("world.derive")]
  }

  // ---- as it runs

  method SeedFacts(s: Snapshot) returns (facts: set<Edge>)
    ensures facts == Authored(s)
  {
    facts := {};
    for k := 0 to |s.pointers|
      invariant facts == set i | 0 <= i < k && IsAuthored(s.pointers[i], s.epoch) ::
                  Edge(RelationName(s.relationNames, s.pointers[i].relation), s.pointers[i].from, s.pointers[i].to)
    {
      if IsAuthored(s.pointers[k], s.epoch) {
        facts := facts + {Edge(RelationName(s.relationNames, s.pointers[k].relation), s.pointers[k].from,
          s.pointers[k].to)};
      }
    }
  }

  method DeriveStep(s: Snapshot, rules: seq<Rule>) returns (delta: Delta)
    ensures delta == StepDelta(s, rules)
  {
    hide Created, Rounds, InOrder, SortDerived;
    if rules == [] {
      return [];
    }
    var interner := new RelationInterner(s);
    for k := 0 to |s.pointers|
      invariant interner.snapshot == s && fresh(interner)
      invariant interner.Value() == Draft(Clearing(s.pointers[..k], s.epoch), map[], NextSymbol(s.relationNames))
    {
      assert s.pointers[..k + 1][..k] == s.pointers[..k];
      if ToClear(s.pointers[k], s.epoch) {
        interner.Append(ExpirePointer(s.pointers[k].id));
      }
    }
    assert s.pointers[..|s.pointers|] == s.pointers;
    ghost var cleared := interner.Value();
    var base := SeedFacts(s);
    var created, facts := Derive(rules, base, Cap(s));
    CreatedExact(rules, base, Cap(s));
    SortInOrder(created);
    var list := SortDerived(created);
    OneOrder(list, CreatedList(s, rules));
    for k := 0 to |list|
      invariant interner.snapshot == s && fresh(interner)
      invariant interner.Value() == LinkAll(s, cleared, list[..k])
    {
      assert list[..k + 1][..k] == list[..k];
      var relation := interner.Intern(list[k].edge.relation);
      interner.Append(LinkFor(list[k], relation));
    }
    assert list[..|list|] == list;
    interner.Append(Traced("world.derive"));
    delta := interner.delta;
  }
}
