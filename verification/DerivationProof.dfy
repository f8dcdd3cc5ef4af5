// The derivation step computes the least model it promises, is always accepted, and
// repeating it replaces the derived edges by the same ones.

module DerivationProof {
  import opened Wrappers
  import opened Model
  import opened Attributes
  import opened Overlay
  import opened Invariants
  import opened EpochView
  import opened RenameProof
  import opened MergeProof
  import opened Morphisms
  import opened MorphismProof
  import opened Datalog
  import opened Closure
  import opened Derivation
  import opened DerivationStep

  // ---- what is created

  // The created edges and the authored ones together are the least model exactly when
  // another round would add nothing; in any case they stay inside every model.
  lemma StepComputesLeastModel(s: Snapshot, rules: seq<Rule>)
    ensures var all := Authored(s) + EdgesOf(CreatedList(s, rules));
            && (LeastModel(rules, Authored(s), all) <==> Grow(rules, all) == all)
            && (forall other: set<Edge> :: Authored(s) <= other && ClosedUnder(rules, other) ==> all <= other)
    ensures Authored(s) !! EdgesOf(CreatedList(s, rules))
    ensures Distinct(CreatedList(s, rules))
  {
    hide ClosedUnder, Grow;
    var base, created := Authored(s), CreatedList(s, rules);
    CreatedExact(rules, base, Cap(s));
    ListedEdges(Created(rules, base, Cap(s)));
    RoundsGrow(rules, base, Cap(s));
    RoundsReach(rules, base, Cap(s));
    assert base + EdgesOf(created) == Rounds(rules, base, Cap(s));
    forall other: set<Edge> | base <= other && ClosedUnder(rules, other) ensures base + EdgesOf(created) <= other {
      RoundsWithin(rules, base, Cap(s), other);
    }
  }

  lemma ListedEdges(created: set<Derived>)
    requires forall d, d' :: d in created && d' in created && d.edge == d'.edge ==> d == d'
    ensures EdgesOf(Listed(created)) == EdgeSet(created) && Distinct(Listed(created))
  {
    var list := Listed(created);
    assert forall d :: d in list <==> d in Elems(list);
    forall i, j | 0 <= i < j < |list| ensures list[i].edge != list[j].edge {
      assert Less(list[i], list[j]);
      StringOrder(list[i].edge.relation, list[j].edge.relation);
    }
  }

  // Reachability always fits under the cap: authored plus created edges are then exactly
  // the transitive closure.
  lemma ReachabilityReached(s: Snapshot, name: string, x: string, y: string, z: string, r: string, role: Role,
                            weight: Double)
    requires WellFormed(s) && x != y && y != z && x != z
    ensures var rules := [Transitive(name, x, y, z, r, role, weight)];
            LeastModel(rules, Authored(s), Authored(s) + EdgesOf(CreatedList(s, rules)))
  {
    hide ClosedUnder, Grow, Produces;
    var rule := Transitive(name, x, y, z, r, role, weight);
    var rules, base, n := [rule], Authored(s), Cap(s);
    forall facts: set<Edge>, e
      ensures Produces(rules[0], facts, e) <==> e.relation == r && Hop(facts, r, e.from, e.to)
    {
      TransitiveProduces(rule, name, x, y, z, r, role, weight, facts, e);
    }
    AuthoredStays(s, r);
    IdsCount(s.objects);
    ReachabilityCloses(rules, r, base, IdSet(s.objects), n);
    CreatedExact(rules, base, n);
    ListedEdges(Created(rules, base, n));
    RoundsGrow(rules, base, n);
    assert base + EdgesOf(CreatedList(s, rules)) == Rounds(rules, base, n);
  }

  lemma AuthoredStays(s: Snapshot, r: string)
    requires WellFormed(s)
    ensures Stays(Authored(s), r, IdSet(s.objects))
  {
    forall e | e in Authored(s) ensures e.from in IdSet(s.objects) && e.to in IdSet(s.objects) {
      var i :| 0 <= i < |s.pointers| && IsAuthored(s.pointers[i], s.epoch) &&
               e == Edge(RelationName(s.relationNames, s.pointers[i].relation), s.pointers[i].from, s.pointers[i].to);
      assert PointerOk(s.pointers[i], IdSet(s.objects), s.relationNames, s.epoch);
    }
  }

  lemma {:induction false} IdsCount(objects: seq<Object>)
    ensures |IdSet(objects)| <= |objects|
  {
    if objects != [] {
      var last := |objects| - 1;
      IdsCount(objects[..last]);
      assert objects == objects[..last] + [objects[last]];
      assert IdSet(objects) <= IdSet(objects[..last]) + {objects[last].id} by {
        forall id | id in IdSet(objects) ensures id in IdSet(objects[..last]) + {objects[last].id} {
          var i :| 0 <= i < |objects| && objects[i].id == id;
          if i < last {
            assert objects[..last][i] == objects[i];
          }
        }
      }
      Subsets(IdSet(objects), IdSet(objects[..last]) + {objects[last].id});
    }
  }

  // ---- the run of the delta

  function Cleared(p: Pointer, epoch: nat): Pointer {
    if ToClear(p, epoch) then p.(expiresAt := Some(epoch + 1)) else p
  }

  ghost predicate MadeFrom(p: Pointer, d: Derived, names: map<nat, string>, epoch: nat) {
    && p.from == d.edge.from && p.to == d.edge.to && p.role == d.role && p.weight == d.weight
    && p.bornAt == epoch && p.expiresAt == None && p.lawDomain == "derivation"
    && p.relation in names && names[p.relation] == d.edge.relation && p.attributes == []
  }

  function LinkOf(p: Pointer): Op {
    CreatePointer(ById(p.from), ById(p.to), p.relation, p.role, p.weight, "derivation", [])
  }

  function LinksOf(delta: Delta): Delta {
    if delta == [] then []
    else
      var last := |delta| - 1;
      LinksOf(delta[..last]) + (if delta[last].CreatePointer? then [delta[last]] else [])
  }

  function UnlinksOf(delta: Delta): Delta {
    if delta == [] then []
    else
      var last := |delta| - 1;
      UnlinksOf(delta[..last]) + (if delta[last].ExpirePointer? then [delta[last]] else [])
  }

  function Relink(pointers: seq<Pointer>): Delta {
    seq(|pointers|, i requires 0 <= i < |pointers| => LinkOf(pointers[i]))
  }

  function Unlink(pointers: seq<Pointer>): Delta {
    seq(|pointers|, i requires 0 <= i < |pointers| => ExpirePointer(pointers[i].id))
  }

  lemma LinksPush(delta: Delta, op: Op)
    ensures LinksOf(delta + [op]) == LinksOf(delta) + (if op.CreatePointer? then [op] else [])
    ensures UnlinksOf(delta + [op]) == UnlinksOf(delta) + (if op.ExpirePointer? then [op] else [])
  {
    assert (delta + [op])[..|delta|] == delta;
  }

  // The pointers once `count` of the old ones have been looked at for clearing.
  function ClearedUpTo(pointers: seq<Pointer>, epoch: nat, count: nat): seq<Pointer> {
    seq(|pointers|, i requires 0 <= i < |pointers| => if i < count then Cleared(pointers[i], epoch) else pointers[i])
  }

  // The state after the draft's operations: old pointers cleared up to `count`, and one
  // new pointer, with one link in the draft, for each edge of `made`.
  ghost predicate Progress(s: Snapshot, d: Draft, count: nat, made: seq<Derived>) {
    && DraftOk(s, d, 0)
    && ProgressState(s, d, count, made, Run(Start(s), d.ops).value.snap)
  }

  ghost predicate ProgressState(s: Snapshot, d: Draft, count: nat, made: seq<Derived>, snap: Snapshot) {
    var old' := |s.pointers|;
    && snap.epoch == s.epoch + 1 && snap.objects == s.objects
    && |snap.pointers| == old' + |made|
    && snap.pointers[..old'] == ClearedUpTo(s.pointers, s.epoch, count)
    && (forall j :: 0 <= j < |made| ==> MadeFrom(snap.pointers[old' + j], made[j], snap.relationNames, s.epoch + 1))
    && LinksOf(d.ops) == Relink(snap.pointers[old'..])
  }

  lemma ClearStep(s: Snapshot, d: Draft, count: nat)
    requires WellFormed(s) && count < |s.pointers| && Progress(s, d, count, []) && ToClear(s.pointers[count], s.epoch)
    ensures Progress(s, Push(d, ExpirePointer(s.pointers[count].id)), count + 1, [])
  {
    hide Run, DraftOk;
    var op := ExpirePointer(s.pointers[count].id);
    DraftExtends(s, d, 0);
    var st := Run(Start(s), d.ops).value;
    ExpireAccepted(s, st, count);
    PushOk(s, d, 0, op);
    RunPush(s, d.ops, op);
    LinksPush(d.ops, op);
    assert st.snap.pointers == ClearedUpTo(s.pointers, s.epoch, count) by {
      assert st.snap.pointers == st.snap.pointers[..|s.pointers|];
    }
    ExpireExact(s, st, count);
    var next := Step(st, op).value.snap.pointers;
    assert next == next[..|s.pointers|] && next[|s.pointers|..] == [];
  }

  lemma ExpireExact(s: Snapshot, st: State, count: nat)
    requires WellFormed(s) && count < |s.pointers| && st.snap.epoch == s.epoch + 1
    requires st.snap.pointers == ClearedUpTo(s.pointers, s.epoch, count) && ToClear(s.pointers[count], s.epoch)
    ensures Step(st, ExpirePointer(s.pointers[count].id)) ==
            Ok(st.(snap := st.snap.(pointers := ClearedUpTo(s.pointers, s.epoch, count + 1))))
  {
    hide FindPointer;
    var id := s.pointers[count].id;
    assert FindPointer(st.snap.pointers, id) == Some(count) by {
      assert forall i :: 0 <= i < |s.pointers| ==> st.snap.pointers[i].id == s.pointers[i].id;
      assert FindPointer(st.snap.pointers, id).Some?;
    }
    assert st.snap.pointers[count := Cleared(s.pointers[count], s.epoch)] ==
           ClearedUpTo(s.pointers, s.epoch, count + 1);
  }

  lemma {:induction false} ClearAll(s: Snapshot, count: nat)
    requires WellFormed(s) && count <= |s.pointers|
    ensures Progress(s, Draft(Clearing(s.pointers[..count], s.epoch), map[], NextSymbol(s.relationNames)), count, [])
  {
    hide Progress, WellFormed;
    var next := NextSymbol(s.relationNames);
    if count == 0 {
      ClearNone(s);
    } else {
      var last := count - 1;
      ClearAll(s, last);
      assert s.pointers[..count][..last] == s.pointers[..last];
      var d := Draft(Clearing(s.pointers[..last], s.epoch), map[], next);
      if ToClear(s.pointers[last], s.epoch) {
        ClearStep(s, d, last);
      } else {
        assert Clearing(s.pointers[..last], s.epoch) + [] == Clearing(s.pointers[..last], s.epoch);
        ClearSkip(s, d, last);
      }
    }
  }

  lemma ClearNone(s: Snapshot)
    requires WellFormed(s)
    ensures Progress(s, EmptyDraft(s), 0, [])
  {
    EmptyDraftOk(s, 0);
    assert ClearedUpTo(s.pointers, s.epoch, 0) == s.pointers;
    assert s.pointers[..|s.pointers|] == s.pointers && s.pointers[|s.pointers|..] == [];
  }

  lemma ClearSkip(s: Snapshot, d: Draft, count: nat)
    requires count < |s.pointers| && Progress(s, d, count, []) && !ToClear(s.pointers[count], s.epoch)
    ensures Progress(s, d, count + 1, [])
  {
    hide DraftOk, Run, LinksOf, Relink;
    assert ClearedUpTo(s.pointers, s.epoch, count + 1) == ClearedUpTo(s.pointers, s.epoch, count);
  }

  lemma InternProgress(s: Snapshot, d: Draft, made: seq<Derived>, name: string)
    requires WellFormed(s) && Progress(s, d, |s.pointers|, made) && name != ""
    ensures Progress(s, Interned(s, d, name), |s.pointers|, made)
    ensures var names := Run(Start(s), Interned(s, d, name).ops).value.snap.relationNames;
            HasSymbol(names, RelationIn(s, d, name)) && names[RelationIn(s, d, name)] == name
  {
    hide Run, Step, DraftOk, WellFormed;
    InternOk(s, d, 0, name);
    FindRelationExact(s, name);
    if FindRelation(s, name).None? && name !in d.cache {
      var op := InternRelation(name, d.next);
      InternRuns(s, d, name);
      LinksPush(d.ops, op);
      assert LinksOf(d.ops) + [] == LinksOf(d.ops);
    }
  }

  lemma InternRuns(s: Snapshot, d: Draft, name: string)
    requires DraftOk(s, d, 0) && name != "" && name !in s.relationNames.Values && name !in d.cache
    ensures var st := Run(Start(s), d.ops).value;
            Run(Start(s), d.ops + [InternRelation(name, d.next)]) ==
            Ok(st.(snap := st.snap.(relationNames := st.snap.relationNames[d.next := name]))) &&
            d.next !in st.snap.relationNames
  {
    hide Run, Step, StateOk;
    var st := Run(Start(s), d.ops).value;
    CacheGrows(s, d, st.snap.relationNames, name);
    InternStep(st, name, d.next);
    RunPush(s, d.ops, InternRelation(name, d.next));
  }

  lemma LinkProgress(s: Snapshot, d: Draft, made: seq<Derived>, next: Derived, relation: nat)
    requires WellFormed(s) && Progress(s, d, |s.pointers|, made)
    requires next.edge.from in IdSet(s.objects) && next.edge.to in IdSet(s.objects)
    requires var names := Run(Start(s), d.ops).value.snap.relationNames;
             HasSymbol(names, relation) && names[relation] == next.edge.relation
    ensures Progress(s, Push(d, LinkFor(next, relation)), |s.pointers|, made + [next])
  {
    hide Run, Step, DraftOk, WellFormed;
    var op, n := LinkFor(next, relation), |s.pointers|;
    LinkOk(s, d, 0, op);
    DraftExtends(s, d, 0);
    RunPush(s, d.ops, op);
    LinksPush(d.ops, op);
    var snap := Run(Start(s), d.ops).value.snap;
    LinkStep(Run(Start(s), d.ops).value, next, relation);
    var after := Run(Start(s), d.ops + [op]).value.snap;
    var p := after.pointers[|snap.pointers|];
    assert after.pointers == snap.pointers + [p];
    assert after.pointers[..n] == snap.pointers[..n] && after.pointers[n..] == snap.pointers[n..] + [p];
    assert Relink(snap.pointers[n..] + [p]) == Relink(snap.pointers[n..]) + [LinkOf(p)];
    forall j | 0 <= j < |made + [next]|
      ensures MadeFrom(after.pointers[n + j], (made + [next])[j], after.relationNames, s.epoch + 1)
    {
      if j < |made| {
        assert MadeFrom(snap.pointers[n + j], made[j], snap.relationNames, s.epoch + 1);
      }
    }
  }

  lemma LinkStep(st: State, d: Derived, relation: nat)
    requires HasSymbol(st.snap.relationNames, relation)
    requires d.edge.from in IdSet(st.snap.objects) && d.edge.to in IdSet(st.snap.objects)
    ensures var r := Step(st, LinkFor(d, relation));
            r.Ok? && r.value.snap.objects == st.snap.objects && r.value.snap.relationNames == st.snap.relationNames &&
            r.value.snap.epoch == st.snap.epoch && |r.value.snap.pointers| == |st.snap.pointers| + 1 &&
            r.value.snap.pointers[..|st.snap.pointers|] == st.snap.pointers &&
            var p := r.value.snap.pointers[|st.snap.pointers|];
            p.from == d.edge.from && p.to == d.edge.to && p.relation == relation && p.role == d.role &&
            p.weight == d.weight && p.bornAt == st.snap.epoch && p.expiresAt == None && p.lawDomain == "derivation" &&
            p.attributes == []
  {
  }

  predicate RulesNamed(rules: seq<Rule>) {
    forall i :: 0 <= i < |rules| ==> rules[i].head.relation != ""
  }

  ghost predicate Placed(list: seq<Derived>, s: Snapshot) {
    forall i :: 0 <= i < |list| ==>
      list[i].edge.from in IdSet(s.objects) && list[i].edge.to in IdSet(s.objects) && list[i].edge.relation != ""
  }

  lemma {:induction false} LinkAllProgress(s: Snapshot, d: Draft, created: seq<Derived>)
    requires WellFormed(s) && Progress(s, d, |s.pointers|, []) && Placed(created, s)
    ensures Progress(s, LinkAll(s, d, created), |s.pointers|, created)
  {
    hide Progress, WellFormed;
    if created != [] {
      var last := |created| - 1;
      LinkAllProgress(s, d, created[..last]);
      var before := LinkAll(s, d, created[..last]);
      InternProgress(s, before, created[..last], created[last].edge.relation);
      LinkProgress(s, Interned(s, before, created[last].edge.relation), created[..last], created[last],
                   RelationIn(s, before, created[last].edge.relation));
      assert created[..last] + [created[last]] == created;
    }
  }

  // ---- every created edge joins objects of the snapshot by a named relation

  ghost predicate EdgesPlaced(facts: set<Edge>, ids: set<ObjectId>) {
    forall e :: e in facts ==> e.from in ids && e.to in ids
  }

  lemma VarPlaced(body: seq<Atom>, a: Binding, facts: set<Edge>, ids: set<ObjectId>, v: string)
    requires EdgesPlaced(facts, ids) && Satisfies(body, a, facts) && v in Vars(body)
    ensures v in a && a[v] in ids
  {
    var i :| 0 <= i < |body| && (body[i].fromVar == v || body[i].toVar == v);
    assert Edge(body[i].relation, a[body[i].fromVar], a[body[i].toVar]) in facts;
  }

  lemma HeadPlaced(rules: seq<Rule>, facts: set<Edge>, ids: set<ObjectId>, e: Edge)
    requires EdgesPlaced(facts, ids) && RulesNamed(rules) && e in AllHeads(rules, facts)
    ensures e.from in ids && e.to in ids && e.relation != ""
  {
    hide AllHeads, EdgesPlaced, Satisfies, Vars;
    GrowExact(rules, facts, e);
    var i :| 0 <= i < |rules| && Produces(rules[i], facts, e);
    var rule := rules[i];
    var a: Binding :| a.Keys == Vars(rule.body) && Yields(rule.body, a, facts, rule.head, (e.from, e.to));
    VarPlaced(rule.body, a, facts, ids, rule.head.fromVar);
    VarPlaced(rule.body, a, facts, ids, rule.head.toVar);
  }

  lemma {:induction false} RoundsPlaced(rules: seq<Rule>, base: set<Edge>, n: nat, ids: set<ObjectId>)
    requires EdgesPlaced(base, ids) && RulesNamed(rules)
    ensures EdgesPlaced(Rounds(rules, base, n), ids)
    ensures forall e :: e in Rounds(rules, base, n) && e !in base ==> e.relation != ""
  {
    hide AllHeads;
    if n > 0 {
      var facts := Rounds(rules, base, n - 1);
      RoundsPlaced(rules, base, n - 1, ids);
      forall e | e in AllHeads(rules, facts) ensures e.from in ids && e.to in ids && e.relation != "" {
        HeadPlaced(rules, facts, ids, e);
      }
    }
  }

  lemma CreatedPlaced(s: Snapshot, rules: seq<Rule>)
    requires WellFormed(s) && RulesNamed(rules)
    ensures Placed(CreatedList(s, rules), s)
  {
    hide Created, Rounds, Grow;
    var base, list := Authored(s), CreatedList(s, rules);
    forall e | e in base ensures e.from in IdSet(s.objects) && e.to in IdSet(s.objects) {
      AuthoredStays(s, e.relation);
    }
    RoundsPlaced(rules, base, Cap(s), IdSet(s.objects));
    CreatedExact(rules, base, Cap(s));
    ListedEdges(Created(rules, base, Cap(s)));
    forall i | 0 <= i < |list|
      ensures list[i].edge.from in IdSet(s.objects) && list[i].edge.to in IdSet(s.objects) &&
              list[i].edge.relation != ""
    {
      assert list[i] in list;
      assert list[i].edge in EdgesOf(list);
    }
  }

  // ---- the snapshot after a step

  // Old pointers cleared, one pointer per created edge, nothing else.
  ghost predicate Stepped(s: Snapshot, after: Snapshot, created: seq<Derived>) {
    var old' := |s.pointers|;
    && WellFormed(after) && Extends(s, after)
    && after.epoch == s.epoch + 1 && |after.objects| == |s.objects|
    && |after.pointers| == old' + |created|
    && after.pointers[..old'] == ClearedUpTo(s.pointers, s.epoch, old')
    && (forall j :: 0 <= j < |created| ==> MadeFrom(after.pointers[old' + j], created[j], after.relationNames, s.epoch +
      1))
  }

  // The pointers the step added.
  function Made(s: Snapshot, after: Snapshot): seq<Pointer> {
    if |s.pointers| <= |after.pointers| then after.pointers[|s.pointers|..] else []
  }

  // A finished draft is accepted, and leaves what it should.
  lemma ProgressStepped(s: Snapshot, d: Draft, created: seq<Derived>)
    requires WellFormed(s) && Progress(s, d, |s.pointers|, created)
    ensures Apply(s, d.ops).Ok? && Stepped(s, Apply(s, d.ops).value, created)
    ensures LinksOf(d.ops) == Relink(Made(s, Apply(s, d.ops).value))
  {
    hide Run, DraftOk, WellFormed, Overlay.Step, Extends, ClearedUpTo, MadeFrom, Relink, LinksOf, Counted;
    DraftExtends(s, d, 0);
    ApplyKeeps(s, d.ops);
  }

  lemma StepApplies(s: Snapshot, rules: seq<Rule>)
    requires WellFormed(s) && rules != [] && RulesNamed(rules)
    ensures Apply(s, StepDelta(s, rules)).Ok?
    ensures Stepped(s, Apply(s, StepDelta(s, rules)).value, CreatedList(s, rules))
    ensures LinksOf(StepDelta(s, rules)) == Relink(Made(s, Apply(s, StepDelta(s, rules)).value))
  {
    hide Apply, WellFormed, Progress, Stepped, Clearing, CreatedList, Placed, LinkAll, LinksOf, Relink;
    var created := CreatedList(s, rules);
    ClearAll(s, |s.pointers|);
    assert s.pointers[..|s.pointers|] == s.pointers;
    var cleared := Draft(Clearing(s.pointers, s.epoch), map[], NextSymbol(s.relationNames));
    CreatedPlaced(s, rules);
    LinkAllProgress(s, cleared, created);
    var d := LinkAll(s, cleared, created);
    ProgressStepped(s, d, created);
    TraceIdle(s, d.ops, "world.derive");
    LinksPush(d.ops, Traced("world.derive"));
    assert LinksOf(d.ops) + [] == LinksOf(d.ops);
  }

  // ---- stepping again

  lemma OldSame(s: Snapshot, after: Snapshot, created: seq<Derived>, i: nat)
    requires WellFormed(s) && Stepped(s, after, created) && i < |s.pointers|
    ensures after.pointers[i] == Cleared(s.pointers[i], s.epoch) && after.pointers[i].relation == s.pointers[i].relation
    ensures after.pointers[i].from == s.pointers[i].from && after.pointers[i].to == s.pointers[i].to
    ensures IsAuthored(after.pointers[i], after.epoch) <==> IsAuthored(s.pointers[i], s.epoch)
    ensures RelationName(after.relationNames, s.pointers[i].relation) ==
            RelationName(s.relationNames, s.pointers[i].relation)
  {
    hide ObjectsOk, SymbolsOk, MadeFrom;
    assert after.pointers[..|s.pointers|][i] == after.pointers[i];
    assert PointerOk(s.pointers[i], IdSet(s.objects), s.relationNames, s.epoch);
  }

  lemma NewNotAuthored(s: Snapshot, after: Snapshot, created: seq<Derived>, i: nat)
    requires Stepped(s, after, created) && |s.pointers| <= i < |after.pointers|
    ensures !IsAuthored(after.pointers[i], after.epoch)
  {
    hide WellFormed, Extends, ClearedUpTo;
    var n := |s.pointers|;
    assert MadeFrom(after.pointers[n + (i - n)], created[i - n], after.relationNames, s.epoch + 1);
  }

  lemma AuthoredSame(s: Snapshot, after: Snapshot, created: seq<Derived>)
    requires WellFormed(s) && Stepped(s, after, created)
    ensures Authored(after) == Authored(s)
  {
    hide WellFormed, IsAuthored, RelationName, Cleared, Extends, ClearedUpTo, MadeFrom;
    var n := |s.pointers|;
    assert n <= |after.pointers|;
    forall i | 0 <= i < |after.pointers|
      ensures if i < n then
                (IsAuthored(after.pointers[i], after.epoch) <==> IsAuthored(s.pointers[i], s.epoch)) &&
                Edge(RelationName(after.relationNames, after.pointers[i].relation), after.pointers[i].from,
                  after.pointers[i].to) ==
                Edge(RelationName(s.relationNames, s.pointers[i].relation), s.pointers[i].from, s.pointers[i].to)
              else !IsAuthored(after.pointers[i], after.epoch)
    {
      if i < n {
        OldSame(s, after, created, i);
      } else {
        NewNotAuthored(s, after, created, i);
      }
    }
  }

  lemma {:induction false} ClearingAppend(a: seq<Pointer>, b: seq<Pointer>, epoch: nat)
    ensures Clearing(a + b, epoch) == Clearing(a, epoch) + Clearing(b, epoch)
  {
    if b == [] {
      assert a + b == a;
    } else {
      var last := |b| - 1;
      assert (a + b)[..|a| + last] == a + b[..last];
      ClearingAppend(a, b[..last], epoch);
    }
  }

  lemma {:induction false} ClearingNone(pointers: seq<Pointer>, epoch: nat)
    requires forall i :: 0 <= i < |pointers| ==> !ToClear(pointers[i], epoch)
    ensures Clearing(pointers, epoch) == []
  {
    if pointers != [] {
      ClearingNone(pointers[..|pointers| - 1], epoch);
    }
  }

  lemma {:induction false} ClearingAll(pointers: seq<Pointer>, epoch: nat)
    requires forall i :: 0 <= i < |pointers| ==> ToClear(pointers[i], epoch)
    ensures Clearing(pointers, epoch) == Unlink(pointers)
  {
    if pointers != [] {
      var last := |pointers| - 1;
      ClearingAll(pointers[..last], epoch);
      assert Unlink(pointers) == Unlink(pointers[..last]) + [ExpirePointer(pointers[last].id)];
    }
  }

  lemma ClearsWhatItMade(s: Snapshot, after: Snapshot, created: seq<Derived>)
    requires WellFormed(s) && Stepped(s, after, created)
    ensures Clearing(after.pointers, after.epoch) == Unlink(Made(s, after))
  {
    var n := |s.pointers|;
    var before, made := after.pointers[..n], after.pointers[n..];
    assert after.pointers == before + made;
    forall i | 0 <= i < n ensures !ToClear(before[i], after.epoch) {
      assert before[i] == Cleared(s.pointers[i], s.epoch);
      assert PointerOk(s.pointers[i], IdSet(s.objects), s.relationNames, s.epoch);
    }
    forall i | 0 <= i < |made| ensures ToClear(made[i], after.epoch) {
      assert made[i] == after.pointers[n + i];
      assert MadeFrom(after.pointers[n + i], created[i], after.relationNames, s.epoch + 1);
    }
    ClearingNone(before, after.epoch);
    ClearingAll(made, after.epoch);
    ClearingAppend(before, made, after.epoch);
  }

  // With every relation known, the links are made again as they were.
  lemma {:induction false} RelinksSame(after: Snapshot, d: Draft, created: seq<Derived>, made: seq<Pointer>, epoch: nat)
    requires SymbolsOk(after.relationNames) && |made| == |created|
    requires forall j :: 0 <= j < |created| ==> MadeFrom(made[j], created[j], after.relationNames, epoch)
    ensures LinkAll(after, d, created) == d.(ops := d.ops + Relink(made))
  {
    hide FindRelation;
    if created == [] {
      assert d.ops + Relink(made) == d.ops;
    } else {
      var last := |created| - 1;
      RelinksSame(after, d, created[..last], made[..last], epoch);
      var name := created[last].edge.relation;
      FindRelationExact(after, name);
      assert MadeFrom(made[last], created[last], after.relationNames, epoch);
      assert name in after.relationNames.Values;
      assert Relink(made) == Relink(made[..last]) + [LinkOf(made[last])];
    }
  }

  lemma {:induction false} LinksOfLists(pointers: seq<Pointer>, before: Delta)
    ensures LinksOf(before + Relink(pointers)) == LinksOf(before) + Relink(pointers)
    ensures UnlinksOf(before + Relink(pointers)) == UnlinksOf(before)
  {
    hide LinksOf, UnlinksOf;
    if pointers == [] {
      assert before + Relink(pointers) == before;
    } else {
      var last := |pointers| - 1;
      LinksOfLists(pointers[..last], before);
      assert Relink(pointers) == Relink(pointers[..last]) + [LinkOf(pointers[last])];
      assert before + Relink(pointers) == before + Relink(pointers[..last]) + [LinkOf(pointers[last])];
      LinksPush(before + Relink(pointers[..last]), LinkOf(pointers[last]));
    }
  }

  lemma {:induction false} UnlinksOfList(pointers: seq<Pointer>)
    ensures LinksOf(Unlink(pointers)) == [] && UnlinksOf(Unlink(pointers)) == Unlink(pointers)
  {
    if pointers != [] {
      var last := |pointers| - 1;
      UnlinksOfList(pointers[..last]);
      assert Unlink(pointers) == Unlink(pointers[..last]) + [ExpirePointer(pointers[last].id)];
      LinksPush(Unlink(pointers[..last]), ExpirePointer(pointers[last].id));
    }
  }

  // The links and unlinks of a list that clears pointers and makes them again.
  lemma AgainSplit(made: seq<Pointer>)
    ensures var again := Unlink(made) + Relink(made) + [Traced("world.derive")];
            UnlinksOf(again) == Unlink(made) && LinksOf(again) == Relink(made)
  {
    UnlinksOfList(made);
    LinksOfLists(made, Unlink(made));
    LinksPush(Unlink(made) + Relink(made), Traced("world.derive"));
    assert [] + Relink(made) == Relink(made) && Relink(made) + [] == Relink(made) && Unlink(made) + [] == Unlink(made);
  }

  lemma StepFromStepped(s: Snapshot, rules: seq<Rule>, after: Snapshot, created: seq<Derived>)
    requires WellFormed(s) && rules != [] && created == CreatedList(s, rules) && Stepped(s, after, created)
    ensures CreatedList(after, rules) == created
    ensures StepDelta(after, rules) == Unlink(Made(s, after)) + Relink(Made(s, after)) + [Traced("world.derive")]
    ensures |Made(s, after)| == |created|
  {
    hide WellFormed, MadeFrom, Cleared, Listed, Created, ClearedUpTo, Extends, Clearing, LinkAll, Unlink, Relink;
    AuthoredSame(s, after, created);
    ClearsWhatItMade(s, after, created);
    var made := Made(s, after);
    var d := Draft(Unlink(made), map[], NextSymbol(after.relationNames));
    SymbolsFine(after);
    assert forall j :: 0 <= j < |created| ==> made[j] == after.pointers[|s.pointers| + j];
    RelinksSame(after, d, created, made, s.epoch + 1);
  }

  // A second step unlinks exactly the pointers the first one made and links exactly the
  // same list again, whether or not the rounds were cut off.
  lemma SteppingAgain(s: Snapshot, rules: seq<Rule>)
    requires WellFormed(s) && rules != [] && RulesNamed(rules)
    ensures Apply(s, StepDelta(s, rules)).Ok?
    ensures var after := Apply(s, StepDelta(s, rules)).value;
            var made, again := Made(s, after), StepDelta(after, rules);
            && CreatedList(after, rules) == CreatedList(s, rules) && |made| == |CreatedList(s, rules)|
            && UnlinksOf(again) == Unlink(made)
            && LinksOf(again) == LinksOf(StepDelta(s, rules)) == Relink(made)
            && |again| == 2 * |made| + 1
  {
    hide Apply, WellFormed, Stepped, StepDelta, CreatedList;
    StepApplies(s, rules);
    var after := Apply(s, StepDelta(s, rules)).value;
    StepFromStepped(s, rules, after, CreatedList(s, rules));
    AgainSplit(Made(s, after));
  }

  lemma SymbolsFine(s: Snapshot)
    requires WellFormed(s)
    ensures SymbolsOk(s.relationNames)
  {
  }
}
