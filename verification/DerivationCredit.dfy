// The role and weight a derived edge carries: those of the first rule to yield it, in the
// first round any does.

module DerivationCredit {
  import opened Model
  import opened Attributes
  import opened Overlay
  import opened Invariants
  import opened Datalog
  import opened Closure
  import opened Derivation
  import opened DerivationStep
  import opened DerivationProof

  // No rule yields the edge before round n, and none before rule i yields it there.
  ghost predicate FirstYield(rules: seq<Rule>, base: set<Edge>, e: Edge, n: nat, i: nat) {
    && i < |rules| && Produces(rules[i], Rounds(rules, base, n), e)
    && (forall j :: 0 <= j < i ==> !Produces(rules[j], Rounds(rules, base, n), e))
    && (forall m, j :: 0 <= m < n && 0 <= j < |rules| ==> !Produces(rules[j], Rounds(rules, base, m), e))
  }

  // The rule and the round are unique.
  lemma OneFirstYield(rules: seq<Rule>, base: set<Edge>, e: Edge, n: nat, i: nat, n': nat, i': nat)
    requires FirstYield(rules, base, e, n, i) && FirstYield(rules, base, e, n', i')
    ensures n == n' && i == i'
  {
    hide Produces, Rounds;
  }

  ghost predicate FirstCredit(rules: seq<Rule>, base: set<Edge>, e: Edge, role: Role, weight: Double, n: nat, i: nat) {
    FirstYield(rules, base, e, n, i) && role == rules[i].head.role && weight == rules[i].head.weight
  }

  ghost predicate CreditedTo(rules: seq<Rule>, base: set<Edge>, cap: nat, e: Edge, role: Role, weight: Double) {
    exists n: nat, i: nat :: n < cap && FirstCredit(rules, base, e, role, weight, n, i)
  }

  lemma LabelCredits(rules: seq<Rule>, base: set<Edge>, n: nat, d: Derived) returns (i: nat)
    requires d in NewDerived(rules, Rounds(rules, base, n))
    ensures FirstCredit(rules, base, d.edge, d.role, d.weight, n, i)
  {
    hide Produces, Heads, Rounds;
    var facts := Rounds(rules, base, n);
    var e :| e in AllHeads(rules, facts) - facts && d == Label(rules, facts, e);
    i := FirstRule(rules, facts, e);
    forall j | 0 <= j < |rules| ensures e in Heads(rules[j], facts) <==> Produces(rules[j], facts, e) {
      HeadsExact(rules[j], facts, e);
    }
    forall m, j | 0 <= m < n && 0 <= j < |rules| ensures !Produces(rules[j], Rounds(rules, base, m), e) {
      if Produces(rules[j], Rounds(rules, base, m), e) {
        GrowExact(rules, Rounds(rules, base, m), e);
        RoundsMore(rules, base, m + 1, n, e);
      }
    }
  }

  lemma {:induction false} RoundsMore(rules: seq<Rule>, base: set<Edge>, n: nat, m: nat, e: Edge)
    requires n <= m
    requires e in Rounds(rules, base, n) || (n > 0 && e in AllHeads(rules, Rounds(rules, base, n - 1)))
    ensures e in Rounds(rules, base, m)
    decreases m - n
  {
    hide AllHeads;
    if n < m {
      assert e in Rounds(rules, base, n);
      RoundsMore(rules, base, n + 1, m, e);
    }
  }

  lemma {:induction false} CreatedCredited(rules: seq<Rule>, base: set<Edge>, cap: nat, d: Derived)
    requires d in Created(rules, base, cap)
    ensures CreditedTo(rules, base, cap, d.edge, d.role, d.weight)
  {
    hide NewDerived, Rounds, FirstCredit;
    if d in Created(rules, base, cap - 1) {
      CreatedCredited(rules, base, cap - 1, d);
    } else {
      var i := LabelCredits(rules, base, cap - 1, d);
    }
  }

  lemma ListCredited(s: Snapshot, rules: seq<Rule>, j: nat)
    requires j < |CreatedList(s, rules)|
    ensures var d := CreatedList(s, rules)[j];
            CreditedTo(rules, Authored(s), Cap(s), d.edge, d.role, d.weight)
  {
    hide Created, CreditedTo;
    CreatedExact(rules, Authored(s), Cap(s));
    assert CreatedList(s, rules)[j] in Elems(CreatedList(s, rules));
    CreatedCredited(rules, Authored(s), Cap(s), CreatedList(s, rules)[j]);
  }

  // The edge a pointer stands for.
  function EdgeOf(p: Pointer, names: map<nat, string>): Edge {
    Edge(if p.relation in names then names[p.relation] else "", p.from, p.to)
  }

  // Every pointer a step makes, and every link of its delta, carries the role and weight of
  // the first rule to yield its edge from the authored ones; and every edge that the rounds
  // yield and nobody authored has its pointer.
  lemma StepCredits(s: Snapshot, rules: seq<Rule>)
    requires WellFormed(s) && rules != [] && RulesNamed(rules)
    ensures Apply(s, StepDelta(s, rules)).Ok?
    ensures var after := Apply(s, StepDelta(s, rules)).value;
            var made := Made(s, after);
            && (forall j :: 0 <= j < |made| ==>
                  made[j].relation in after.relationNames &&
                  CreditedTo(rules, Authored(s), Cap(s), EdgeOf(made[j], after.relationNames), made[j].role,
                             made[j].weight))
            && LinksOf(StepDelta(s, rules)) == Relink(made)
            && (forall e :: e in Rounds(rules, Authored(s), Cap(s)) && e !in Authored(s) ==>
                  exists j :: 0 <= j < |made| && EdgeOf(made[j], after.relationNames) == e)
  {
    hide Apply, WellFormed, StepDelta, CreditedTo, Relink, LinksOf, ClearedUpTo, Extends, CreatedList, Rounds;
    StepApplies(s, rules);
    var after, created := Apply(s, StepDelta(s, rules)).value, CreatedList(s, rules);
    var made := Made(s, after);
    forall j | 0 <= j < |made|
      ensures made[j].relation in after.relationNames && EdgeOf(made[j], after.relationNames) == created[j].edge
      ensures CreditedTo(rules, Authored(s), Cap(s), EdgeOf(made[j], after.relationNames), made[j].role,
                         made[j].weight)
    {
      assert made[j] == after.pointers[|s.pointers| + j];
      assert MadeFrom(after.pointers[|s.pointers| + j], created[j], after.relationNames, s.epoch + 1);
      ListCredited(s, rules, j);
    }
    forall e | e in Rounds(rules, Authored(s), Cap(s)) && e !in Authored(s)
      ensures exists j :: 0 <= j < |made| && EdgeOf(made[j], after.relationNames) == e
    {
      var j := ListHas(s, rules, e);
      assert EdgeOf(made[j], after.relationNames) == e;
    }
  }

  ghost predicate IdBelow(a: ObjectId, b: ObjectId) {
    a.index < b.index || (a.index == b.index && a.generation < b.generation)
  }

  // The created edges are listed by source, then target, then relation.
  lemma ListOrder(s: Snapshot, rules: seq<Rule>, i: nat, j: nat)
    requires i < j < |CreatedList(s, rules)|
    ensures var a, b := CreatedList(s, rules)[i].edge, CreatedList(s, rules)[j].edge;
            || IdBelow(a.from, b.from)
            || (a.from == b.from && IdBelow(a.to, b.to))
            || (a.from == b.from && a.to == b.to && StringBelow(a.relation, b.relation))
  {
    hide Created;
    CreatedExact(rules, Authored(s), Cap(s));
    var a, b := CreatedList(s, rules)[i], CreatedList(s, rules)[j];
    assert Less(a, b);
    StringExact(a.edge.relation, b.edge.relation);
  }

  lemma ListHas(s: Snapshot, rules: seq<Rule>, e: Edge) returns (j: nat)
    requires e in Rounds(rules, Authored(s), Cap(s)) && e !in Authored(s)
    ensures j < |CreatedList(s, rules)| && CreatedList(s, rules)[j].edge == e
  {
    hide Created, Rounds;
    CreatedExact(rules, Authored(s), Cap(s));
    ListedEdges(Created(rules, Authored(s), Cap(s)));
    var list := CreatedList(s, rules);
    assert e in EdgesOf(list);
    var d :| d in list && d.edge == e;
    j :| 0 <= j < |list| && list[j] == d;
  }

  // The edges a step starts from: of the pointers already born and not yet expired, those of
  // another law domain than its own.
  lemma AuthoredExact(s: Snapshot, e: Edge)
    requires WellFormed(s)
    ensures e in Authored(s) <==>
            exists i :: 0 <= i < |s.pointers| && EdgeOf(s.pointers[i], s.relationNames) == e &&
              s.pointers[i].lawDomain != "derivation" && s.pointers[i].bornAt <= s.epoch &&
              (s.pointers[i].expiresAt.Some? ==> s.epoch < s.pointers[i].expiresAt.value)
  {
    hide ObjectsOk, SymbolsOk, TimesOk;
    forall i | 0 <= i < |s.pointers|
      ensures RelationName(s.relationNames, s.pointers[i].relation) == s.relationNames[s.pointers[i].relation]
      ensures s.pointers[i].relation in s.relationNames
    {
      assert PointerOk(s.pointers[i], IdSet(s.objects), s.relationNames, s.epoch);
    }
  }
}
