// DerivationEvolution::step: clear what was derived before, derive again from the
// authored edges, and say so as one delta.

module Derivation {
  import opened Wrappers
  import opened Model
  import opened Attributes
  import opened Overlay
  import opened OverlayApply
  import opened Morphisms
  import opened Datalog
  import opened Closure

  datatype Derived = Derived(edge: Edge, role: Role, weight: Double)

  function EdgesOf(list: seq<Derived>): set<Edge> {
    set d | d in list :: d.edge
  }

  // ---- which rule an edge is credited to: the first to produce it

  function FirstRule(rules: seq<Rule>, facts: set<Edge>, e: Edge): (i: nat)
    requires e in AllHeads(rules, facts)
    ensures i < |rules| && e in Heads(rules[i], facts) && forall j :: 0 <= j < i ==> e !in Heads(rules[j], facts)
  {
    if e in Heads(rules[0], facts) then 0
    else
      var rest := rules[1..];
      assert e in AllHeads(rest, facts) by {
        var j :| 0 <= j < |rules| && e in Heads(rules[j], facts);
        assert rest[j - 1] == rules[j];
      }
      1 + FirstRule(rest, facts, e)
  }

  function Credit(rule: Rule, e: Edge): Derived {
    Derived(e, rule.head.role, rule.head.weight)
  }

  function Label(rules: seq<Rule>, facts: set<Edge>, e: Edge): Derived
    requires e in AllHeads(rules, facts)
  {
    Credit(rules[FirstRule(rules, facts, e)], e)
  }

  // What one round adds to the facts, and what all rounds together create.
  function NewDerived(rules: seq<Rule>, facts: set<Edge>): set<Derived> {
    Labelled(rules, facts, AllHeads(rules, facts) - facts)
  }

  function Labelled(rules: seq<Rule>, facts: set<Edge>, edges: set<Edge>): set<Derived> {
    set e | e in edges && e in AllHeads(rules, facts) :: Label(rules, facts, e)
  }

  function Created(rules: seq<Rule>, base: set<Edge>, n: nat): set<Derived> {
    if n == 0 then {} else Created(rules, base, n - 1) + NewDerived(rules, Rounds(rules, base, n - 1))
  }

  function EdgeSet(created: set<Derived>): set<Edge> {
    set d | d in created :: d.edge
  }

  lemma NewEdges(rules: seq<Rule>, facts: set<Edge>)
    ensures EdgeSet(NewDerived(rules, facts)) == AllHeads(rules, facts) - facts
  {
    forall e | e in AllHeads(rules, facts) - facts ensures e in EdgeSet(NewDerived(rules, facts)) {
      assert Label(rules, facts, e) in NewDerived(rules, facts);
    }
  }

  // Created edges are exactly what the rounds added: none authored, none created twice.
  lemma {:induction false} CreatedExact(rules: seq<Rule>, base: set<Edge>, n: nat)
    ensures EdgeSet(Created(rules, base, n)) == Rounds(rules, base, n) - base
    ensures forall d, d' :: d in Created(rules, base, n) && d' in Created(rules, base, n) && d.edge == d'.edge ==>
            d == d'
  {
    hide AllHeads, NewDerived;
    if n > 0 {
      var before, facts := Created(rules, base, n - 1), Rounds(rules, base, n - 1);
      CreatedExact(rules, base, n - 1);
      NewEdges(rules, facts);
      RoundsGrow(rules, base, n - 1);
      var added := NewDerived(rules, facts);
      forall d | d in before ensures d.edge in facts {
        assert d.edge in EdgeSet(before);
      }
      forall d | d in added ensures d.edge !in facts {
        assert d.edge in EdgeSet(added);
      }
      NewUnique(rules, facts);
      assert EdgeSet(before + added) == EdgeSet(before) + EdgeSet(added);
    }
  }

  lemma NewUnique(rules: seq<Rule>, facts: set<Edge>)
    ensures forall d, d' :: d in NewDerived(rules, facts) && d' in NewDerived(rules, facts) && d.edge == d'.edge ==>
            d == d'
  {
  }

  lemma NothingNew(rules: seq<Rule>, facts: set<Edge>)
    requires Grow(rules, facts) == facts
    ensures NewDerived(rules, facts) == {}
  {
    assert AllHeads(rules, facts) - facts == {};
  }

  lemma {:induction false} CreatedStay(rules: seq<Rule>, base: set<Edge>, n: nat, m: nat)
    requires n <= m && Rounds(rules, base, n + 1) == Rounds(rules, base, n)
    ensures Created(rules, base, m) == Created(rules, base, n)
    decreases m - n
  {
    hide AllHeads, NewDerived;
    if n < m {
      assert Rounds(rules, base, n + 2) == Grow(rules, Rounds(rules, base, n + 1));
      CreatedStay(rules, base, n + 1, m);
      NothingNew(rules, Rounds(rules, base, n));
    }
  }

  // ---- one round, as it runs

  // Each edge of the list is credited, where it first appears, to its first rule.
  ghost predicate FirstsCredited(round: seq<Derived>, rules: seq<Rule>, facts: set<Edge>) {
    forall k :: 0 <= k < |round| && round[k].edge !in EdgesOf(round[..k]) ==>
      round[k].edge in AllHeads(rules, facts) && round[k] == Label(rules, facts, round[k].edge)
  }

  ghost predicate HeadsUpTo(round: seq<Derived>, rules: seq<Rule>, facts: set<Edge>, upTo: nat)
    requires upTo <= |rules|
  {
    forall e :: e in EdgesOf(round) <==> e !in facts && exists j :: 0 <= j < upTo && e in Heads(rules[j], facts)
  }

  lemma EdgesPush(round: seq<Derived>, d: Derived)
    ensures EdgesOf(round + [d]) == EdgesOf(round) + {d.edge}
  {
    assert forall x :: x in round + [d] <==> x in round || x == d;
    assert d in round + [d];
  }

  lemma CreditPush(round: seq<Derived>, rules: seq<Rule>, facts: set<Edge>, i: nat, d: Derived)
    requires FirstsCredited(round, rules, facts) && i < |rules|
    requires d.edge in Heads(rules[i], facts) && d == Credit(rules[i], d.edge)
    requires d.edge !in EdgesOf(round) ==> forall j :: 0 <= j < i ==> d.edge !in Heads(rules[j], facts)
    ensures FirstsCredited(round + [d], rules, facts)
  {
    var longer := round + [d];
    assert d.edge in AllHeads(rules, facts);
    forall k | 0 <= k < |longer| && longer[k].edge !in EdgesOf(longer[..k])
      ensures longer[k].edge in AllHeads(rules, facts) && longer[k] == Label(rules, facts, longer[k].edge)
    {
      if k < |round| {
        assert longer[..k] == round[..k];
      } else {
        assert longer[..k] == round;
      }
    }
  }

  method RuleRound(rules: seq<Rule>, facts: set<Edge>, i: nat, round: seq<Derived>) returns (longer: seq<Derived>)
    requires i < |rules| && FirstsCredited(round, rules, facts) && HeadsUpTo(round, rules, facts, i)
    ensures FirstsCredited(longer, rules, facts) && HeadsUpTo(longer, rules, facts, i + 1)
  {
    hide Heads, Join, FirstsCredited;
    var evaluation := new Evaluation(rules[i], facts);
    evaluation.EvaluateBody(0);
    var visited, relation := evaluation.visited, rules[i].head.relation;
    assert Elems(visited) == Join(rules[i].body, map[], facts, rules[i].head) by {
      assert rules[i].body[0..] == rules[i].body;
      assert Elems<Pair>([]) == {};
    }
    VisitedHeads(rules[i], facts, visited);
    longer := round;
    for k := 0 to |visited|
      invariant FirstsCredited(longer, rules, facts)
      invariant forall e :: e in EdgesOf(longer) <==>
        e in EdgesOf(round) || (e !in facts &&
          exists m :: 0 <= m < k && e == Edge(relation, visited[m].0, visited[m].1))
    {
      var e := Edge(relation, visited[k].0, visited[k].1);
      if e !in facts {
        CreditPush(longer, rules, facts, i, Credit(rules[i], e));
        EdgesPush(longer, Credit(rules[i], e));
        longer := longer + [Credit(rules[i], e)];
      }
    }
  }

  lemma VisitedHeads(rule: Rule, facts: set<Edge>, visited: seq<Pair>)
    requires Elems(visited) == Join(rule.body, map[], facts, rule.head)
    ensures forall e :: e in Heads(rule, facts) <==>
                        exists m :: 0 <= m < |visited| && e == Edge(rule.head.relation, visited[m].0, visited[m].1)
  {
    forall e | e in Heads(rule, facts)
      ensures exists m :: 0 <= m < |visited| && e == Edge(rule.head.relation, visited[m].0, visited[m].1)
    {
      var p :| p in Join(rule.body, map[], facts, rule.head) && e == Edge(rule.head.relation, p.0, p.1);
      assert p in Elems(visited);
    }
    forall m | 0 <= m < |visited| ensures Edge(rule.head.relation, visited[m].0, visited[m].1) in Heads(rule, facts) {
      assert visited[m] in Elems(visited);
    }
  }

  method Round(rules: seq<Rule>, facts: set<Edge>) returns (round: seq<Derived>)
    ensures FirstsCredited(round, rules, facts)
    ensures EdgesOf(round) == AllHeads(rules, facts) - facts
  {
    hide FirstsCredited, Heads;
    round := [];
    NothingCredited(rules, facts);
    for i := 0 to |rules|
      invariant FirstsCredited(round, rules, facts) && HeadsUpTo(round, rules, facts, i)
    {
      round := RuleRound(rules, facts, i, round);
    }
  }

  lemma NothingCredited(rules: seq<Rule>, facts: set<Edge>)
    ensures FirstsCredited([], rules, facts)
  {
  }

  // Insert a round's edges, keeping those that are new.
  method InsertRound(rules: seq<Rule>, facts: set<Edge>, round: seq<Derived>, created: seq<Derived>)
    returns (facts': set<Edge>, created': seq<Derived>, changed: bool)
    requires FirstsCredited(round, rules, facts) && EdgesOf(round) == AllHeads(rules, facts) - facts
    requires EdgesOf(created) <= facts && Distinct(created)
    ensures facts' == facts + AllHeads(rules, facts)
    ensures Elems(created') == Elems(created) + NewDerived(rules, facts) && Distinct(created') &&
            EdgesOf(created') <= facts'
    ensures changed <==> facts' != facts
  {
    hide AllHeads, FirstsCredited, Labelled;
    facts', created', changed := facts, created, false;
    assert round[..0] == [] && EdgesOf([]) == {};
    LabelledNone(rules, facts);
    for k := 0 to |round|
      invariant facts' == facts + EdgesOf(round[..k])
      invariant EdgesOf(created') <= facts' && Distinct(created')
      invariant Elems(created') == Elems(created) + Labelled(rules, facts, EdgesOf(round[..k]))
      invariant changed <==> facts' != facts
    {
      assert round[..k + 1] == round[..k] + [round[k]];
      EdgesPush(round[..k], round[k]);
      var d := round[k];
      assert d.edge in EdgesOf(round);
      if d.edge !in facts' {
        FirstLabelled(rules, facts, round, k);
        EdgesPush(created', d);
        ElemsPush(created', d);
        facts' := facts' + {d.edge};
        created' := created' + [d];
        changed := true;
      } else {
        assert EdgesOf(round[..k + 1]) == EdgesOf(round[..k]);
      }
    }
    assert round[..|round|] == round;
  }

  lemma LabelledNone(rules: seq<Rule>, facts: set<Edge>)
    ensures Labelled(rules, facts, {}) == {}
  {
  }

  lemma FirstLabelled(rules: seq<Rule>, facts: set<Edge>, round: seq<Derived>, k: nat)
    requires FirstsCredited(round, rules, facts) && k < |round| && round[k].edge !in EdgesOf(round[..k])
    ensures Labelled(rules, facts, EdgesOf(round[..k]) + {round[k].edge}) ==
            Labelled(rules, facts, EdgesOf(round[..k])) + {round[k]}
  {
  }

  ghost predicate Distinct(list: seq<Derived>) {
    forall i, j :: 0 <= i < j < |list| ==> list[i].edge != list[j].edge
  }

  // The capped loop: all rounds, or as many as change something.
  method Derive(rules: seq<Rule>, base: set<Edge>, cap: nat) returns (created: seq<Derived>, facts: set<Edge>)
    ensures facts == Rounds(rules, base, cap)
    ensures Elems(created) == Created(rules, base, cap) && Distinct(created)
  {
    hide NewDerived, AllHeads, FirstsCredited;
    created, facts := [], base;
    var n := 0;
    while n < cap
      invariant n <= cap && facts == Rounds(rules, base, n)
      invariant Elems(created) == Created(rules, base, n) && Distinct(created) && EdgesOf(created) <= facts
    {
      var round := Round(rules, facts);
      var changed;
      facts, created, changed := InsertRound(rules, facts, round, created);
      if !changed {
        assert Created(rules, base, n + 1) == Created(rules, base, n) + NewDerived(rules, Rounds(rules, base, n));
        CreatedStay(rules, base, n, cap);
        CreatedStay(rules, base, n, n + 1);
        RoundsStay(rules, base, n, cap);
        return;
      }
      n := n + 1;
    }
  }
}
