// How high derivations must be: proof trees over the rules, what the rounds reach of them,
// and conditions on the rules alone under which a number of rounds is enough.

module Heights {
  import opened Model
  import opened Datalog
  import opened Closure

  // ---- proof trees

  // A given edge, or a rule under an assignment with a proof of each atom of its body.
  datatype Proof = Given(edge: Edge) | By(rule: nat, a: Binding, premises: seq<Proof>, edge: Edge)

  predicate Follows(rule: Rule, a: Binding, premises: seq<Proof>, e: Edge) {
    && a.Keys == Vars(rule.body) && |premises| == |rule.body|
    && (forall k :: 0 <= k < |rule.body| ==>
          rule.body[k].fromVar in a && rule.body[k].toVar in a &&
          premises[k].edge == Edge(rule.body[k].relation, a[rule.body[k].fromVar], a[rule.body[k].toVar]))
    && rule.head.fromVar in a && rule.head.toVar in a
    && e == Edge(rule.head.relation, a[rule.head.fromVar], a[rule.head.toVar])
  }

  predicate Proves(rules: seq<Rule>, base: set<Edge>, p: Proof) {
    match p
    case Given(e) => e in base
    case By(i, a, premises, e) =>
      i < |rules| && Follows(rules[i], a, premises, e) && forall k :: 0 <= k < |premises| ==>
        Proves(rules, base, premises[k])
  }

  // No branch of the tree uses more rules than that, one above the other.
  predicate NoHigher(p: Proof, h: nat) {
    match p
    case Given(_) => true
    case By(_, _, premises, _) => h > 0 && forall k :: 0 <= k < |premises| ==> NoHigher(premises[k], h - 1)
  }

  ghost predicate Shows(rules: seq<Rule>, base: set<Edge>, h: nat, p: Proof, e: Edge) {
    Proves(rules, base, p) && NoHigher(p, h) && p.edge == e
  }

  ghost predicate ProvedWithin(rules: seq<Rule>, base: set<Edge>, e: Edge, h: nat) {
    exists p :: Shows(rules, base, h, p, e)
  }

  // Every edge with a proof has one no higher than that.
  ghost predicate LowProofs(rules: seq<Rule>, base: set<Edge>, h: nat) {
    forall p :: Proves(rules, base, p) ==> ProvedWithin(rules, base, p.edge, h)
  }

  lemma {:induction false} NoHigherMore(p: Proof, h: nat, more: nat)
    requires NoHigher(p, h) && h <= more
    ensures NoHigher(p, more)
  {
    if p.By? {
      forall k | 0 <= k < |p.premises| ensures NoHigher(p.premises[k], more - 1) {
        NoHigherMore(p.premises[k], h - 1, more - 1);
      }
    }
  }

  // Every proof has a height.
  lemma {:induction false} HeightOf(p: Proof) returns (h: nat)
    ensures NoHigher(p, h)
  {
    h := 0;
    if p.By? {
      var top: nat := 0;
      for i := 0 to |p.premises|
        invariant forall k :: 0 <= k < i ==> NoHigher(p.premises[k], top)
      {
        var one := HeightOf(p.premises[i]);
        forall k | 0 <= k <= i ensures NoHigher(p.premises[k], Max(top, one)) {
          NoHigherMore(p.premises[k], if k < i then top else one, Max(top, one));
        }
        top := Max(top, one);
      }
      h := top + 1;
    }
  }

  // ---- the rounds reach exactly the conclusions of proofs that are no higher

  lemma {:induction false} ProofReached(rules: seq<Rule>, base: set<Edge>, p: Proof, n: nat)
    requires Proves(rules, base, p) && NoHigher(p, n)
    ensures p.edge in Rounds(rules, base, n)
  {
    hide AllHeads;
    RoundsGrow(rules, base, n);
    if p.By? {
      var facts, rule := Rounds(rules, base, n - 1), rules[p.rule];
      forall k | 0 <= k < |p.premises| ensures p.premises[k].edge in facts {
        ProofReached(rules, base, p.premises[k], n - 1);
      }
      assert Yields(rule.body, p.a, facts, rule.head, (p.edge.from, p.edge.to));
      assert Produces(rule, facts, p.edge);
      GrowExact(rules, facts, p.edge);
    }
  }

  lemma {:induction false} ReachedProved(rules: seq<Rule>, base: set<Edge>, n: nat, e: Edge)
    requires e in Rounds(rules, base, n)
    ensures ProvedWithin(rules, base, e, n)
    decreases n, 1, 0
  {
    hide AllHeads, Produces, Vars, NoHigher;
    if e in base {
      GivenLow(Given(e), n);
      assert Shows(rules, base, n, Given(e), e);
    } else {
      var facts := Rounds(rules, base, n - 1);
      GrowExact(rules, facts, e);
      if e in facts {
        ReachedProved(rules, base, n - 1, e);
        var p :| Shows(rules, base, n - 1, p, e);
        NoHigherMore(p, n - 1, n);
        assert Shows(rules, base, n, p, e);
      } else {
        var i :| 0 <= i < |rules| && Produces(rules[i], facts, e);
        ProducedProved(rules, base, n, i, e);
      }
    }
  }

  lemma {:induction false} ProducedProved(rules: seq<Rule>, base: set<Edge>, n: nat, i: nat, e: Edge)
    requires n > 0 && i < |rules| && Produces(rules[i], Rounds(rules, base, n - 1), e)
    ensures ProvedWithin(rules, base, e, n)
    decreases n, 0, 1
  {
    hide Rounds, Proves, NoHigher;
    var facts, rule := Rounds(rules, base, n - 1), rules[i];
    var a: Binding :| a.Keys == Vars(rule.body) && Yields(rule.body, a, facts, rule.head, (e.from, e.to));
    var premises := Premises(rules, base, n, rule, a);
    Concluded(rules, base, n, i, a, premises, e);
  }

  lemma {:induction false} Premises(rules: seq<Rule>, base: set<Edge>, n: nat, rule: Rule, a: Binding)
    returns (premises: seq<Proof>)
    requires n > 0 && Satisfiable(rule, a)
    requires forall k :: 0 <= k < |rule.body| ==> AtomEdge(rule.body[k], a) in Rounds(rules, base, n - 1)
    ensures |premises| == |rule.body|
    ensures forall k :: 0 <= k < |premises| ==> Shows(rules, base, n - 1, premises[k], AtomEdge(rule.body[k], a))
    decreases n, 0, 0
  {
    hide Rounds, Shows, AtomEdge, Vars;
    premises := [];
    for k := 0 to |rule.body|
      invariant |premises| == k && forall j :: 0 <= j < k ==>
                Shows(rules, base, n - 1, premises[j], AtomEdge(rule.body[j], a))
    {
      var edge := AtomEdge(rule.body[k], a);
      ReachedProved(rules, base, n - 1, edge);
      var p :| Shows(rules, base, n - 1, p, edge);
      premises := premises + [p];
    }
  }

  function AtomEdge(atom: Atom, a: Binding): Edge
    requires atom.fromVar in a && atom.toVar in a
  {
    Edge(atom.relation, a[atom.fromVar], a[atom.toVar])
  }

  lemma Concluded(rules: seq<Rule>, base: set<Edge>, n: nat, i: nat, a: Binding, premises: seq<Proof>, e: Edge)
    requires n > 0 && i < |rules| && Satisfiable(rules[i], a) &&
             e == Edge(rules[i].head.relation, a[rules[i].head.fromVar], a[rules[i].head.toVar])
    requires |premises| == |rules[i].body|
    requires forall k :: 0 <= k < |premises| ==> Shows(rules, base, n - 1, premises[k], AtomEdge(rules[i].body[k], a))
    ensures ProvedWithin(rules, base, e, n)
  {
    var p := By(i, a, premises, e);
    assert Follows(rules[i], a, premises, e);
    assert forall k :: 0 <= k < |premises| ==> Proves(rules, base, premises[k]) && NoHigher(premises[k], n - 1);
    assert Shows(rules, base, n, p, e);
  }

  // The assignment is one of the body's variables, the head's among them.
  predicate Satisfiable(rule: Rule, a: Binding) {
    && a.Keys == Vars(rule.body) && rule.head.fromVar in a && rule.head.toVar in a
    && forall k :: 0 <= k < |rule.body| ==> rule.body[k].fromVar in a && rule.body[k].toVar in a
  }

  // So many rounds reach the least model exactly when no edge needs a higher proof.
  lemma RoundsReachLow(rules: seq<Rule>, base: set<Edge>, n: nat)
    ensures LeastModel(rules, base, Rounds(rules, base, n)) <==> LowProofs(rules, base, n)
  {
    hide LeastModel, Rounds, Proves, NoHigher, Vars;
    RoundsReach(rules, base, n);
    if Rounds(rules, base, n + 1) == Rounds(rules, base, n) {
      forall p | Proves(rules, base, p) ensures ProvedWithin(rules, base, p.edge, n) {
        var h := HeightOf(p);
        NoHigherMore(p, h, n + h);
        ProofReached(rules, base, p, n + h);
        RoundsStay(rules, base, n, n + h);
        ReachedProved(rules, base, n, p.edge);
      }
    }
    if LowProofs(rules, base, n) {
      forall e ensures e in Rounds(rules, base, n + 1) <==> e in Rounds(rules, base, n) {
        if e in Rounds(rules, base, n + 1) {
          ReachedProved(rules, base, n + 1, e);
          var p :| Shows(rules, base, n + 1, p, e);
          var q :| Shows(rules, base, n, q, e);
          ProofReached(rules, base, q, n);
        }
        RoundsNext(rules, base, n);
      }
    }
  }

  lemma RoundsNext(rules: seq<Rule>, base: set<Edge>, n: nat)
    ensures Rounds(rules, base, n) <= Rounds(rules, base, n + 1)
  {
    hide AllHeads;
  }

  // ---- ranks: rules without a cycle among their relations

  // The rank of a rule's head is above those of its body, and at most the bound.
  ghost predicate Ranked(rules: seq<Rule>, rank: string -> nat, bound: nat) {
    forall i :: 0 <= i < |rules| ==>
      && rank(rules[i].head.relation) <= bound
      && forall k :: 0 <= k < |rules[i].body| ==> rank(rules[i].body[k].relation) < rank(rules[i].head.relation)
  }

  // A rule that concludes something has a body.
  lemma Grounded(rule: Rule, a: Binding, premises: seq<Proof>, e: Edge)
    requires Follows(rule, a, premises, e)
    ensures rule.body != [] && |premises| == |rule.body| && e.relation == rule.head.relation
    ensures forall k :: 0 <= k < |premises| ==> premises[k].edge.relation == rule.body[k].relation
  {
    assert rule.body == [] ==> Vars(rule.body) == {};
  }

  // A proof is no higher than the rank of its conclusion.
  lemma {:induction false} RankedHeight(rules: seq<Rule>, base: set<Edge>, rank: string -> nat, bound: nat, p: Proof)
    requires Ranked(rules, rank, bound) && Proves(rules, base, p)
    ensures p.By? ==> NoHigher(p, rank(p.edge.relation)) && rank(p.edge.relation) <= bound
  {
    hide Follows;
    if p.By? {
      var rule := rules[p.rule];
      var r := rank(rule.head.relation);
      Grounded(rule, p.a, p.premises, p.edge);
      forall k | 0 <= k < |p.premises| ensures r > 0 && NoHigher(p.premises[k], r - 1) {
        RankedHeight(rules, base, rank, bound, p.premises[k]);
        RankRises(rules, rank, bound, p.rule, k);
        if p.premises[k].By? {
          NoHigherMore(p.premises[k], rank(rule.body[k].relation), r - 1);
        }
      }
      RankRises(rules, rank, bound, p.rule, 0);
    }
  }

  lemma RankRises(rules: seq<Rule>, rank: string -> nat, bound: nat, i: nat, k: nat)
    requires Ranked(rules, rank, bound) && i < |rules| && k < |rules[i].body|
    ensures rank(rules[i].body[k].relation) < rank(rules[i].head.relation) <= bound
  {
  }

  // Ranked rules reach their least model in as many rounds as the highest rank.
  lemma RankedReach(rules: seq<Rule>, base: set<Edge>, rank: string -> nat, bound: nat)
    requires Ranked(rules, rank, bound)
    ensures LeastModel(rules, base, Rounds(rules, base, bound))
  {
    hide LeastModel, Rounds, Proves, NoHigher, Vars;
    forall p | Proves(rules, base, p) ensures ProvedWithin(rules, base, p.edge, bound) {
      RankedHeight(rules, base, rank, bound, p);
      if p.By? {
        NoHigherMore(p, rank(p.edge.relation), bound);
      } else {
        GivenLow(p, bound);
      }
      assert Shows(rules, base, bound, p, p.edge);
    }
    RoundsReachLow(rules, base, bound);
  }

  lemma GivenLow(p: Proof, h: nat)
    requires p.Given?
    ensures NoHigher(p, h)
  {
  }

  // ---- chains show that the bound is sharp

  lemma ChainRanked(n: nat)
    ensures Ranked(Chain(n), (r: string) => if r == "" then 0 else |r| - 1, n)
  {
    var rules := Chain(n);
    forall i | 0 <= i < |rules|
      ensures |rules[i].head.relation| == i + 2 && |rules[i].body| == 1 && |rules[i].body[0].relation| == i + 1
    {
      assert |Link(i)| == i + 1 && |Link(i + 1)| == i + 2;
    }
  }

  // A chain of n rules over one loop is closed by so many rounds exactly when there are n.
  lemma ChainReached(o: ObjectId, n: nat, rounds: nat)
    ensures LeastModel(Chain(n), {Edge(Link(0), o, o)}, Rounds(Chain(n), {Edge(Link(0), o, o)}, rounds)) <==>
            n <= rounds
  {
    hide LeastModel, Ranked, Grow, Chain;
    var rank := (r: string) => if r == "" then 0 else |r| - 1;
    var base := {Edge(Link(0), o, o)};
    ChainRanked(n);
    if n <= rounds {
      RankedMore(Chain(n), rank, n, rounds);
      RankedReach(Chain(n), base, rank, rounds);
    } else {
      ChainRounds(o, n, rounds);
      ChainRounds(o, n, rounds + 1);
      RoundsReach(Chain(n), base, rounds);
      ChainHolds(o, rounds, rounds + 1);
      ChainHolds(o, rounds + 1, rounds + 1);
    }
  }

  lemma RankedMore(rules: seq<Rule>, rank: string -> nat, bound: nat, more: nat)
    requires Ranked(rules, rank, bound) && bound <= more
    ensures Ranked(rules, rank, more)
  {
  }
}
