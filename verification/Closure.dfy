// Rounds of forward chaining, the least model they grow towards, and when they reach it.

module Closure {
  import opened Wrappers
  import opened Model
  import opened Datalog

  // Every edge some rule produces from the facts.
  function AllHeads(rules: seq<Rule>, facts: set<Edge>): set<Edge> {
    set i, e | 0 <= i < |rules| && e in Heads(rules[i], facts) :: e
  }

  function Grow(rules: seq<Rule>, facts: set<Edge>): set<Edge> {
    facts + AllHeads(rules, facts)
  }

  function Rounds(rules: seq<Rule>, base: set<Edge>, n: nat): set<Edge> {
    if n == 0 then base else Grow(rules, Rounds(rules, base, n - 1))
  }

  // The smallest set of edges that holds the base and is closed under the rules.
  ghost predicate LeastModel(rules: seq<Rule>, base: set<Edge>, m: set<Edge>) {
    && base <= m && ClosedUnder(rules, m)
    && forall other: set<Edge> :: base <= other && ClosedUnder(rules, other) ==> m <= other
  }

  lemma YieldsMore(body: seq<Atom>, a: Binding, facts: set<Edge>, more: set<Edge>, head: Head, p: Pair)
    requires facts <= more && Yields(body, a, facts, head, p)
    ensures Yields(body, a, more, head, p)
  {
  }

  lemma ProducesMore(rule: Rule, facts: set<Edge>, more: set<Edge>, e: Edge)
    requires facts <= more && Produces(rule, facts, e)
    ensures Produces(rule, more, e)
  {
    var a: Binding :| a.Keys == Vars(rule.body) && Yields(rule.body, a, facts, rule.head, (e.from, e.to));
    YieldsMore(rule.body, a, facts, more, rule.head, (e.from, e.to));
  }

  lemma GrowExact(rules: seq<Rule>, facts: set<Edge>, e: Edge)
    ensures e in AllHeads(rules, facts) <==> exists i :: 0 <= i < |rules| && Produces(rules[i], facts, e)
  {
    hide Heads, Produces;
    if e in AllHeads(rules, facts) {
      var i :| 0 <= i < |rules| && e in Heads(rules[i], facts);
      HeadsExact(rules[i], facts, e);
    }
    forall i | 0 <= i < |rules| && Produces(rules[i], facts, e) ensures e in AllHeads(rules, facts) {
      HeadsExact(rules[i], facts, e);
      assert e in Heads(rules[i], facts);
    }
  }

  lemma GrowIdle(rules: seq<Rule>, facts: set<Edge>)
    ensures Grow(rules, facts) == facts <==> ClosedUnder(rules, facts)
  {
    hide Produces, AllHeads;
    forall e ensures e in AllHeads(rules, facts) <==> exists i :: 0 <= i < |rules| && Produces(rules[i], facts, e) {
      GrowExact(rules, facts, e);
    }
  }

  lemma GrowWithin(rules: seq<Rule>, facts: set<Edge>, other: set<Edge>)
    requires facts <= other && ClosedUnder(rules, other)
    ensures Grow(rules, facts) <= other
  {
    hide Produces, AllHeads;
    forall e | e in AllHeads(rules, facts) ensures e in other {
      GrowExact(rules, facts, e);
      var i :| 0 <= i < |rules| && Produces(rules[i], facts, e);
      ProducesMore(rules[i], facts, other, e);
    }
  }

  // Soundness: however many rounds, nothing outside the least model is created.
  lemma {:induction false} RoundsWithin(rules: seq<Rule>, base: set<Edge>, n: nat, other: set<Edge>)
    requires base <= other && ClosedUnder(rules, other)
    ensures base <= Rounds(rules, base, n) <= other
  {
    hide ClosedUnder, Grow;
    if n > 0 {
      RoundsWithin(rules, base, n - 1, other);
      GrowWithin(rules, Rounds(rules, base, n - 1), other);
      GrowKeeps(rules, Rounds(rules, base, n - 1));
    }
  }

  lemma GrowKeeps(rules: seq<Rule>, facts: set<Edge>)
    ensures facts <= Grow(rules, facts)
  {
  }

  lemma {:induction false} RoundsGrow(rules: seq<Rule>, base: set<Edge>, n: nat)
    ensures base <= Rounds(rules, base, n)
  {
    hide AllHeads;
    if n > 0 {
      RoundsGrow(rules, base, n - 1);
    }
  }

  // Completeness: the rounds have reached the least model exactly when one more adds nothing.
  lemma RoundsReach(rules: seq<Rule>, base: set<Edge>, n: nat)
    ensures LeastModel(rules, base, Rounds(rules, base, n)) <==> Rounds(rules, base, n + 1) == Rounds(rules, base, n)
  {
    hide ClosedUnder, Grow;
    var m := Rounds(rules, base, n);
    GrowIdle(rules, m);
    RoundsGrow(rules, base, n);
    forall other: set<Edge> | base <= other && ClosedUnder(rules, other) ensures m <= other {
      RoundsWithin(rules, base, n, other);
    }
  }

  lemma {:induction false} RoundsStay(rules: seq<Rule>, base: set<Edge>, n: nat, m: nat)
    requires n <= m && Rounds(rules, base, n + 1) == Rounds(rules, base, n)
    ensures Rounds(rules, base, m) == Rounds(rules, base, n)
    decreases m - n
  {
    hide Grow;
    if n < m {
      assert Rounds(rules, base, n + 2) == Grow(rules, Rounds(rules, base, n + 1));
      RoundsStay(rules, base, n + 1, m);
    }
  }

  // A round that changes anything adds an edge, so a closed set with no more than n new
  // edges bounds the search by n rounds.
  lemma {:induction false} RoundsCount(rules: seq<Rule>, base: set<Edge>, n: nat, other: set<Edge>)
    requires base <= other && ClosedUnder(rules, other)
    ensures ClosedUnder(rules, Rounds(rules, base, n)) || |Rounds(rules, base, n)| >= |base| + n
  {
    hide ClosedUnder, Grow;
    if n > 0 {
      RoundsCount(rules, base, n - 1, other);
      var before := Rounds(rules, base, n - 1);
      GrowIdle(rules, before);
      GrowKeeps(rules, before);
      if Grow(rules, before) != before {
        Strictly(before, Grow(rules, before));
      }
    }
  }

  lemma Strictly<T>(a: set<T>, b: set<T>)
    requires a < b
    ensures |b| >= |a| + 1
  {
    var x :| x in b && x !in a;
    Subsets(a + {x}, b);
  }

  lemma {:induction false} Subsets<T>(a: set<T>, b: set<T>)
    requires a <= b
    ensures |a| <= |b|
  {
    if a != {} {
      var x :| x in a;
      Subsets(a - {x}, b - {x});
    }
  }

  // The cap suffices whenever some closed set adds fewer edges to the base than the cap.
  lemma CapByCount(rules: seq<Rule>, base: set<Edge>, n: nat, other: set<Edge>)
    requires base <= other && ClosedUnder(rules, other) && |other| < |base| + n
    ensures LeastModel(rules, base, Rounds(rules, base, n))
  {
    hide ClosedUnder, Grow;
    RoundsCount(rules, base, n, other);
    RoundsWithin(rules, base, n, other);
    Subsets(Rounds(rules, base, n), other);
    GrowIdle(rules, Rounds(rules, base, n));
    RoundsReach(rules, base, n);
  }

  // ---- reachability: X -> Y, Y -> Z makes X -> Z

  function Transitive(name: string, x: string, y: string, z: string, r: string, role: Role, weight: Double): Rule {
    Rule(name, [Atom(x, r, y), Atom(y, r, z)], Head(x, r, z, role, weight))
  }

  ghost predicate Hop(facts: set<Edge>, r: string, a: ObjectId, c: ObjectId) {
    exists b :: Edge(r, a, b) in facts && Edge(r, b, c) in facts
  }

  lemma TransitiveProduces(rule: Rule, name: string, x: string, y: string, z: string, r: string, role: Role,
                           weight: Double,
                           facts: set<Edge>, e: Edge)
    requires rule == Transitive(name, x, y, z, r, role, weight) && x != y && y != z && x != z
    ensures Produces(rule, facts, e) <==> e.relation == r && Hop(facts, r, e.from, e.to)
  {
    if Produces(rule, facts, e) {
      var a: Binding :| a.Keys == Vars(rule.body) && Yields(rule.body, a, facts, rule.head, (e.from, e.to));
      assert rule.body[0] == Atom(x, r, y) && rule.body[1] == Atom(y, r, z);
      assert Edge(r, e.from, a[y]) in facts && Edge(r, a[y], e.to) in facts;
    }
    if e.relation == r && Hop(facts, r, e.from, e.to) {
      var b :| Edge(r, e.from, b) in facts && Edge(r, b, e.to) in facts;
      var a: Binding := map[x := e.from, y := b, z := e.to];
      assert rule.body[0] == Atom(x, r, y) && rule.body[1] == Atom(y, r, z);
      assert x in Vars(rule.body) && y in Vars(rule.body) && z in Vars(rule.body);
      assert a.Keys == Vars(rule.body);
      assert Yields(rule.body, a, facts, rule.head, (e.from, e.to));
    }
  }

  // What one source reaches.
  function From(facts: set<Edge>, r: string, a: ObjectId): set<ObjectId> {
    set e | e in facts && e.relation == r && e.from == a :: e.to
  }

  ghost predicate Onward(base: set<Edge>, r: string, targets: set<ObjectId>) {
    forall e :: e in base && e.relation == r && e.from in targets ==> e.to in targets
  }

  ghost predicate Stays(facts: set<Edge>, r: string, nodes: set<ObjectId>) {
    forall e :: e in facts && e.relation == r ==> e.from in nodes && e.to in nodes
  }

  ghost predicate OneHopRule(rules: seq<Rule>, r: string) {
    |rules| == 1 && forall facts: set<Edge>, e ::
      Produces(rules[0], facts, e) <==> e.relation == r && Hop(facts, r, e.from, e.to)
  }

  lemma HopGrow(rules: seq<Rule>, r: string, facts: set<Edge>, e: Edge)
    requires OneHopRule(rules, r)
    ensures e in Grow(rules, facts) <==> e in facts || (e.relation == r && Hop(facts, r, e.from, e.to))
  {
    hide Produces, AllHeads;
    GrowExact(rules, facts, e);
    if e.relation == r && Hop(facts, r, e.from, e.to) {
      assert Produces(rules[0], facts, e);
    }
  }

  lemma FromNonEmpty(base: set<Edge>, r: string, a: ObjectId)
    ensures Onward(base, r, From(base, r, a)) || |From(base, r, a)| >= 1
  {
    if From(base, r, a) == {} {
      assert Onward(base, r, {});
    }
  }

  lemma ReachStep(rules: seq<Rule>, r: string, base: set<Edge>, before: set<Edge>, a: ObjectId)
    requires OneHopRule(rules, r) && base <= before
    ensures var now, next := From(before, r, a), From(Grow(rules, before), r, a);
            now <= next && (Onward(base, r, now) || |next| >= |now| + 1)
  {
    hide OneHopRule, Grow;
    var now, next := From(before, r, a), From(Grow(rules, before), r, a);
    forall c | c in now ensures c in next {
      HopGrow(rules, r, before, Edge(r, a, c));
      var e :| e in before && e.relation == r && e.from == a && e.to == c;
      assert Edge(r, a, c) == e;
    }
    if !Onward(base, r, now) {
      var e :| e in base && e.relation == r && e.from in now && e.to !in now;
      var d :| d in before && d.relation == r && d.from == a && d.to == e.from;
      assert d == Edge(r, a, e.from) && e == Edge(r, e.from, e.to);
      assert Hop(before, r, a, e.to);
      HopGrow(rules, r, before, Edge(r, a, e.to));
      assert e.to in next;
      Strictly(now, next);
    }
  }

  // Once it is closed, a further round adds nothing to what a source reaches.
  lemma ReachDone(rules: seq<Rule>, r: string, base: set<Edge>, n: nat, a: ObjectId)
    requires OneHopRule(rules, r) && Onward(base, r, From(Rounds(rules, base, n), r, a))
    ensures From(Rounds(rules, base, n + 1), r, a) <= From(Rounds(rules, base, n), r, a)
  {
    hide OneHopRule, Grow, Onward;
    var before := Rounds(rules, base, n);
    forall c | c in From(Rounds(rules, base, n + 1), r, a) ensures c in From(before, r, a) {
      var e :| e in Rounds(rules, base, n + 1) && e.relation == r && e.from == a && e.to == c;
      HopGrow(rules, r, before, e);
      if e !in before {
        var b :| Edge(r, a, b) in before && Edge(r, b, c) in before;
        assert Edge(r, a, b).to in From(before, r, a);
        ReachInside(rules, r, base, n, From(before, r, a), Edge(r, b, c));
      }
    }
  }

  // Until what a source reaches is closed under the base edges, every round adds to it.
  lemma {:induction false} ReachGrows(rules: seq<Rule>, r: string, base: set<Edge>, n: nat, a: ObjectId)
    requires OneHopRule(rules, r)
    ensures Onward(base, r, From(Rounds(rules, base, n), r, a)) || |From(Rounds(rules, base, n), r, a)| >= n + 1
  {
    hide OneHopRule, Grow, Onward, From;
    if n == 0 {
      FromNonEmpty(base, r, a);
    } else {
      var before := Rounds(rules, base, n - 1);
      ReachGrows(rules, r, base, n - 1, a);
      RoundsGrow(rules, base, n - 1);
      ReachStep(rules, r, base, before, a);
      if Onward(base, r, From(before, r, a)) {
        ReachDone(rules, r, base, n - 1, a);
        assert From(Rounds(rules, base, n), r, a) == From(before, r, a);
      }
    }
  }

  lemma {:induction false} RoundsStayIn(rules: seq<Rule>, r: string, base: set<Edge>, n: nat, nodes: set<ObjectId>)
    requires OneHopRule(rules, r) && Stays(base, r, nodes)
    ensures Stays(Rounds(rules, base, n), r, nodes)
  {
    hide OneHopRule, Grow;
    if n > 0 {
      RoundsStayIn(rules, r, base, n - 1, nodes);
      forall e | e in Rounds(rules, base, n) && e.relation == r ensures e.from in nodes && e.to in nodes {
        HopGrow(rules, r, Rounds(rules, base, n - 1), e);
      }
    }
  }

  // Whatever is reached in rounds stays inside every set the base edges do not leave.
  lemma {:induction false} ReachInside(rules: seq<Rule>, r: string, base: set<Edge>, n: nat, inside: set<ObjectId>,
                                       e: Edge)
    requires OneHopRule(rules, r) && Onward(base, r, inside)
    requires e in Rounds(rules, base, n) && e.relation == r && e.from in inside
    ensures e.to in inside
  {
    hide OneHopRule, Grow;
    if n > 0 {
      var before := Rounds(rules, base, n - 1);
      HopGrow(rules, r, before, e);
      if e in before {
        ReachInside(rules, r, base, n - 1, inside, e);
      } else {
        var b :| Edge(r, e.from, b) in before && Edge(r, b, e.to) in before;
        ReachInside(rules, r, base, n - 1, inside, Edge(r, e.from, b));
        ReachInside(rules, r, base, n - 1, inside, Edge(r, b, e.to));
      }
    }
  }

  // As many rounds as there are objects close the relation: each source gains an object
  // per round until it can gain no more.
  lemma ReachabilityCloses(rules: seq<Rule>, r: string, base: set<Edge>, nodes: set<ObjectId>, n: nat)
    requires OneHopRule(rules, r) && Stays(base, r, nodes) && n >= |nodes|
    ensures LeastModel(rules, base, Rounds(rules, base, n))
  {
    hide OneHopRule, Grow, Onward;
    var m := Rounds(rules, base, n);
    forall e ensures e in Grow(rules, m) <==> e in m {
      HopGrow(rules, r, m, e);
      if e.relation == r && Hop(m, r, e.from, e.to) {
        var b :| Edge(r, e.from, b) in m && Edge(r, b, e.to) in m;
        SourceCloses(rules, r, base, nodes, n, e.from);
        assert Edge(r, e.from, b).to in From(m, r, e.from);
        ReachInside(rules, r, base, n, From(m, r, e.from), Edge(r, b, e.to));
        var d :| d in m && d.relation == r && d.from == e.from && d.to == e.to;
        assert d == e;
      }
    }
    assert Rounds(rules, base, n + 1) == m;
    RoundsReach(rules, base, n);
  }

  lemma SourceCloses(rules: seq<Rule>, r: string, base: set<Edge>, nodes: set<ObjectId>, n: nat, a: ObjectId)
    requires OneHopRule(rules, r) && Stays(base, r, nodes) && n >= |nodes|
    ensures Onward(base, r, From(Rounds(rules, base, n), r, a))
  {
    hide OneHopRule, Grow, Onward;
    ReachGrows(rules, r, base, n, a);
    RoundsStayIn(rules, r, base, n, nodes);
    Subsets(From(Rounds(rules, base, n), r, a), nodes);
  }

  // ---- where a fixed number of rounds falls short

  // The i-th relation of a chain, and rules each copying one relation into the next.
  function Link(i: nat): string {
    seq(i + 1, _ => 'r')
  }

  function Chain(n: nat): seq<Rule> {
    seq(n, i requires 0 <= i < n =>
      Rule("copy", [Atom("X", Link(i), "Y")], Head("X", Link(i + 1), "Y", Structural, 0)))
  }

  function ChainEdges(o: ObjectId, n: nat): set<Edge> {
    set i | 0 <= i <= n :: Edge(Link(i), o, o)
  }

  lemma LinkDistinct(i: nat, j: nat)
    requires Link(i) == Link(j)
    ensures i == j
  {
    assert |Link(i)| == i + 1 && |Link(j)| == j + 1;
  }

  lemma ChainProduces(n: nat, i: nat, facts: set<Edge>, e: Edge)
    requires i < n
    ensures Produces(Chain(n)[i], facts, e) <==> e.relation == Link(i + 1) && Edge(Link(i), e.from, e.to) in facts
  {
    var rule := Chain(n)[i];
    assert rule.body[0] == Atom("X", Link(i), "Y");
    assert "X"[0] != "Y"[0];
    if Produces(rule, facts, e) {
      var a: Binding :| a.Keys == Vars(rule.body) && Yields(rule.body, a, facts, rule.head, (e.from, e.to));
      assert Edge(Link(i), a["X"], a["Y"]) in facts;
    }
    if e.relation == Link(i + 1) && Edge(Link(i), e.from, e.to) in facts {
      var a: Binding := map["X" := e.from, "Y" := e.to];
      assert "X" in Vars(rule.body) && "Y" in Vars(rule.body);
      assert a.Keys == Vars(rule.body);
      assert Yields(rule.body, a, facts, rule.head, (e.from, e.to));
    }
  }

  lemma ChainHolds(o: ObjectId, n: nat, i: nat)
    ensures Edge(Link(i), o, o) in ChainEdges(o, n) <==> i <= n
  {
    if Edge(Link(i), o, o) in ChainEdges(o, n) {
      var j :| 0 <= j <= n && Edge(Link(i), o, o) == Edge(Link(j), o, o);
      LinkDistinct(i, j);
    }
  }

  lemma ChainGrow(o: ObjectId, n: nat, k: nat)
    requires k < n
    ensures Grow(Chain(n), ChainEdges(o, k)) == ChainEdges(o, k + 1)
  {
    var facts := ChainEdges(o, k);
    forall e ensures e in Grow(Chain(n), facts) <==> e in ChainEdges(o, k + 1) {
      GrowExact(Chain(n), facts, e);
      if e in AllHeads(Chain(n), facts) {
        var i :| 0 <= i < n && Produces(Chain(n)[i], facts, e);
        ChainProduces(n, i, facts, e);
        var j :| 0 <= j <= k && Edge(Link(i), e.from, e.to) == Edge(Link(j), o, o);
        LinkDistinct(i, j);
        assert e == Edge(Link(i + 1), o, o);
      }
      if e in ChainEdges(o, k + 1) && e !in facts {
        assert e == Edge(Link(k + 1), o, o);
        ChainProduces(n, k, facts, e);
        assert Edge(Link(k), o, o) in facts;
      }
    }
  }

  lemma {:induction false} ChainRounds(o: ObjectId, n: nat, k: nat)
    requires k <= n
    ensures Rounds(Chain(n), {Edge(Link(0), o, o)}, k) == ChainEdges(o, k)
  {
    hide Grow;
    if k == 0 {
      assert ChainEdges(o, 0) == {Edge(Link(0), o, o)};
    } else {
      ChainRounds(o, n, k - 1);
      ChainGrow(o, n, k - 1);
    }
  }

  // A bound on the rounds that does not look at the rules is too small for some of them:
  // a chain one longer than the bound is cut off before its last relation.
  lemma CapFallsShort(o: ObjectId, cap: nat)
    ensures !LeastModel(Chain(cap + 1), {Edge(Link(0), o, o)}, Rounds(Chain(cap + 1), {Edge(Link(0), o, o)}, cap))
  {
    hide Grow;
    var base := {Edge(Link(0), o, o)};
    ChainRounds(o, cap + 1, cap);
    ChainRounds(o, cap + 1, cap + 1);
    RoundsReach(Chain(cap + 1), base, cap);
    ChainHolds(o, cap, cap + 1);
    ChainHolds(o, cap + 1, cap + 1);
  }
}
