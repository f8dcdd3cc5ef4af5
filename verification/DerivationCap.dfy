// When the cap on the rounds of a derivation step is high enough, said of the snapshot and
// the rules, and a snapshot for which it is not.

module DerivationCap {
  import opened Wrappers
  import opened Model
  import opened Overlay
  import opened Invariants
  import opened Datalog
  import opened Closure
  import opened Heights
  import opened Derivation
  import opened DerivationStep
  import opened DerivationProof

  // Authored and created edges together are the least model of the rules.
  ghost predicate Reached(s: Snapshot, rules: seq<Rule>) {
    LeastModel(rules, Authored(s), Authored(s) + EdgesOf(CreatedList(s, rules)))
  }

  // The step leaves what as many rounds as the cap reach.
  lemma StepRounds(s: Snapshot, rules: seq<Rule>)
    ensures Authored(s) + EdgesOf(CreatedList(s, rules)) == Rounds(rules, Authored(s), Cap(s))
  {
    hide Grow;
    var base := Authored(s);
    CreatedExact(rules, base, Cap(s));
    ListedEdges(Created(rules, base, Cap(s)));
    RoundsGrow(rules, base, Cap(s));
  }

  // Exactly: every edge that follows from the authored ones follows by a proof no higher
  // than the cap.
  lemma ReachedByHeight(s: Snapshot, rules: seq<Rule>)
    ensures Reached(s, rules) <==> LowProofs(rules, Authored(s), Cap(s))
  {
    hide LeastModel, LowProofs, Rounds, CreatedList;
    StepRounds(s, rules);
    RoundsReachLow(rules, Authored(s), Cap(s));
  }

  // Some model adds fewer edges to the authored ones than the cap.
  lemma ReachedByCount(s: Snapshot, rules: seq<Rule>, other: set<Edge>)
    requires Authored(s) <= other && ClosedUnder(rules, other) && |other| < |Authored(s)| + Cap(s)
    ensures Reached(s, rules)
  {
    hide LeastModel, ClosedUnder, Rounds, CreatedList;
    StepRounds(s, rules);
    CapByCount(rules, Authored(s), Cap(s), other);
  }

  // No relation is derived from itself, and ranks go no higher than the cap.
  lemma ReachedByRank(s: Snapshot, rules: seq<Rule>, rank: string -> nat)
    requires Ranked(rules, rank, Cap(s))
    ensures Reached(s, rules)
  {
    hide LeastModel, Ranked, Rounds, CreatedList;
    StepRounds(s, rules);
    RankedReach(rules, Authored(s), rank, Cap(s));
  }

  // ---- the cap is sharp

  // One object, with one authored edge to itself.
  function OneLoop(): Snapshot {
    var o := ObjectId(0, 1);
    Snapshot(1, "w", 0, [Object(o, "a", 1, Alive, [], 1, 1)], [Pointer(1, o, o, 1, Structural, 0, 0, None, "", [])],
             map[1 := "t"], map[1 := Link(0)])
  }

  lemma OneLoopAuthored()
    ensures WellFormed(OneLoop()) && Recount(OneLoop()) == OneLoop()
    ensures Authored(OneLoop()) == {Edge(Link(0), ObjectId(0, 1), ObjectId(0, 1))}
  {
    var s := OneLoop();
    assert s.objects[0].id == ObjectId(0, 1) && Link(0) != "";
    assert Recount(s).objects == s.objects;
    assert IsAuthored(s.pointers[0], s.epoch);
  }

  // On it the step closes a chain of rules exactly when there are no more rules than the cap.
  lemma ChainSharp(n: nat)
    ensures Reached(OneLoop(), Chain(n)) <==> n <= Cap(OneLoop())
  {
    hide LeastModel, Rounds, CreatedList, Authored, OneLoop, Chain;
    OneLoopAuthored();
    StepRounds(OneLoop(), Chain(n));
    ChainReached(ObjectId(0, 1), n, Cap(OneLoop()));
  }

  // So the step does not run to a fixpoint for every snapshot and rules.
  lemma StepFallsShort()
    ensures WellFormed(OneLoop()) && !Reached(OneLoop(), Chain(Cap(OneLoop()) + 1))
  {
    hide Reached, OneLoop, Chain;
    OneLoopAuthored();
    ChainSharp(Cap(OneLoop()) + 1);
  }
}
