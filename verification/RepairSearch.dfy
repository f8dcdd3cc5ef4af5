// solve_repair: the breadth-first search itself, and why its answer is the nearest.

module RepairSearch {
  import opened Wrappers
  import opened Model
  import opened Attributes
  import opened Overlay
  import opened OverlayApply
  import opened Invariants
  import opened SequentialMerge
  import opened EpochView
  import opened MergeProof
  import opened MorphismProof
  import opened CategoryProof
  import opened Laws
  import opened Repair
  import opened Tidiness
  import SnapshotCodec

  // ---- repairs can always be fused

  lemma RepairTame(op: RepairOperator, s: Snapshot)
    requires Repairs(op, s)
    ensures Tame(op.delta, IdSet(s.objects)) && !TypeConflict(op.delta)
  {
  }

  lemma {:induction false} ApplyAllAppend(base: Snapshot, deltas: seq<Delta>, delta: Delta)
    requires ApplyAll(base, deltas).Ok?
    ensures ApplyAll(base, deltas + [delta]) == Apply(ApplyAll(base, deltas).value, delta)
    decreases |deltas|
  {
    hide Apply;
    if deltas == [] {
      assert [delta][1..] == [];
      assert ApplyAll(base, [delta]) == Apply(base, delta) by {
        var r := Apply(base, delta);
        if r.Ok? {
          assert ApplyAll(r.value, []) == r;
        }
      }
      assert [] + [delta] == [delta];
    } else {
      assert (deltas + [delta])[1..] == deltas[1..] + [delta];
      ApplyAllAppend(Apply(base, deltas[0]).value, deltas[1..], delta);
    }
  }

  lemma LeadsFurther(target: Snapshot, basis: Basis, ops: seq<RepairOperator>, s: Snapshot, op: RepairOperator,
                     next: Snapshot)
    requires Leads(target, basis, ops, s) && op in basis && Apply(s, op.delta) == Ok(next)
    ensures Leads(target, basis, ops + [op], next)
  {
    hide Apply, ApplyAll;
    assert Deltas(ops + [op]) == Deltas(ops) + [op.delta];
    ApplyAllAppend(target, Deltas(ops), op.delta);
  }

  // A node carries a path to its snapshot and one delta that amounts to it.
  ghost predicate NodeOk(target: Snapshot, basis: Basis, node: Node) {
    && Leads(target, basis, node.operators, node.snapshot)
    && |node.operators| == node.depth
    && WellFormed(node.snapshot) && IdSet(node.snapshot.objects) == IdSet(target.objects)
    && node.snapshot.epoch == target.epoch + node.depth
    && FusedTo(target, node.fused, node.snapshot)
    && Likened(target, node.snapshot)
  }

  // Repairs leave the frame of the target as it is, and attributes sorted.
  ghost predicate Likened(target: Snapshot, s: Snapshot) {
    WellFormed(s) && Tidied(s) && SameFrame(target, s)
  }

  lemma FrameKept(target: Snapshot, s: Snapshot, op: RepairOperator, next: Snapshot)
    requires Repairs(op, target) && SameFrame(target, s) && Apply(s, op.delta) == Ok(next)
    ensures SameFrame(target, next)
  {
    hide Counted, SetAttribute, RemoveAttribute, Step, SameFrame;
    var st, one := Start(s), op.delta[0];
    assert op.delta == [one] && op.delta[1..] == [];
    var after := Step(st, one).value;
    assert Run(after, op.delta[1..]) == Ok(after);
    StepFrame(st, one);
    CountedFrame(after.snap);
    StartFrame(s);
    FrameTrans(target, s, st.snap);
    FrameTrans(target, st.snap, after.snap);
    FrameTrans(target, after.snap, next);
  }

  lemma StepFrame(st: State, op: Op)
    requires Step(st, op).Ok? && (ObjectOp(op) || PointerOp(op))
    ensures SameFrame(st.snap, Step(st, op).value.snap)
  {
    hide SetAttribute, RemoveAttribute, Resolve, HasSymbol;
  }

  lemma StartFrame(s: Snapshot)
    ensures SameFrame(s, Start(s).snap)
  {
  }

  lemma FrameTrans(a: Snapshot, b: Snapshot, c: Snapshot)
    requires SameFrame(a, b) && SameFrame(b, c)
    ensures SameFrame(a, c)
  {
  }

  lemma CountedFrame(s: Snapshot)
    ensures SameFrame(s, Recount(s))
  {
    hide FindObject, Incoming, Outgoing;
  }

  // ---- what has been seen, by its canonical form

  ghost predicate Keyed(target: Snapshot, keys: set<Snapshot>, seen: set<Snapshot>) {
    && (forall s :: s in seen ==> SnapshotCodec.Canonical(s) in keys && Likened(target, s))
    && (forall k :: k in keys ==> exists s :: s in seen && SnapshotCodec.Canonical(s) == k)
  }

  // The canonical form of a snapshot the search reaches has been seen exactly when it has.
  lemma SeenByKey(target: Snapshot, keys: set<Snapshot>, seen: set<Snapshot>, s: Snapshot)
    requires Keyed(target, keys, seen) && Likened(target, s)
    ensures SnapshotCodec.Canonical(s) in keys <==> s in seen
  {
    hide SnapshotCodec.Canonical, WellFormed, Tidied;
    if SnapshotCodec.Canonical(s) in keys {
      var t :| t in seen && SnapshotCodec.Canonical(t) == SnapshotCodec.Canonical(s);
      CanonicalApart(s, t);
    }
  }

  lemma KeyedMore(target: Snapshot, keys: set<Snapshot>, seen: set<Snapshot>, s: Snapshot)
    requires Keyed(target, keys, seen) && Likened(target, s)
    ensures Keyed(target, keys + {SnapshotCodec.Canonical(s)}, seen + {s})
  {
    hide SnapshotCodec.Canonical, Likened;
  }

  ghost predicate FusedTo(target: Snapshot, fused: Delta, s: Snapshot) {
    Accepted(target, fused) && Seen(Apply(target, fused).value, target.epoch + 1) == Seen(s, target.epoch + 1)
  }

  lemma RootOk(target: Snapshot, basis: Basis)
    requires WellFormed(target) && Tidied(target)
    ensures NodeOk(target, basis, Node(target, [], 0, []))
  {
    StartKeeps(target);
    assert BareAll(Recount(Start(target).snap).objects) == BareAll(target.objects);
    assert Deltas([]) == [];
  }

  lemma StepFuses(target: Snapshot, fused: Delta, s: Snapshot, op: RepairOperator, next: Snapshot)
    requires WellFormed(target) && WellFormed(s) && s.epoch >= target.epoch && Repairs(op, target)
    requires FusedTo(target, fused, s) && Apply(s, op.delta) == Ok(next)
    ensures var merged := MergeSequential(target, fused, op.delta);
            merged.Ok? && FusedTo(target, merged.value, next)
  {
    hide Apply, WellFormed, Tame, TypeConflict, Repairs;
    var k := target.epoch + 1;
    AcceptedKeeps(target, fused);
    var mid := Apply(target, fused).value;
    RepairTame(op, target);
    TameBasics(op.delta, IdSet(target.objects));
    ApplySeen(s, mid, op.delta, k);
    FuseTame(target, fused, op.delta);
    SeenClamped(Apply(mid, op.delta).value, k);
  }

  // The step of a node by an operator that applies: merging never gets in the way.
  lemma NodeSteps(target: Snapshot, basis: Basis, node: Node, op: RepairOperator, next: Snapshot)
    requires WellFormed(target) && NodeOk(target, basis, node) && op in basis && Repairs(op, target)
    requires Apply(node.snapshot, op.delta) == Ok(next)
    ensures var merged := MergeSequential(target, node.fused, op.delta);
            merged.Ok? && NodeOk(target, basis, Node(next, merged.value, node.depth + 1, node.operators + [op]))
  {
    hide Apply, WellFormed, Repairs, FusedTo, Leads, Tidied, SameFrame;
    LeadsFurther(target, basis, node.operators, node.snapshot, op, next);
    StepFuses(target, node.fused, node.snapshot, op, next);
    RepairTame(op, target);
    ApplyKeeps(node.snapshot, op.delta);
    ApplyTidies(node.snapshot, op.delta);
    FrameKept(target, node.snapshot, op, next);
    TameIds(node.snapshot, op.delta);
  }

  // The fused delta of a step beyond the target replays to that snapshot, clamped.
  lemma Replays(target: Snapshot, fused: Delta, s: Snapshot, delta: Delta, next: Snapshot)
    requires WellFormed(target) && WellFormed(s) && s.epoch >= target.epoch && Apply(s, delta) == Ok(next)
    requires FusedTo(target, fused, next)
    ensures Apply(target, fused) == Ok(Clamp(next, target.epoch + 1))
  {
    hide Step;
    var k := target.epoch + 1;
    StartKeeps(s);
    RunKeeps(Start(s), delta);
    var last := Run(Start(s), delta).value.snap;
    WellFormedTimely(last);
    RecountView(last, k);
    assert BareAll(Recount(last).objects) == BareAll(last.objects);
    ResultSeen(target, fused);
  }

  // ---- what has been seen covers every short path

  ghost predicate Expanded(s: Snapshot, basis: Basis, seen: set<Snapshot>, upTo: nat)
    requires upTo <= |basis|
  {
    forall i :: 0 <= i < upTo ==> (Apply(s, basis[i].delta).Ok? ==> Apply(s, basis[i].delta).value in seen)
  }

  lemma ExpandedGrows(s: Snapshot, basis: Basis, seen: set<Snapshot>, more: set<Snapshot>, upTo: nat)
    requires upTo <= |basis| && Expanded(s, basis, seen, upTo) && seen <= more
    ensures Expanded(s, basis, more, upTo)
  {
  }

  // Everything seen at a depth below `depth` has all its successors seen.
  ghost predicate ClosedBelow(target: Snapshot, basis: Basis, seen: set<Snapshot>, depth: nat) {
    target in seen && forall s :: s in seen && s.epoch < target.epoch + depth ==> Expanded(s, basis, seen, |basis|)
  }

  lemma {:induction false} AllSeen(target: Snapshot, basis: Basis, seen: set<Snapshot>, depth: nat,
                                   ops: seq<RepairOperator>, s: Snapshot)
    requires ClosedBelow(target, basis, seen, depth) && |ops| <= depth && Leads(target, basis, ops, s)
    ensures s in seen && s.epoch == target.epoch + |ops|
    decreases |ops|
  {
    hide Step, Run;
    if ops == [] {
      assert Deltas(ops) == [];
    } else {
      var last := |ops| - 1;
      var head, op := ops[..last], ops[last];
      assert Deltas(ops) == Deltas(head) + [op.delta];
      ApplyAllPrefix(target, Deltas(head), op.delta);
      var before := ApplyAll(target, Deltas(head)).value;
      ApplyAllAppend(target, Deltas(head), op.delta);
      assert forall i :: 0 <= i < last ==> head[i] == ops[i];
      AllSeen(target, basis, seen, depth, head, before);
      assert ops[last] in basis;
      var i :| 0 <= i < |basis| && basis[i] == op;
      EpochAfter(before, op.delta);
    }
  }

  lemma EpochAfter(s: Snapshot, delta: Delta)
    requires Apply(s, delta).Ok?
    ensures Apply(s, delta).value.epoch == s.epoch + 1
  {
    RunEpoch(Start(s), delta);
  }

  lemma {:induction false} RunEpoch(st: State, ops: Delta)
    requires Run(st, ops).Ok?
    ensures Run(st, ops).value.snap.epoch == st.snap.epoch
    decreases |ops|
  {
    hide Step;
    if ops != [] {
      StepEpoch(st, ops[0]);
      RunEpoch(Step(st, ops[0]).value, ops[1..]);
    }
  }

  lemma StepEpoch(st: State, op: Op)
    requires Step(st, op).Ok?
    ensures Step(st, op).value.snap.epoch == st.snap.epoch
  {
    hide Resolve, HasSymbol, FindObject, FindPointer, NextIndex, NextPointer, InternName, Facts, Sorted;
  }

  lemma {:induction false} ApplyAllPrefix(base: Snapshot, deltas: seq<Delta>, delta: Delta)
    requires ApplyAll(base, deltas + [delta]).Ok?
    ensures ApplyAll(base, deltas).Ok?
    decreases |deltas|
  {
    hide Apply;
    if deltas != [] {
      assert (deltas + [delta])[1..] == deltas[1..] + [delta];
      ApplyAllPrefix(Apply(base, deltas[0]).value, deltas[1..], delta);
    }
  }

  lemma NoneSeen(target: Snapshot, basis: Basis, legal: Snapshot -> bool, seen: set<Snapshot>, depth: nat)
    requires ClosedBelow(target, basis, seen, depth) && forall s :: s in seen ==> !legal(s)
    ensures NoneWithin(target, basis, legal, depth)
  {
    forall ops: seq<RepairOperator>, s | |ops| <= depth && Leads(target, basis, ops, s) ensures !legal(s) {
      AllSeen(target, basis, seen, depth, ops, s);
    }
  }

  // ---- the queue

  ghost predicate QueueOk(target: Snapshot, basis: Basis, queue: seq<Node>, seen: set<Snapshot>, maxDepth: nat) {
    && (forall k :: 0 <= k < |queue| ==>
        NodeOk(target, basis, queue[k]) && queue[k].snapshot in seen && queue[k].depth <= maxDepth)
    && (forall j, k :: 0 <= j < k < |queue| ==> queue[j].depth <= queue[k].depth <= queue[j].depth + 1)
  }

  ghost predicate Queued(queue: seq<Node>, s: Snapshot) {
    exists k :: 0 <= k < |queue| && queue[k].snapshot == s
  }

  // Every snapshot seen short of the depth bound waits in the queue or has been expanded.
  ghost predicate Covered(target: Snapshot, basis: Basis, queue: seq<Node>, seen: set<Snapshot>, maxDepth: nat,
                          current: set<Snapshot>) {
    forall s :: s in seen && s !in current && s.epoch < target.epoch + maxDepth ==>
      Queued(queue, s) || Expanded(s, basis, seen, |basis|)
  }

  lemma ClosedAt(target: Snapshot, basis: Basis, queue: seq<Node>, seen: set<Snapshot>, maxDepth: nat,
                 current: set<Snapshot>, depth: nat)
    requires QueueOk(target, basis, queue, seen, maxDepth) && Covered(target, basis, queue, seen, maxDepth, current)
    requires target in seen && depth <= maxDepth
    requires forall k :: 0 <= k < |queue| ==> queue[k].depth >= depth
    requires forall s :: s in current ==> s.epoch >= target.epoch + depth
    ensures ClosedBelow(target, basis, seen, depth)
  {
    forall k | 0 <= k < |queue| ensures queue[k].snapshot.epoch >= target.epoch + depth {
      assert NodeOk(target, basis, queue[k]);
    }
  }

  lemma CoverPush(target: Snapshot, basis: Basis, queue: seq<Node>, seen: set<Snapshot>, maxDepth: nat,
                  current: set<Snapshot>, node: Node)
    requires Covered(target, basis, queue, seen, maxDepth, current)
    ensures Covered(target, basis, queue + [node], seen + {node.snapshot}, maxDepth, current)
  {
    var queue', seen' := queue + [node], seen + {node.snapshot};
    forall s | s in seen' && s !in current && s.epoch < target.epoch + maxDepth
      ensures Queued(queue', s) || Expanded(s, basis, seen', |basis|)
    {
      if s == node.snapshot {
        assert queue'[|queue|].snapshot == s;
      } else if Queued(queue, s) {
        var k :| 0 <= k < |queue| && queue[k].snapshot == s;
        assert queue'[k].snapshot == s;
      } else {
        ExpandedGrows(s, basis, seen, seen', |basis|);
      }
    }
  }

  lemma CoverPop(target: Snapshot, basis: Basis, queue: seq<Node>, seen: set<Snapshot>, maxDepth: nat)
    requires queue != [] && Covered(target, basis, queue, seen, maxDepth, {})
    ensures Covered(target, basis, queue[1..], seen, maxDepth, {queue[0].snapshot})
  {
    forall s | s in seen && s != queue[0].snapshot && s.epoch < target.epoch + maxDepth
      ensures Queued(queue[1..], s) || Expanded(s, basis, seen, |basis|)
    {
      if Queued(queue, s) {
        var k :| 0 <= k < |queue| && queue[k].snapshot == s;
        assert queue[1..][k - 1].snapshot == s;
      }
    }
  }

  lemma CoverClose(target: Snapshot, basis: Basis, queue: seq<Node>, seen: set<Snapshot>, maxDepth: nat, s: Snapshot)
    requires Covered(target, basis, queue, seen, maxDepth, {s})
    requires s.epoch >= target.epoch + maxDepth || Expanded(s, basis, seen, |basis|)
    ensures Covered(target, basis, queue, seen, maxDepth, {})
  {
  }

  // ---- the work left in the queue

  function QueueWork(queue: seq<Node>, width: nat, maxDepth: nat): nat {
    if queue == [] then 0
    else QueueWork(queue[..|queue| - 1], width, maxDepth) + NodeWork(queue[|queue| - 1], width, maxDepth)
  }

  function NodeWork(node: Node, width: nat, maxDepth: nat): nat {
    if node.depth >= maxDepth then 0 else TreeSize(width, maxDepth - node.depth)
  }

  lemma QueueWorkPush(queue: seq<Node>, node: Node, width: nat, maxDepth: nat)
    ensures QueueWork(queue + [node], width, maxDepth) == QueueWork(queue, width, maxDepth) +
            NodeWork(node, width, maxDepth)
  {
    assert (queue + [node])[..|queue|] == queue;
  }

  lemma {:induction false} QueueWorkPop(queue: seq<Node>, width: nat, maxDepth: nat)
    requires queue != []
    ensures QueueWork(queue, width, maxDepth) == NodeWork(queue[0], width, maxDepth) +
            QueueWork(queue[1..], width, maxDepth)
  {
    var last := |queue| - 1;
    if last > 0 {
      QueueWorkPop(queue[..last], width, maxDepth);
      assert queue[..last][1..] == queue[1..][..last - 1];
    } else {
      assert queue[..0] == [] && queue[1..] == [];
    }
  }

  // ---- the search

  // What the search has established between two expansions.
  ghost predicate Searching(target: Snapshot, basis: Basis, legal: Snapshot -> bool, queue: seq<Node>,
                            seen: set<Snapshot>, maxDepth: nat, current: set<Snapshot>) {
    && QueueOk(target, basis, queue, seen, maxDepth)
    && Covered(target, basis, queue, seen, maxDepth, current)
    && target in seen
    && (forall s :: s in seen ==> !legal(s))
  }

  // The answer the search owes its caller.
  ghost predicate Answers(target: Snapshot, basis: Basis, legal: Snapshot -> bool, maxDepth: nat, r: Solution) {
    match r.status
    case Found =>
      && 1 <= r.depth <= maxDepth && |r.operators| == r.depth
      && (exists s :: Leads(target, basis, r.operators, s) && legal(s) &&
                      Apply(target, r.fused) == Ok(Clamp(s, target.epoch + 1)))
      && NoneWithin(target, basis, legal, r.depth - 1)
    case Exhausted => r.depth == maxDepth + 1
    case Accepted' => legal(target)
    case VerifierUnavailable => false
  }

  lemma FoundAnswers(target: Snapshot, basis: Basis, legal: Snapshot -> bool, queue: seq<Node>, seen: set<Snapshot>,
                     maxDepth: nat, node: Node, op: RepairOperator, next: Snapshot, frontier: nat)
    requires WellFormed(target) && NodeOk(target, basis, node) && op in basis && Repairs(op, target)
    requires Searching(target, basis, legal, queue, seen, maxDepth, {node.snapshot}) && node.depth < maxDepth
    requires forall k :: 0 <= k < |queue| ==> queue[k].depth >= node.depth
    requires Apply(node.snapshot, op.delta) == Ok(next) && legal(next)
    ensures MergeSequential(target, node.fused, op.delta).Ok?
    ensures Answers(target, basis, legal, maxDepth,
                    Solution(Found, node.depth + 1, MergeSequential(target, node.fused, op.delta).value,
                             node.operators + [op], frontier))
  {
    hide Apply, WellFormed, Repairs, FusedTo, Leads, NoneWithin, Covered, QueueOk;
    NodeSteps(target, basis, node, op, next);
    Replays(target, MergeSequential(target, node.fused, op.delta).value, node.snapshot, op.delta, next);
    ClosedAt(target, basis, queue, seen, maxDepth, {node.snapshot}, node.depth);
    NoneSeen(target, basis, legal, seen, node.depth);
  }

  lemma Pushed(target: Snapshot, basis: Basis, legal: Snapshot -> bool, queue: seq<Node>, seen: set<Snapshot>,
               maxDepth: nat, current: set<Snapshot>, node: Node)
    requires Searching(target, basis, legal, queue, seen, maxDepth, current)
    requires NodeOk(target, basis, node) && node.depth <= maxDepth && !legal(node.snapshot)
    requires forall k :: 0 <= k < |queue| ==> queue[k].depth <= node.depth <= queue[k].depth + 1
    ensures Searching(target, basis, legal, queue + [node], seen + {node.snapshot}, maxDepth, current)
  {
    hide NodeOk;
    CoverPush(target, basis, queue, seen, maxDepth, current, node);
  }

  lemma Popped(target: Snapshot, basis: Basis, legal: Snapshot -> bool, queue: seq<Node>, seen: set<Snapshot>,
               maxDepth: nat)
    requires queue != [] && Searching(target, basis, legal, queue, seen, maxDepth, {})
    ensures Searching(target, basis, legal, queue[1..], seen, maxDepth, {queue[0].snapshot})
    ensures NodeOk(target, basis, queue[0]) && queue[0].snapshot in seen && queue[0].depth <= maxDepth
    ensures forall k :: 0 <= k < |queue[1..]| ==> queue[0].depth <= queue[1..][k].depth <= queue[0].depth + 1
  {
    hide NodeOk;
    CoverPop(target, basis, queue, seen, maxDepth);
  }

  // One expansion: the node's snapshot under one operator, queued if it is new and still
  // rejected. The result is the solution when the operator repairs the snapshot.
  method Expand(target: Snapshot, basis: Basis, legal: Snapshot -> bool, queue: seq<Node>, keys: set<Snapshot>,
                ghost seen: set<Snapshot>, maxDepth: nat, node: Node, i: nat, frontier: nat)
    returns (queue': seq<Node>, keys': set<Snapshot>, ghost seen': set<Snapshot>, found: Option<Solution>)
    requires WellFormed(target) && BasisOk(basis, target) && i < |basis|
    requires Searching(target, basis, legal, queue, seen, maxDepth, {node.snapshot})
    requires NodeOk(target, basis, node) && node.depth < maxDepth
    requires forall k :: 0 <= k < |queue| ==> node.depth <= queue[k].depth <= node.depth + 1
    requires Expanded(node.snapshot, basis, seen, i) && Keyed(target, keys, seen)
    ensures found.Some? ==> found.value.status == Found && Answers(target, basis, legal, maxDepth, found.value)
    ensures found.None? ==>
      && Searching(target, basis, legal, queue', seen', maxDepth, {node.snapshot})
      && (forall k :: 0 <= k < |queue'| ==> node.depth <= queue'[k].depth <= node.depth + 1)
      && Expanded(node.snapshot, basis, seen', i + 1) && Keyed(target, keys', seen')
      && seen <= seen' && |queue'| <= |queue| + 1
      && QueueWork(queue', |basis|, maxDepth) <= QueueWork(queue, |basis|, maxDepth) +
        TreeSize(|basis|, maxDepth - node.depth - 1)
  {
    hide Apply, WellFormed, Repairs, NodeOk, Searching, Answers, Keyed, Likened, SnapshotCodec.Canonical;
    queue', keys', seen', found := queue, keys, seen, None;
    var op := basis[i];
    var next := ApplyDelta(node.snapshot, op.delta);
    if next.Err? {
      return;
    }
    NodeSteps(target, basis, node, op, next.value);
    var merged := Merge(target, node.fused, op.delta);
    var key := SnapshotCodec.Canonical(next.value);
    NodeLikened(target, basis, Node(next.value, merged.value, node.depth + 1, node.operators + [op]));
    SeenByKey(target, keys, seen, next.value);
    if key in keys {
      return;
    }
    var operators := node.operators + [op];
    if legal(next.value) {
      FoundAnswers(target, basis, legal, queue, seen, maxDepth, node, op, next.value, frontier);
      found := Some(Solution(Found, node.depth + 1, merged.value, operators, frontier));
      return;
    }
    var child := Node(next.value, merged.value, node.depth + 1, operators);
    Pushed(target, basis, legal, queue, seen, maxDepth, {node.snapshot}, child);
    QueueWorkPush(queue, child, |basis|, maxDepth);
    ExpandedGrows(node.snapshot, basis, seen, seen + {next.value}, i);
    KeyedMore(target, keys, seen, next.value);
    keys' := keys + {key};
    seen' := seen + {next.value};
    queue' := queue + [child];
  }

  lemma NodeLikened(target: Snapshot, basis: Basis, node: Node)
    requires NodeOk(target, basis, node)
    ensures Likened(target, node.snapshot)
  {
  }

  // Every operator on one node. `limited` says that the expansion limit was reached first.
  method ExpandAll(target: Snapshot, basis: Basis, legal: Snapshot -> bool, queue: seq<Node>, keys: set<Snapshot>,
                   ghost seen: set<Snapshot>, maxDepth: nat, node: Node, frontier: nat, expansions: nat, limit: nat)
    returns (queue': seq<Node>, keys': set<Snapshot>, ghost seen': set<Snapshot>, expansions': nat,
      found: Option<Solution>,
             limited: bool)
    requires WellFormed(target) && BasisOk(basis, target)
    requires Searching(target, basis, legal, queue, seen, maxDepth, {node.snapshot})
    requires NodeOk(target, basis, node) && node.depth < maxDepth
    requires forall k :: 0 <= k < |queue| ==> node.depth <= queue[k].depth <= node.depth + 1
    requires Keyed(target, keys, seen)
    ensures found.Some? ==> found.value.status == Found && Answers(target, basis, legal, maxDepth, found.value)
    ensures limited ==> 0 < limit < expansions + NodeWork(node, |basis|, maxDepth)
    ensures found.None? && !limited ==>
      && Searching(target, basis, legal, queue', seen', maxDepth, {}) && Keyed(target, keys', seen')
      && expansions' == expansions + |basis| && |queue'| <= |queue| + |basis|
      && QueueWork(queue', |basis|, maxDepth) + |basis| <=
         QueueWork(queue, |basis|, maxDepth) + NodeWork(node, |basis|, maxDepth)
  {
    hide WellFormed, BasisOk, Apply, NodeOk, NoneWithin, Searching, Answers, QueueWork, Keyed;
    queue', keys', seen', expansions', found, limited := queue, keys, seen, expansions, None, false;
    ghost var share := 1 + TreeSize(|basis|, maxDepth - node.depth - 1);
    ghost var work := NodeWork(node, |basis|, maxDepth);
    for i := 0 to |basis|
      invariant Searching(target, basis, legal, queue', seen', maxDepth, {node.snapshot})
      invariant forall k :: 0 <= k < |queue'| ==> node.depth <= queue'[k].depth <= node.depth + 1
      invariant Expanded(node.snapshot, basis, seen', i) && Keyed(target, keys', seen')
      invariant expansions' == expansions + i && |queue'| <= |queue| + i && found.None? && !limited
      invariant QueueWork(queue', |basis|, maxDepth) + i +
                (|basis| - i) * share <= QueueWork(queue, |basis|, maxDepth) + work
    {
      assert (|basis| - i) * share == (|basis| - i - 1) * share + share;
      if limit > 0 && expansions' >= limit {
        WorkAhead(|basis|, i, share);
        limited := true;
        return;
      }
      expansions' := expansions' + 1;
      queue', keys', seen', found := Expand(target, basis, legal, queue', keys', seen', maxDepth, node, i, frontier);
      if found.Some? {
        return;
      }
    }
    CoverDone(target, basis, legal, queue', seen', maxDepth, node.snapshot);
  }

  lemma WorkAhead(width: nat, i: nat, share: nat)
    requires i < width && share >= 1
    ensures i < width * share
  {
    assert width * share >= width * 1;
  }

  // `limited` says that the search gave up at the expansion limit.
  method Search(target: Snapshot, basis: Basis, legal: Snapshot -> bool, maxDepth: nat, maxCandidates: nat)
    returns (r: Solution, ghost limited: bool)
    requires WellFormed(target) && Tidied(target) && BasisOk(basis, target) && !legal(target)
    ensures r.status == Found || r.status == Exhausted
    ensures Answers(target, basis, legal, maxDepth, r)
    ensures r.status == Exhausted && !limited ==> NoneWithin(target, basis, legal, maxDepth)
    ensures limited ==> 0 < ExpansionLimit(maxDepth, maxCandidates) < TreeSize(|basis|, maxDepth)
  {
    hide WellFormed, BasisOk, Apply, NodeOk, NoneWithin, Searching, Keyed, Tidied, Likened, SnapshotCodec.Canonical;
    limited := false;
    var queue, keys := [Node(target, [], 0, [])], {SnapshotCodec.Canonical(target)};
    ghost var seen := {target};
    RootOk(target, basis);
    RootKeyed(target);
    RootSearching(target, basis, legal, maxDepth);
    var frontier: nat, expansions: nat := 1, 0;
    assert queue[..0] == [];

    while queue != []
      invariant Searching(target, basis, legal, queue, seen, maxDepth, {}) && Keyed(target, keys, seen)
      invariant expansions + QueueWork(queue, |basis|, maxDepth) <= TreeSize(|basis|, maxDepth)
      decreases QueueWork(queue, |basis|, maxDepth), |queue|
    {
      frontier := Max(frontier, |queue|);
      var node := queue[0];
      Popped(target, basis, legal, queue, seen, maxDepth);
      QueueWorkPop(queue, |basis|, maxDepth);
      queue := queue[1..];
      if node.depth >= maxDepth {
        NodeDeep(target, basis, node, maxDepth);
        CoverDone(target, basis, legal, queue, seen, maxDepth, node.snapshot);
      } else {
        var found, stopped;
        queue, keys, seen, expansions, found, stopped :=
          ExpandAll(target, basis, legal, queue, keys, seen, maxDepth, node, frontier, expansions,
                    ExpansionLimit(maxDepth, maxCandidates));
        if found.Some? {
          return found.value, false;
        }
        if stopped {
          return Solution(Exhausted, maxDepth + 1, [], [], frontier), true;
        }
      }
    }
    Drained(target, basis, legal, seen, maxDepth);
    return Solution(Exhausted, maxDepth + 1, [], [], frontier), false;
  }

  lemma RootKeyed(target: Snapshot)
    requires WellFormed(target) && Tidied(target)
    ensures Keyed(target, {SnapshotCodec.Canonical(target)}, {target})
  {
    hide SnapshotCodec.Canonical, WellFormed, Tidied;
  }

  lemma Drained(target: Snapshot, basis: Basis, legal: Snapshot -> bool, seen: set<Snapshot>, maxDepth: nat)
    requires Searching(target, basis, legal, [], seen, maxDepth, {})
    ensures NoneWithin(target, basis, legal, maxDepth)
  {
    ClosedAt(target, basis, [], seen, maxDepth, {}, maxDepth);
    NoneSeen(target, basis, legal, seen, maxDepth);
  }

  lemma RootSearching(target: Snapshot, basis: Basis, legal: Snapshot -> bool, maxDepth: nat)
    requires NodeOk(target, basis, Node(target, [], 0, [])) && !legal(target)
    ensures Searching(target, basis, legal, [Node(target, [], 0, [])], {target}, maxDepth, {})
  {
    var queue := [Node(target, [], 0, [])];
    assert queue[0].snapshot == target;
  }

  lemma NodeDeep(target: Snapshot, basis: Basis, node: Node, maxDepth: nat)
    requires NodeOk(target, basis, node) && node.depth >= maxDepth
    ensures node.snapshot.epoch >= target.epoch + maxDepth
  {
  }

  lemma CoverDone(target: Snapshot, basis: Basis, legal: Snapshot -> bool, queue: seq<Node>, seen: set<Snapshot>,
                  maxDepth: nat, s: Snapshot)
    requires Searching(target, basis, legal, queue, seen, maxDepth, {s})
    requires s.epoch >= target.epoch + maxDepth || Expanded(s, basis, seen, |basis|)
    ensures Searching(target, basis, legal, queue, seen, maxDepth, {})
  {
    CoverClose(target, basis, queue, seen, maxDepth, s);
  }

  // solve_repair: nothing recorded, no verifier, already legal, or a search.
  method SolveRepair(violated: bool, verifier: Option<Snapshot -> bool>, target: Snapshot, basis: Basis,
                     maxDepth: nat, maxCandidates: nat)
    returns (r: Solution, ghost limited: bool)
    requires WellFormed(target) && Tidied(target) && BasisOk(basis, target)
    ensures !violated ==> r == Solution(Accepted', 0, [], [], 0)
    ensures violated && verifier.None? ==> r == Solution(VerifierUnavailable, maxDepth + 1, [], [], 0)
    ensures violated && verifier.Some? ==>
      && Answers(target, basis, verifier.value, maxDepth, r)
      && (r.status == Accepted' <==> verifier.value(target))
      && (r.status == Exhausted && !limited ==> NoneWithin(target, basis, verifier.value, maxDepth))
    ensures limited ==> 0 < ExpansionLimit(maxDepth, maxCandidates) < TreeSize(|basis|, maxDepth)
  {
    limited := false;
    if !violated {
      return Solution(Accepted', 0, [], [], 0), false;
    }
    if verifier.None? {
      return Solution(VerifierUnavailable, maxDepth + 1, [], [], 0), false;
    }
    if verifier.value(target) {
      return Solution(Accepted', 0, [], [], 0), false;
    }
    r, limited := Search(target, basis, verifier.value, maxDepth, maxCandidates);
  }
}
