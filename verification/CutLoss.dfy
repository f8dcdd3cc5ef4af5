// What a removed vertex costs: the flood fill that measures the components left, and the
// analysis of a whole graph view.

module CutLoss {
  import opened Model
  import opened CutGraph
  import opened CutSearch
  import opened CutAnalysis

  // The component of `start` once v is gone.
  ghost function Component(g: Graph, v: nat, start: nat): set<nat> {
    set w | w in Vertices(g) - {v} && Linked(g, Vertices(g) - {v}, Pointers(g), start, w)
  }

  // All other vertices, less the largest component they form without v.
  ghost predicate IsLoss(g: Graph, v: nat, loss: nat) {
    if g.n <= 1 then loss == 0
    else
      exists start :: start in Vertices(g) - {v} && loss == g.n - 1 - |Component(g, v, start)| &&
        forall other :: other in Vertices(g) - {v} ==> |Component(g, v, other)| <= |Component(g, v, start)|
  }

  // Without v, no arc leads from the set to outside it.
  ghost predicate Sealed(g: Graph, v: nat, s: set<nat>) {
    forall a, b, p :: a in s && a != v && b != v && Joins(g, a, b, p) ==> b in s
  }

  // The vertices a fill has reached: linked to its start, and the finished ones surrounded.
  ghost predicate Filling(g: Graph, v: nat, start: nat, before: set<nat>, seen: set<nat>, waiting: set<nat>) {
    && before <= seen && waiting <= seen - before && seen <= Vertices(g) && v in before && start in seen - before
    && (forall w :: w in seen - before ==> Linked(g, Vertices(g) - {v}, Pointers(g), start, w))
    && (forall a, b, p :: a in seen - before && a !in waiting && Joins(g, a, b, p) ==> b in seen)
  }

  lemma FillStart(g: Graph, v: nat, start: nat, before: set<nat>)
    requires v in before && before <= Vertices(g) && start in Vertices(g) && start !in before
    ensures Filling(g, v, start, before, before + {start}, {start})
  {
    LinkedSelf(g, Vertices(g) - {v}, Pointers(g), start);
  }

  // Reaching a neighbour of a vertex already reached.
  lemma FillReach(g: Graph, v: nat, start: nat, before: set<nat>, seen: set<nat>, waiting: set<nat>, from: nat, to: nat,
                  p: nat)
    requires GraphOk(g) && Filling(g, v, start, before, seen, waiting) && from in waiting && to !in seen &&
             Joins(g, from, to, p)
    ensures Filling(g, v, start, before, seen + {to}, waiting + {to}) && to in Vertices(g)
  {
    hide Linked, GraphOk;
    JoinsIn(g, from, to, p);
    LinkedArc(g, Vertices(g) - {v}, Pointers(g), from, to, p);
    LinkedTrans(g, Vertices(g) - {v}, Pointers(g), start, from, to);
  }

  // A fill with nothing waiting has reached exactly the component of its start.
  lemma FillDone(g: Graph, v: nat, start: nat, before: set<nat>, seen: set<nat>)
    requires GraphOk(g) && Filling(g, v, start, before, seen, {}) && Sealed(g, v, before)
    ensures seen - before == Component(g, v, start) && Sealed(g, v, seen)
  {
    var filled, vs := seen - before, Vertices(g) - {v};
    forall a, b, p | a in filled && a in vs && b in vs && p in Pointers(g) && Joins(g, a, b, p) ensures b in filled {
      if b in before {
        JoinsSym(g, a, b, p);
      }
    }
    assert Closed(g, vs, Pointers(g), filled);
  }

  // Vertices of one component have the same one.
  lemma SameComponent(g: Graph, v: nat, start: nat, w: nat)
    requires GraphOk(g) && start in Vertices(g) - {v} && w in Component(g, v, start)
    ensures Component(g, v, w) == Component(g, v, start)
  {
    var vs, ps := Vertices(g) - {v}, Pointers(g);
    LinkedSym(g, vs, ps, start, w);
    forall x | x in vs ensures x in Component(g, v, w) <==> x in Component(g, v, start) {
      if x in Component(g, v, w) {
        LinkedTrans(g, vs, ps, start, w, x);
      }
      if x in Component(g, v, start) {
        LinkedTrans(g, vs, ps, w, start, x);
      }
    }
  }

  function Marked(seen: seq<bool>): set<nat> {
    set v | 0 <= v < |seen| && seen[v]
  }

  function Elems(stack: seq<nat>): set<nat> {
    set i | 0 <= i < |stack| :: stack[i]
  }

  predicate NoRepeats(stack: seq<nat>) {
    forall i, j :: 0 <= i < j < |stack| ==> stack[i] != stack[j]
  }

  lemma MarkedOne(seen: seq<bool>, v: nat)
    requires v < |seen|
    ensures Marked(seen[v := true]) == Marked(seen) + {v}
  {
  }

  lemma MarkedAt(g: Graph, seen: seq<bool>, v: nat)
    requires |seen| == g.n && v < g.n
    ensures (v in Marked(seen) <==> seen[v]) && Marked(seen) <= Vertices(g) && v in Vertices(g)
  {
  }

  lemma PopElems(stack: seq<nat>)
    requires stack != [] && NoRepeats(stack)
    ensures stack[|stack| - 1] in Elems(stack) && Elems(stack[..|stack| - 1]) == Elems(stack) - {stack[|stack| - 1]} &&
            NoRepeats(stack[..|stack| - 1])
  {
    var rest := stack[..|stack| - 1];
    forall x | x in Elems(stack) - {stack[|stack| - 1]} ensures x in Elems(rest) {
      var i :| 0 <= i < |stack| && stack[i] == x;
      assert rest[i] == x;
    }
  }

  lemma PushElems(stack: seq<nat>, x: nat)
    requires NoRepeats(stack) && x !in Elems(stack)
    ensures Elems(stack + [x]) == Elems(stack) + {x} && NoRepeats(stack + [x])
  {
    assert (stack + [x])[|stack|] == x;
    forall y | y in Elems(stack) ensures y in Elems(stack + [x]) {
      var i :| 0 <= i < |stack| && stack[i] == y;
      assert (stack + [x])[i] == y;
    }
  }

  lemma FillBasics(g: Graph, v: nat, start: nat, before: set<nat>, seen: set<nat>, waiting: set<nat>)
    requires Filling(g, v, start, before, seen, waiting)
    ensures before <= seen && waiting <= seen - before && start in seen && seen <= Vertices(g)
  {
  }

  // Marks and stacks the neighbours of one vertex.
  method Spread(ghost g: Graph, links: seq<Link>, ghost removed: nat, ghost start: nat, ghost before: set<nat>,
                node: nat,
                seen: seq<bool>, stack: seq<nat>) returns (seen': seq<bool>, stack': seq<nat>)
    requires GraphOk(g) && |seen| == g.n && NoRepeats(stack) && node !in Elems(stack)
    requires Filling(g, removed, start, before, Marked(seen), Elems(stack) + {node})
    requires forall k :: 0 <= k < |links| ==> Joins(g, node, links[k].to, links[k].pointer)
    ensures |seen'| == g.n && NoRepeats(stack') && node !in Elems(stack')
    ensures Filling(g, removed, start, before, Marked(seen'), Elems(stack') + {node})
    ensures forall k :: 0 <= k < |links| ==> links[k].to in Marked(seen')
    ensures SameDone(Marked(seen), Elems(stack), Marked(seen'), Elems(stack'))
  {
    hide Linked, GraphOk, Joins, Filling, Elems, NoRepeats;
    seen', stack' := seen, stack;
    for k := 0 to |links|
      invariant |seen'| == g.n && NoRepeats(stack') && node !in Elems(stack')
      invariant Filling(g, removed, start, before, Marked(seen'), Elems(stack') + {node})
      invariant Marked(seen') - Elems(stack') == Marked(seen) - Elems(stack)
      invariant forall j :: 0 <= j < k ==> links[j].to in Marked(seen')
    {
      var edge := links[k];
      JoinsIn(g, node, edge.to, edge.pointer);
      FillBasics(g, removed, start, before, Marked(seen'), Elems(stack') + {node});
      if !seen'[edge.to] {
        FillReach(g, removed, start, before, Marked(seen'), Elems(stack') + {node}, node, edge.to, edge.pointer);
        MarkedOne(seen', edge.to);
        PushElems(stack', edge.to);
        assert Elems(stack') + {node} + {edge.to} == Elems(stack') + {edge.to} + {node};
        seen' := seen'[edge.to := true];
        stack' := stack' + [edge.to];
      }
    }
  }

  // Marks everything linked to start, and counts it.
  method Fill(ghost g: Graph, adjacency: seq<seq<Link>>, ghost removed: nat, start: nat, seen: seq<bool>)
    returns (seen': seq<bool>, size: nat)
    requires GraphOk(g) && AdjacencyOk(g, adjacency) && |seen| == g.n && start < g.n && !seen[start]
    requires removed in Marked(seen) && Sealed(g, removed, Marked(seen))
    ensures |seen'| == g.n && Marked(seen') == Marked(seen) + Component(g, removed, start)
    ensures size == |Component(g, removed, start)| && Sealed(g, removed, Marked(seen')) && seen'[start]
  {
    hide Linked, GraphOk, AdjacencyOk, Joins, Sealed, Component, Filling, Elems, NoRepeats, AllLinks, Marked, Vertices,
         Done, SameDone;
    ghost var before := Marked(seen);
    var stack := [start];
    seen' := seen[start := true];
    size := 0;
    DoneFirst(g, seen, start, removed);
    ghost var popped: set<nat> := {};
    while stack != []
      invariant |seen'| == g.n && NoRepeats(stack) && Filling(g, removed, start, before, Marked(seen'), Elems(stack))
      invariant Done(popped, before, Marked(seen'), Elems(stack)) && size == |popped|
      decreases Vertices(g) - popped
    {
      ghost var was, waiting := popped, Elems(stack);
      var node := stack[|stack| - 1];
      FillBasics(g, removed, start, before, Marked(seen'), Elems(stack));
      PopElems(stack);
      stack := stack[..|stack| - 1];
      size := size + 1;
      popped := popped + {node};
      NeighboursOf(g, adjacency, node);
      assert Elems(stack) == waiting - {node} && Elems(stack) + {node} == waiting;
      ghost var marked := Marked(seen');
      seen', stack := Spread(g, adjacency[node], removed, start, before, node, seen', stack);
      FillNode(g, removed, start, before, Marked(seen'), Elems(stack), node, adjacency[node]);
      FillBasics(g, removed, start, before, Marked(seen'), Elems(stack));
      Popped(g, before, was, marked, waiting, node, Marked(seen'), Elems(stack));
    }
    ElemsNone(stack);
    DoneLast(g, removed, start, before, seen', popped);
  }

  lemma NeighboursOf(g: Graph, adjacency: seq<seq<Link>>, node: nat)
    requires AdjacencyOk(g, adjacency) && node in Vertices(g)
    ensures node < |adjacency| && AllLinks(g, adjacency[node], node)
    ensures forall k :: 0 <= k < |adjacency[node]| ==> Joins(g, node, adjacency[node][k].to, adjacency[node][k].pointer)
  {
  }

  ghost predicate SameDone(marked: set<nat>, waiting: set<nat>, marked': set<nat>, waiting': set<nat>) {
    marked' - waiting' == marked - waiting
  }

  ghost predicate Done(popped: set<nat>, before: set<nat>, marked: set<nat>, waiting: set<nat>) {
    popped == marked - before - waiting
  }

  // One more vertex done.
  lemma Popped(g: Graph, before: set<nat>, popped: set<nat>, marked: set<nat>, waiting: set<nat>, node: nat,
               marked': set<nat>, waiting': set<nat>)
    requires Done(popped, before, marked, waiting) && node in waiting && waiting <= marked - before
    requires SameDone(marked, waiting - {node}, marked', waiting') && before <= marked' && waiting' <= marked' - before
    requires marked <= Vertices(g)
    ensures Done(popped + {node}, before, marked', waiting') && |popped + {node}| == |popped| + 1
    ensures Vertices(g) - (popped + {node}) < Vertices(g) - popped
  {
    forall x: nat ensures x in popped + {node} <==> x in marked' - before - waiting' {
      assert x in marked' - waiting' <==> x in marked - (waiting - {node});
    }
    assert node in Vertices(g) - popped;
  }

  lemma DoneFirst(g: Graph, seen: seq<bool>, start: nat, removed: nat)
    requires GraphOk(g) && |seen| == g.n && start < g.n && !seen[start] && removed in Marked(seen)
    ensures Filling(g, removed, start, Marked(seen), Marked(seen[start := true]), Elems([start])) && NoRepeats([start])
    ensures Done({}, Marked(seen), Marked(seen[start := true]), Elems([start]))
  {
    hide Filling;
    MarkedOne(seen, start);
    MarkedAt(g, seen, start);
    FillStart(g, removed, start, Marked(seen));
    ElemsOne(start);
  }

  lemma DoneLast(g: Graph, v: nat, start: nat, before: set<nat>, seen: seq<bool>, popped: set<nat>)
    requires GraphOk(g) && |seen| == g.n && start < g.n
    requires Filling(g, v, start, before, Marked(seen), {}) && Sealed(g, v, before) &&
             Done(popped, before, Marked(seen), {})
    ensures popped == Component(g, v, start) && Marked(seen) == before + popped && Sealed(g, v, Marked(seen)) &&
            seen[start]
  {
    hide Component, Sealed, Linked;
    FillDone(g, v, start, before, Marked(seen));
    MarkedAt(g, seen, start);
  }

  lemma ElemsOne(x: nat)
    ensures Elems([x]) == {x} && NoRepeats([x])
  {
    assert [x][0] == x;
  }

  lemma ElemsNone(stack: seq<nat>)
    requires stack == []
    ensures Elems(stack) == {}
  {
  }

  lemma FillNode(g: Graph, v: nat, start: nat, before: set<nat>, seen: set<nat>, waiting: set<nat>, node: nat,
                 links: seq<Link>)
    requires Filling(g, v, start, before, seen, waiting + {node}) && node !in waiting && AllLinks(g, links, node)
    requires forall j :: 0 <= j < |links| ==> links[j].to in seen
    ensures Filling(g, v, start, before, seen, waiting)
  {
    hide Linked, Joins;
    forall b: nat, p: nat | Joins(g, node, b, p) ensures b in seen {
      var j :| 0 <= j < |links| && links[j] == Link(b, p);
    }
  }

  // The components measured so far: each marked vertex lies in one no larger than `largest`.
  ghost predicate Measured(g: Graph, removed: nat, seen: set<nat>, largest: nat) {
    && (forall w :: w in seen && w != removed ==> |Component(g, removed, w)| <= largest)
    && (seen == {removed} || exists w :: w in seen && w != removed && |Component(g, removed, w)| == largest)
    && (seen == {removed} ==> largest == 0)
  }

  lemma Measure(g: Graph, removed: nat, seen: set<nat>, largest: nat, start: nat)
    requires GraphOk(g) && Measured(g, removed, seen, largest) && removed in seen && start !in seen &&
             start in Vertices(g)
    ensures var component := Component(g, removed, start);
            start in component && Measured(g, removed, seen + component, if largest < |component| then |component|
              else largest)
  {
    hide Linked;
    var component := Component(g, removed, start);
    LinkedSelf(g, Vertices(g) - {removed}, Pointers(g), start);
    assert start in component;
    forall w | w in component ensures Component(g, removed, w) == component {
      SameComponent(g, removed, start, w);
    }
  }

  lemma SealedOne(g: Graph, v: nat)
    ensures Sealed(g, v, {v})
  {
  }

  lemma NoneMarked(seen: seq<bool>)
    requires forall v :: 0 <= v < |seen| ==> !seen[v]
    ensures Marked(seen) == {}
  {
  }

  // What is lost with a vertex: all others outside the largest component left.
  method LossWithout(ghost g: Graph, adjacency: seq<seq<Link>>, removed: nat) returns (loss: nat)
    requires GraphOk(g) && AdjacencyOk(g, adjacency) && removed < g.n
    ensures IsLoss(g, removed, loss)
  {
    hide Linked, GraphOk, AdjacencyOk, Sealed, Component, Marked, Measured;
    LinksOf(g, adjacency, removed);
    var total := |adjacency|;
    if total <= 1 {
      return 0;
    }
    var seen := seq(total, _ => false);
    NoneMarked(seen);
    MarkedOne(seen, removed);
    seen := seen[removed := true];
    assert Marked(seen) == {removed};
    SealedOne(g, removed);
    MeasuredNone(g, removed);
    var largest: nat := 0;
    for start := 0 to total
      invariant |seen| == g.n && removed in Marked(seen) && Sealed(g, removed, Marked(seen))
      invariant Measured(g, removed, Marked(seen), largest)
      invariant forall v :: 0 <= v < start ==> v in Marked(seen)
    {
      MarkedAt(g, seen, start);
      if !seen[start] {
        Measure(g, removed, Marked(seen), largest, start);
        var size: nat;
        seen, size := Fill(g, adjacency, removed, start, seen);
        largest := if largest < size then size else largest;
      }
    }
    MarkedAt(g, seen, removed);
    MeasuredAll(g, removed, Marked(seen), largest);
    loss := total - 1 - largest;
  }

  lemma MeasuredNone(g: Graph, removed: nat)
    ensures Measured(g, removed, {removed}, 0)
  {
  }

  lemma MeasuredAll(g: Graph, removed: nat, seen: set<nat>, largest: nat)
    requires Measured(g, removed, seen, largest) && g.n >= 2 && removed < g.n && forall v :: 0 <= v < g.n ==> v in seen
    requires seen <= Vertices(g)
    ensures largest <= g.n - 1 && IsLoss(g, removed, g.n - 1 - largest)
  {
    hide Linked;
    var other: nat := if removed == 0 then 1 else 0;
    assert other in seen && other != removed;
    var w :| w in seen && w != removed && |Component(g, removed, w)| == largest;
    VertexCount(g);
    Subset(Component(g, removed, w), Vertices(g) - {removed});
  }

  lemma {:induction false} VertexCount(g: Graph)
    ensures |Vertices(g)| == g.n
    decreases g.n
  {
    if g.n > 0 {
      var less := Graph(g.n - 1, []);
      VertexCount(less);
      assert Vertices(g) == Vertices(less) + {g.n - 1};
    } else {
      assert Vertices(g) == {};
    }
  }

  lemma Subset(a: set<nat>, b: set<nat>)
    requires a <= b
    ensures |a| <= |b|
  {
    assert b == a + (b - a);
  }

  // ---- from a graph view

  datatype WeightedArc = WeightedArc(from: ObjectId, to: ObjectId, pointer: nat)

  predicate IdLess(a: ObjectId, b: ObjectId) {
    a.index < b.index || (a.index == b.index && a.generation < b.generation)
  }

  predicate Ascending(ids: seq<ObjectId>) {
    forall i, j :: 0 <= i < j < |ids| ==> IdLess(ids[i], ids[j])
  }

  // Sorting and dropping repetitions, one object at a time.
  function Place(ids: seq<ObjectId>, id: ObjectId): (r: seq<ObjectId>)
    requires Ascending(ids)
    ensures Ascending(r) && forall x :: x in r <==> x in ids || x == id
  {
    if ids == [] then [id]
    else if ids[|ids| - 1] == id then ids
    else if IdLess(ids[|ids| - 1], id) then ids + [id]
    else
      var rest := Place(ids[..|ids| - 1], id);
      assert forall x :: x in ids <==> x in ids[..|ids| - 1] || x == ids[|ids| - 1];
      assert forall i :: 0 <= i < |rest| ==> rest[i] in rest && IdLess(rest[i], ids[|ids| - 1]);
      rest + [ids[|ids| - 1]]
  }

  function SortUnique(objects: seq<ObjectId>): (r: seq<ObjectId>)
    ensures Ascending(r) && forall x :: x in r <==> x in objects
  {
    if objects == [] then []
    else
      var rest := SortUnique(objects[..|objects| - 1]);
      assert forall x :: x in objects <==> x in objects[..|objects| - 1] || x == objects[|objects| - 1];
      Place(rest, objects[|objects| - 1])
  }

  // The position of an object, or the length when it is not there.
  function Position(ids: seq<ObjectId>, id: ObjectId): (i: nat)
    ensures i <= |ids| && (i < |ids| ==> ids[i] == id) && (i == |ids| ==> id !in ids)
  {
    if ids == [] then 0 else if ids[0] == id then 0 else 1 + Position(ids[1..], id)
  }

  method IndexOf(ids: seq<ObjectId>, id: ObjectId) returns (i: nat)
    requires Ascending(ids)
    ensures i == Position(ids, id)
  {
    var lo, hi := 0, |ids|;
    while lo < hi
      invariant 0 <= lo <= hi <= |ids|
      invariant forall k :: 0 <= k < lo ==> IdLess(ids[k], id)
      invariant forall k :: hi <= k < |ids| ==> !IdLess(ids[k], id)
    {
      var mid := (lo + hi) / 2;
      if IdLess(ids[mid], id) {
        lo := mid + 1;
      } else {
        hi := mid;
      }
    }
    i := if lo == |ids| || ids[lo] != id then |ids| else lo;
  }

  // Arcs with both ends among the objects, by position.
  function ArcsOf(ids: seq<ObjectId>, arcs: seq<WeightedArc>): seq<Arc> {
    if arcs == [] then []
    else
      var arc := arcs[|arcs| - 1];
      var from, to, rest := Position(ids, arc.from), Position(ids, arc.to), ArcsOf(ids, arcs[..|arcs| - 1]);
      if from < |ids| && to < |ids| then rest + [Arc(from, to, arc.pointer)] else rest
  }

  function GraphOf(ids: seq<ObjectId>, arcs: seq<WeightedArc>): Graph {
    Graph(|ids|, ArcsOf(ids, arcs))
  }

  // Pointers are valid and name one arc each.
  ghost predicate ArcsOk(arcs: seq<WeightedArc>) {
    && (forall i :: 0 <= i < |arcs| ==> arcs[i].pointer != 0)
    && (forall i, j :: 0 <= i < j < |arcs| ==> arcs[i].pointer != arcs[j].pointer)
  }

  lemma {:induction false} GraphOfOk(ids: seq<ObjectId>, arcs: seq<WeightedArc>)
    requires ArcsOk(arcs)
    ensures GraphOk(GraphOf(ids, arcs))
    ensures forall i :: 0 <= i < |ArcsOf(ids, arcs)| ==>
              exists k :: 0 <= k < |arcs| && arcs[k].pointer == ArcsOf(ids, arcs)[i].pointer
  {
    if arcs != [] {
      var less := arcs[..|arcs| - 1];
      GraphOfOk(ids, less);
      var all, rest := ArcsOf(ids, arcs), ArcsOf(ids, less);
      forall i | 0 <= i < |all| ensures exists k :: 0 <= k < |arcs| && arcs[k].pointer == all[i].pointer {
        if i < |rest| {
          var k :| 0 <= k < |less| && less[k].pointer == rest[i].pointer;
          assert arcs[k].pointer == all[i].pointer;
        } else {
          assert arcs[|arcs| - 1].pointer == all[i].pointer;
        }
      }
      forall i | 0 <= i < |rest| ensures rest[i].pointer != arcs[|arcs| - 1].pointer {
        var k :| 0 <= k < |less| && less[k].pointer == rest[i].pointer;
        assert arcs[k].pointer == rest[i].pointer;
      }
    }
  }

  function PushLink(adjacency: seq<seq<Link>>, v: nat, link: Link): seq<seq<Link>>
    requires v < |adjacency|
  {
    adjacency[v := adjacency[v] + [link]]
  }

  // One arc more, at both of its ends.
  lemma ArcPushed(g: Graph, adjacency: seq<seq<Link>>, arc: Arc)
    requires AdjacencyOk(g, adjacency) && arc.from < g.n && arc.to < g.n
    requires forall i :: 0 <= i < |g.arcs| ==> g.arcs[i].pointer != arc.pointer
    ensures AdjacencyOk(Graph(g.n, g.arcs + [arc]),
                        PushLink(PushLink(adjacency, arc.from, Link(arc.to, arc.pointer)), arc.to,
                          Link(arc.from, arc.pointer)))
  {
    var g' := Graph(g.n, g.arcs + [arc]);
    var one := PushLink(adjacency, arc.from, Link(arc.to, arc.pointer));
    var two := PushLink(one, arc.to, Link(arc.from, arc.pointer));
    assert g'.arcs[|g.arcs|] == arc;
    forall v: nat, w: nat, p: nat | Joins(g, v, w, p) ensures Joins(g', v, w, p) && p != arc.pointer {
      var i :| 0 <= i < |g.arcs| && g.arcs[i].pointer == p && ArcJoins(g.arcs[i], v, w);
      assert g'.arcs[i] == g.arcs[i];
    }
    forall v, w: nat, p: nat | 0 <= v < g.n && Joins(g', v, w, p) ensures Link(w, p) in two[v] {
      var i :| 0 <= i < |g'.arcs| && g'.arcs[i].pointer == p && ArcJoins(g'.arcs[i], v, w);
      if i < |g.arcs| {
        assert Joins(g, v, w, p);
        assert Link(w, p) in adjacency[v];
      }
    }
  }

  // The adjacency lists hold each arc with known ends at both of them.
  method BuildAdjacency(ids: seq<ObjectId>, arcs: seq<WeightedArc>) returns (adjacency: seq<seq<Link>>)
    requires Ascending(ids) && ArcsOk(arcs)
    ensures AdjacencyOk(GraphOf(ids, arcs), adjacency)
  {
    hide AdjacencyOk, GraphOk;
    adjacency := seq(|ids|, _ => []);
    NoAdjacency(ids, adjacency);
    for i := 0 to |arcs|
      invariant |adjacency| == |ids| && AdjacencyOk(GraphOf(ids, arcs[..i]), adjacency)
    {
      assert arcs[..i + 1][..i] == arcs[..i];
      var from := IndexOf(ids, arcs[i].from);
      var to := IndexOf(ids, arcs[i].to);
      if from < |ids| && to < |ids| {
        NewPointer(ids, arcs, i);
        ArcPushed(GraphOf(ids, arcs[..i]), adjacency, Arc(from, to, arcs[i].pointer));
        adjacency := PushLink(adjacency, from, Link(to, arcs[i].pointer));
        adjacency := PushLink(adjacency, to, Link(from, arcs[i].pointer));
      }
    }
    assert arcs[..|arcs|] == arcs;
  }

  lemma NoAdjacency(ids: seq<ObjectId>, adjacency: seq<seq<Link>>)
    requires |adjacency| == |ids| && forall v :: 0 <= v < |adjacency| ==> adjacency[v] == []
    ensures AdjacencyOk(GraphOf(ids, []), adjacency)
  {
  }

  lemma NewPointer(ids: seq<ObjectId>, arcs: seq<WeightedArc>, i: nat)
    requires ArcsOk(arcs) && i < |arcs|
    ensures forall k :: 0 <= k < |ArcsOf(ids, arcs[..i])| ==> ArcsOf(ids, arcs[..i])[k].pointer != arcs[i].pointer
  {
    GraphOfOk(ids, arcs[..i]);
  }

  // The analysis of a graph view: exactly the cut vertices, in order, exactly the bridges,
  // and for each cut vertex what is lost with it.
  method AnalyzeCuts(objects: seq<ObjectId>, arcs: seq<WeightedArc>)
    returns (points: seq<ObjectId>, bridges: set<nat>, loss: map<ObjectId, nat>)
    requires ArcsOk(arcs)
    ensures var ids := SortUnique(objects);
            && Ascending(points) && (forall o :: o in points ==> o in ids)
            && (forall v :: 0 <= v < |ids| ==> (ids[v] in points <==> Cut(GraphOf(ids, arcs), v)))
            && (forall p: nat :: p in bridges <==> Bridge(GraphOf(ids, arcs), p))
            && (forall o :: o in loss <==> o in points)
            && (forall v :: 0 <= v < |ids| && ids[v] in loss ==> IsLoss(GraphOf(ids, arcs), v, loss[ids[v]]))
  {
    hide Cut, Bridge, IsLoss, GraphOk, AdjacencyOk, ArcsOk, SortUnique, Linked;
    var ids := SortUnique(objects);
    ghost var g := GraphOf(ids, arcs);
    var adjacency := BuildAdjacency(ids, arcs);
    GraphOfOk(ids, arcs);
    var search := new LowLink(g, adjacency);
    search.Search();
    bridges := search.bridges;
    points, loss := Reports(g, ids, adjacency, search.articulation);
  }

  // The reported vertices as objects, in order, each with its loss.
  method Reports(ghost g: Graph, ids: seq<ObjectId>, adjacency: seq<seq<Link>>, articulation: set<nat>)
    returns (points: seq<ObjectId>, loss: map<ObjectId, nat>)
    requires GraphOk(g) && AdjacencyOk(g, adjacency) && g.n == |ids| && Ascending(ids)
    ensures Ascending(points) && forall o :: o in points ==> o in ids
    ensures forall v :: 0 <= v < |ids| ==> (ids[v] in points <==> v in articulation)
    ensures forall o :: o in loss <==> o in points
    ensures forall v :: 0 <= v < |ids| && ids[v] in loss ==> IsLoss(g, v, loss[ids[v]])
  {
    hide IsLoss, GraphOk, AdjacencyOk;
    points, loss := [], map[];
    for index := 0 to |ids|
      invariant Ascending(points) && forall o :: o in points ==> o in ids[..index]
      invariant forall v :: 0 <= v < index ==> (ids[v] in points <==> v in articulation)
      invariant forall o :: o in loss <==> o in points
      invariant forall v :: 0 <= v < index && ids[v] in loss ==> IsLoss(g, v, loss[ids[v]])
    {
      assert ids[..index + 1] == ids[..index] + [ids[index]];
      assert ids[index] !in ids[..index] by {
        assert forall v :: 0 <= v < index ==> IdLess(ids[v], ids[index]);
      }
      if index in articulation {
        var lost := LossWithout(g, adjacency, index);
        Ascends(ids, points, index);
        points := points + [ids[index]];
        loss := loss[ids[index] := lost];
      }
    }
    assert ids[..|ids|] == ids;
  }

  lemma Ascends(ids: seq<ObjectId>, points: seq<ObjectId>, index: nat)
    requires Ascending(ids) && Ascending(points) && index < |ids| && forall o :: o in points ==> o in ids[..index]
    ensures Ascending(points + [ids[index]])
  {
    forall k | 0 <= k < |points| ensures IdLess(points[k], ids[index]) {
      assert points[k] in ids[..index];
    }
  }
}
