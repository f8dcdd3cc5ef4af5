// The cut analysis of a graph view: the search from every vertex, the adjacency lists it
// runs on, and what is lost with each cut vertex.

module CutAnalysis {
  import opened Model
  import opened CutGraph
  import opened CutSearch

  class LowLink {
    const adjacency: seq<seq<Link>>
    ghost const g: Graph
    var discovered: seq<int>
    var low: seq<int>
    var parent: seq<nat>
    var time: nat
    var articulation: set<nat>
    var bridges: set<nat>
    ghost var order: seq<nat>

    ghost function Mem(): Memory
      reads this
    {
      Memory(discovered, low, parent, order, articulation, bridges)
    }

    ghost predicate Valid()
      reads this
    {
      GraphOk(g) && AdjacencyOk(g, adjacency) && time == |order| &&
        |adjacency| == |discovered| == |low| == |parent| == g.n &&
      MemoryOk(g, Mem())
    }

    constructor (ghost graph: Graph, links: seq<seq<Link>>)
      requires GraphOk(graph) && AdjacencyOk(graph, links)
      ensures Valid() && g == graph && adjacency == links && order == [] && articulation == {} && bridges == {}
      ensures forall v :: 0 <= v < graph.n ==> parent[v] == graph.n
    {
      g := graph;
      adjacency := links;
      discovered := seq(|links|, _ => -1);
      low := seq(|links|, _ => -1);
      parent := seq(|links|, _ => |links|);
      time := 0;
      articulation := {};
      bridges := {};
      order := [];
    }

    // After the search of a child: the low link comes back, and with it the verdict on both.
    method TakeChild(node: nat, edge: Link, children: nat, ghost path: seq<Step>)
      requires node < |adjacency| && edge.to < |adjacency| && children > 0
      requires |adjacency| == |discovered| == |low| == |parent|
      requires parent[node] == |adjacency| <==> path == []
      modifies `low, `articulation, `bridges
      ensures Mem() == TakenIn(old(Mem()), path, node, edge.to, edge.pointer, children - 1)
    {
      low := low[node := if low[edge.to] < low[node] then low[edge.to] else low[node]];
      if parent[node] == |adjacency| {
        if children > 1 {
          articulation := articulation + {node};
        }
      } else if low[edge.to] >= discovered[node] {
        articulation := articulation + {node};
      }
      if low[edge.to] > discovered[node] {
        bridges := bridges + {edge.pointer};
      }
    }

    method Dfs(node: nat, parentEdge: nat, ghost path: seq<Step>) returns (ghost tree: set<nat>)
      requires Valid() && Ready(g, Mem(), path, node, parentEdge)
      modifies this
      ensures Valid() && Searched(g, old(Mem()), Mem(), path, node, parentEdge, tree)
      decreases Vertices(g) - Found(TimesOf(Mem()))
    {
      hide GraphOk, Joins, Linked, Hangs, Settled, Complete, Verdict, LowBelow, LowReached, LinksDone, TreeLinks,
           PathTimes, Sound, Since, Found,
        Enclosed, Preserves, Bridge, Cut, AllLinks, AdjacencyOk, Searching, Searched, MemoryOk, Ready, PathOk, TakenIn;
      ghost var before, me := Mem(), path + [Step(node, parentEdge)];
      NodeOf(g, before, path, node, parentEdge);
      LinksOf(g, adjacency, node);
      discovered := discovered[node := time];
      low := low[node := time];
      time := time + 1;
      order := order + [node];
      var links := adjacency[node];
      assert Mem() == Entered(before, node);
      Enter(g, before, path, node, parentEdge, links);
      SearchingOk(g, before, Mem(), path, node, parentEdge, {}, links, 0, 0, node);
      tree := {};
      var children: nat := 0;
      ghost var first: nat := node;
      for k := 0 to |links|
        invariant Valid()
        invariant Searching(g, before, Mem(), path, node, parentEdge, tree, links, k, children, first)
      {
        var edge := links[k];
        ghost var m := Mem();
        JoinsIn(g, node, edge.to, edge.pointer);
        FoundOf(g, m, edge.to);
        SearchingOk(g, before, m, path, node, parentEdge, tree, links, k, children, first);
        if edge.pointer == parentEdge {
          PassEntry(g, before, m, path, node, parentEdge, tree, links, k, children, first);
        } else if discovered[edge.to] < 0 {
          parent := parent[edge.to := node];
          children := children + 1;
          assert Mem() == Adopted(m, node, edge.to);
          ChildReady(g, before, m, path, node, parentEdge, tree, links, k, children - 1, first);
          NodeOf(g, Mem(), me, edge.to, edge.pointer);
          FoundGrows(g, before, m, path, node, parentEdge, tree, links, k, children - 1, first);
          ghost var childTree := Dfs(edge.to, edge.pointer, me);
          ghost var m2 := Mem();
          TakeIn(g, before, m, m2, path, node, parentEdge, tree, links, k, children - 1, first, childTree);
          SearchingOk(g, before, TakenIn(m2, path, node, edge.to, edge.pointer, children - 1), path, node, parentEdge,
                      tree + childTree + {edge.pointer}, links, k + 1, children, if children == 1 then edge.to
                        else first);
          ParentOf(g, before, path, node, parentEdge);
          TakenKeeps(m2, path, node, edge.to, edge.pointer, children - 1);
          TakeChild(node, edge, children, path);
          tree := tree + childTree + {edge.pointer};
          first := if children == 1 then edge.to else first;
          SearchingOk(g, before, Mem(), path, node, parentEdge, tree, links, k + 1, children, first);
        } else {
          PassBack(g, before, m, path, node, parentEdge, tree, links, k, children, first);
          low := low[node := if discovered[edge.to] < low[node] then discovered[edge.to] else low[node]];
          assert Mem() == Lowered(m, node, Disc(TimesOf(m), edge.to));
          SearchingOk(g, before, Mem(), path, node, parentEdge, tree, links, k + 1, children, first);
        }
      }
      Finish(g, before, Mem(), path, node, parentEdge, tree, links, children, first);
    }

    // From every vertex not yet discovered; what is reported is then exact.
    method Search()
      requires Valid() && order == [] && articulation == {} && bridges == {}
      requires forall v :: 0 <= v < g.n ==> parent[v] == g.n
      modifies this
      ensures forall v: nat :: v in articulation <==> Cut(g, v)
      ensures forall p: nat :: p in bridges <==> Bridge(g, p)
    {
      hide Searched, Settled, Complete, Sound, Cut, Bridge, GraphOk, AdjacencyOk, Ready, PathTimes, Linked, TimesOk,
           Found, MemoryOk, Judged;
      JudgedNone(g, Mem());
      for index := 0 to |adjacency|
        invariant Valid() && Judged(g, Mem())
        invariant forall v :: 0 <= v < index ==> v in Found(TimesOf(Mem()))
      {
        FoundOf(g, Mem(), index);
        if discovered[index] < 0 {
          ghost var before := Mem();
          RootReady(g, before, index);
          ghost var tree := Dfs(index, 0, []);
          RootDone(g, before, Mem(), index, tree);
        }
      }
      assert Vertices(g) <= Found(TimesOf(Mem()));
      JudgedAll(g, Mem());
    }
  }

  // Between two roots everything found is settled and judged.
  ghost predicate Judged(g: Graph, m: Memory) {
    var t := TimesOf(m);
    && MemoryOk(g, m) && PathTimes(g, t, []) && Settled(g, t, []) && Complete(g, Found(t), 0, m.articulation, m.bridges)
    && (forall v :: 0 <= v < g.n && v !in Found(t) ==> m.parent[v] == g.n)
  }

  lemma RootReady(g: Graph, m: Memory, v: nat)
    requires Judged(g, m) && v < g.n && v !in Found(TimesOf(m))
    ensures Ready(g, m, [], v, 0)
  {
  }

  lemma RootDone(g: Graph, a: Memory, b: Memory, v: nat, tree: set<nat>)
    requires GraphOk(g) && Judged(g, a) && Searched(g, a, b, [], v, 0, tree)
    ensures Judged(g, b) && Found(TimesOf(a)) + {v} <= Found(TimesOf(b))
  {
    hide Linked, Hangs, Settled, Cut, Enclosed, LowBelow, LowReached, Complete, Sound;
    var t, t', theirs := TimesOf(a), TimesOf(b), Since(TimesOf(b), |a.order|);
    Older(g, t, t');
    SinceTimes(g, t', |a.order|);
    NoArcZero(g);
    CompleteGrows(g, Found(t), theirs, 0, 0, a.articulation, a.bridges, b.articulation, b.bridges);
    assert Found(t') == Found(t) + theirs;
    assert b.order[|a.order|] == v;
  }

  lemma NoArcZero(g: Graph)
    requires GraphOk(g)
    ensures !Bridge(g, 0)
  {
  }

  // Once everything is found, the reports are exact.
  lemma JudgedAll(g: Graph, m: Memory)
    requires GraphOk(g) && Judged(g, m) && Vertices(g) <= Found(TimesOf(m))
    ensures forall v: nat :: v in m.articulation <==> Cut(g, v)
    ensures forall p: nat :: p in m.bridges <==> Bridge(g, p)
  {
    forall v: nat | Cut(g, v) ensures v in m.articulation {
      CutIn(g, v);
    }
    forall p: nat | Bridge(g, p) ensures p in m.bridges {
      var a: nat, b: nat :| Joins(g, a, b, p) && !Linked(g, Vertices(g), Pointers(g) - {p}, a, b);
      JoinsIn(g, a, b, p);
    }
  }

  lemma CutIn(g: Graph, v: nat)
    requires Cut(g, v)
    ensures v in Vertices(g)
  {
    assert v !in Vertices(g) ==> Vertices(g) - {v} == Vertices(g);
  }

  // What the adjacency lists say of one vertex.
  lemma LinksOf(g: Graph, adjacency: seq<seq<Link>>, node: nat)
    requires AdjacencyOk(g, adjacency) && node < g.n
    ensures node < |adjacency| == g.n && AllLinks(g, adjacency[node], node)
    ensures forall k :: 0 <= k < |adjacency[node]| ==> Joins(g, node, adjacency[node][k].to, adjacency[node][k].pointer)
    ensures forall j, k ::
              0 <= j < k < |adjacency[node]| && adjacency[node][j].pointer == adjacency[node][k].pointer ==>
              adjacency[node][k].to == node
  {
  }

  lemma SearchingOk(g: Graph, a: Memory, m: Memory, path: seq<Step>, node: nat, entry: nat, tree: set<nat>,
                    links: seq<Link>, k: nat, children: nat, first: nat)
    requires Searching(g, a, m, path, node, entry, tree, links, k, children, first)
    ensures MemoryOk(g, m) && |m.discovered| == |m.low| == |m.parent| == g.n && node < g.n &&
            m.parent[node] == a.parent[node]
  {
    hide Joins, Linked, Hangs, Settled, Complete, Verdict, LowBelow, LowReached, LinksDone, TreeLinks, PathTimes, Sound,
         Since;
  }

  lemma FoundGrows(g: Graph, a: Memory, m: Memory, path: seq<Step>, node: nat, entry: nat, tree: set<nat>,
                   links: seq<Link>, k: nat, children: nat, first: nat)
    requires Ready(g, a, path, node, entry) && Searching(g, a, m, path, node, entry, tree, links, k, children, first)
    ensures Vertices(g) - Found(TimesOf(m)) < Vertices(g) - Found(TimesOf(a))
  {
    hide Joins, Linked, Hangs, Settled, Complete, Verdict, LowBelow, LowReached, LinksDone, TreeLinks, PathTimes, Sound,
         Since;
    Older(g, TimesOf(a), TimesOf(m));
    assert m.order[|a.order|] in Found(TimesOf(m));
  }

  // Only a root has no parent.
  lemma ParentOf(g: Graph, a: Memory, path: seq<Step>, node: nat, entry: nat)
    requires Ready(g, a, path, node, entry)
    ensures node < |a.parent| && (a.parent[node] == g.n <==> path == [])
  {
    hide Joins, Settled, Sound;
  }

  lemma NodeOf(g: Graph, a: Memory, path: seq<Step>, node: nat, entry: nat)
    requires Ready(g, a, path, node, entry)
    ensures node < g.n && MemoryOk(g, a)
  {
  }

  lemma FoundOf(g: Graph, m: Memory, v: nat)
    requires MemoryOk(g, m) && v in Vertices(g) && |m.discovered| == g.n
    ensures v < g.n && (v in Found(TimesOf(m)) <==> m.discovered[v] >= 0)
  {
    NodeFound(g, TimesOf(m), v);
  }

  lemma TakenKeeps(m: Memory, path: seq<Step>, node: nat, child: nat, p: nat, children: nat)
    requires node < |m.low| && child < |m.low|
    ensures TakenIn(m, path, node, child, p, children).parent == m.parent
  {
  }

  lemma JudgedNone(g: Graph, m: Memory)
    requires MemoryOk(g, m) && m.order == [] && forall v :: 0 <= v < g.n ==> m.parent[v] == g.n
    ensures Judged(g, m)
  {
  }
}
