// The depth-first search with discovery times and low links, and why what it reports
// are exactly the bridges and the cut vertices.

module CutSearch {
  import opened CutGraph

  datatype Link = Link(to: nat, pointer: nat)

  // The adjacency lists hold every arc at both ends, and repeat nothing but loops.
  ghost predicate AdjacencyOk(g: Graph, adjacency: seq<seq<Link>>) {
    && |adjacency| == g.n
    && (forall v, k :: 0 <= v < g.n && 0 <= k < |adjacency[v]| ==>
      Joins(g, v, adjacency[v][k].to, adjacency[v][k].pointer))
    && (forall v, w, p :: 0 <= v < g.n && Joins(g, v, w, p) ==> Link(w, p) in adjacency[v])
    && (forall v, j, k ::
          0 <= v < g.n && 0 <= j < k < |adjacency[v]| && adjacency[v][j].pointer == adjacency[v][k].pointer ==>
          adjacency[v][k].to == v)
  }

  // ---- the path from the root to the vertex being searched

  // Each vertex of the path with the arc that led to it; the root was led to by none.
  datatype Step = Step(vertex: nat, arc: nat)

  function OnPath(path: seq<Step>): set<nat> {
    set i | 0 <= i < |path| :: path[i].vertex
  }

  ghost predicate PathOk(g: Graph, path: seq<Step>) {
    && (forall i :: 0 < i < |path| ==> Joins(g, path[i - 1].vertex, path[i].vertex, path[i].arc))
    && (|path| > 0 ==> path[0].arc == 0)
  }

  // The arcs of the path from position i on, and its vertices.
  function PathArcs(path: seq<Step>): set<nat> {
    set i | 0 < i < |path| :: path[i].arc
  }

  lemma {:induction false} PathLinks(g: Graph, path: seq<Step>, i: nat, j: nat)
    requires PathOk(g, path) && i <= j < |path|
    ensures Linked(g, OnPath(path[i..]), PathArcs(path), path[i].vertex, path[j].vertex)
    decreases j - i
  {
    var vs, ps := OnPath(path[i..]), PathArcs(path);
    if i == j {
      LinkedSelf(g, vs, ps, path[i].vertex);
    } else {
      PathLinks(g, path, i, j - 1);
      assert path[i..][j - 1 - i] == path[j - 1] && path[i..][j - i] == path[j];
      LinkedArc(g, vs, ps, path[j - 1].vertex, path[j].vertex, path[j].arc);
      LinkedTrans(g, vs, ps, path[i].vertex, path[j - 1].vertex, path[j].vertex);
    }
  }

  // Any two vertices of the path are linked along it.
  lemma PathJoins(g: Graph, path: seq<Step>, a: nat, b: nat)
    requires PathOk(g, path) && a in OnPath(path) && b in OnPath(path)
    ensures Linked(g, OnPath(path), PathArcs(path), a, b)
  {
    var i :| 0 <= i < |path| && path[i].vertex == a;
    var j :| 0 <= j < |path| && path[j].vertex == b;
    var lo, hi := if i <= j then i else j, if i <= j then j else i;
    PathLinks(g, path, lo, hi);
    assert forall k :: 0 <= k < |path[lo..]| ==> path[lo..][k] == path[lo + k];
    LinkedMore(g, OnPath(path[lo..]), PathArcs(path), OnPath(path), PathArcs(path), path[lo].vertex, path[hi].vertex);
    if j < i {
      LinkedSym(g, OnPath(path), PathArcs(path), path[lo].vertex, path[hi].vertex);
    }
  }

  lemma PathArcEnds(g: Graph, path: seq<Step>, p: nat)
    requires PathOk(g, path) && p in PathArcs(path)
    ensures exists a, b :: a in OnPath(path) && b in OnPath(path) && Joins(g, a, b, p)
  {
    var i :| 0 < i < |path| && path[i].arc == p;
    assert path[i - 1].vertex in OnPath(path) && path[i].vertex in OnPath(path);
  }

  // ---- the search state, as values

  // `order` lists the discovered vertices by discovery time.
  datatype Times = Times(discovered: seq<int>, order: seq<nat>)

  ghost predicate TimesOk(g: Graph, t: Times) {
    && |t.discovered| == g.n
    && (forall i :: 0 <= i < |t.order| ==> t.order[i] < g.n && t.discovered[t.order[i]] == i)
    && (forall v :: 0 <= v < g.n && t.discovered[v] != -1 ==>
          0 <= t.discovered[v] < |t.order| && t.order[t.discovered[v]] == v)
  }

  function Found(t: Times): set<nat> {
    set v | v in t.order
  }

  // What was discovered since time `from`.
  function Since(t: Times, from: nat): set<nat>
    requires from <= |t.order|
  {
    set v | v in t.order[from..]
  }

  function Disc(t: Times, v: nat): int {
    if v < |t.discovered| then t.discovered[v] else -1
  }

  ghost predicate PathTimes(g: Graph, t: Times, path: seq<Step>) {
    && TimesOk(g, t) && PathOk(g, path)
    && (forall i :: 0 <= i < |path| ==> path[i].vertex in Found(t))
    && (forall i, j :: 0 <= i < j < |path| ==> Disc(t, path[i].vertex) < Disc(t, path[j].vertex))
  }

  // Whatever is finished has no undiscovered neighbour.
  ghost predicate Settled(g: Graph, t: Times, path: seq<Step>) {
    forall v: nat, w: nat, p: nat :: v in Found(t) && v !in OnPath(path) && Joins(g, v, w, p) ==> w in Found(t)
  }

  // The neighbours of the subtree lie in it or on the path.
  ghost predicate Enclosed(g: Graph, subtree: set<nat>, path: seq<Step>) {
    forall x: nat, w: nat, p: nat :: x in subtree && Joins(g, x, w, p) ==> w in subtree || w in OnPath(path)
  }

  // The subtree hangs together from its root by tree arcs of its own.
  ghost predicate Hangs(g: Graph, subtree: set<nat>, tree: set<nat>, root: nat) {
    && root in subtree && subtree <= Vertices(g) && tree <= Pointers(g)
    && (forall x: nat :: x in subtree ==> Linked(g, subtree, tree, root, x))
    && (forall a: nat, b: nat, p: nat :: p in tree && Joins(g, a, b, p) ==> a in subtree && b in subtree)
  }

  // No arc out of the subtree, its entry excepted, leads to a time before low.
  ghost predicate LowBelow(g: Graph, t: Times, subtree: set<nat>, entry: nat, low: int) {
    forall x: nat, w: nat, p: nat :: x in subtree && p != entry && Joins(g, x, w, p) ==> Disc(t, w) >= low
  }

  // Some arc of the subtree, its entry excepted, leads to that time.
  ghost predicate LowReached(g: Graph, t: Times, subtree: set<nat>, entry: nat, low: int) {
    exists x: nat, w: nat, p: nat :: x in subtree && p != entry && Joins(g, x, w, p) && w in Found(t) &&
      Disc(t, w) == low
  }

  // A finished subtree: everything found since time `from`, entered at `root` by the arc
  // `entry` from the end of the path.
  ghost predicate Subtree(g: Graph, t: Times, path: seq<Step>, from: nat, root: nat, entry: nat, tree: set<nat>,
                          low: int) {
    && PathTimes(g, t, path)
    && from < |t.order| && t.order[from] == root
    && (forall i :: 0 <= i < |path| ==> Disc(t, path[i].vertex) < from)
    && Enclosed(g, Since(t, from), path)
    && Hangs(g, Since(t, from), tree, root)
    && LowBelow(g, t, Since(t, from), entry, low)
    && low <= from && (low == from || LowReached(g, t, Since(t, from), entry, low))
  }

  lemma SinceTimes(g: Graph, t: Times, from: nat)
    requires TimesOk(g, t) && from <= |t.order|
    ensures forall v: nat :: v in Since(t, from) <==> v in Found(t) && Disc(t, v) >= from
  {
    forall v: nat | v in Found(t) && Disc(t, v) >= from ensures v in Since(t, from) {
      assert t.order[from..][Disc(t, v) - from] == v;
    }
    forall v: nat | v in Since(t, from) ensures Disc(t, v) >= from {
      var i :| 0 <= i < |t.order[from..]| && t.order[from..][i] == v;
      assert t.order[from + i] == v;
    }
  }

  lemma PathOff(g: Graph, t: Times, path: seq<Step>, from: nat)
    requires PathTimes(g, t, path) && from <= |t.order| && forall i :: 0 <= i < |path| ==>
             Disc(t, path[i].vertex) < from
    ensures OnPath(path) !! Since(t, from) && OnPath(path) <= Vertices(g)
  {
    SinceTimes(g, t, from);
  }

  // The arcs of the path join vertices of the path, so the entry of a subtree is none of them.
  lemma EntryApart(g: Graph, t: Times, path: seq<Step>, from: nat, root: nat, entry: nat, tree: set<nat>, low: int)
    requires GraphOk(g) && Subtree(g, t, path, from, root, entry, tree, low) && path != []
    requires Joins(g, path[|path| - 1].vertex, root, entry)
    ensures entry !in PathArcs(path) && entry !in tree
    ensures PathArcs(path) <= Pointers(g) && root !in OnPath(path)
  {
    PathOff(g, t, path, from);
    var last := path[|path| - 1].vertex;
    assert last in OnPath(path);
    if entry in PathArcs(path) {
      PathArcEnds(g, path, entry);
      var a, b :| a in OnPath(path) && b in OnPath(path) && Joins(g, a, b, entry);
      JoinsOnce(g, last, root, a, b, entry);
    }
    forall p | p in PathArcs(path) ensures p in Pointers(g) {
      PathArcEnds(g, path, p);
      var a, b :| a in OnPath(path) && b in OnPath(path) && Joins(g, a, b, p);
      JoinsIn(g, a, b, p);
    }
  }

  // Without its entry, a subtree whose low link reaches the path is linked to it.
  lemma Returns(g: Graph, t: Times, path: seq<Step>, from: nat, root: nat, entry: nat, tree: set<nat>, low: int)
    returns (w: nat)
    requires GraphOk(g) && Subtree(g, t, path, from, root, entry, tree, low) && path != [] && low < from
    requires Joins(g, path[|path| - 1].vertex, root, entry)
    ensures w in OnPath(path) && Disc(t, w) == low
    ensures Linked(g, Since(t, from) + {w}, Pointers(g) - {entry}, root, w)
  {
    var x: nat, w': nat, p: nat :| x in Since(t, from) && p != entry && Joins(g, x, w', p) && w' in Found(t) &&
      Disc(t, w') == low;
    w := w';
    SinceTimes(g, t, from);
    PathOff(g, t, path, from);
    EntryApart(g, t, path, from, root, entry, tree, low);
    JoinsIn(g, x, w, p);
    var vs, ps := Since(t, from) + {w}, Pointers(g) - {entry};
    LinkedMore(g, Since(t, from), tree, vs, ps, root, x);
    LinkedArc(g, vs, ps, x, w, p);
    LinkedTrans(g, vs, ps, root, x, w);
  }

  lemma PathBelow(g: Graph, t: Times, path: seq<Step>)
    requires PathTimes(g, t, path) && path != []
    ensures forall w: nat :: w in OnPath(path) ==> Disc(t, w) <= Disc(t, path[|path| - 1].vertex)
    ensures forall w: nat :: w in OnPath(path) && w != path[|path| - 1].vertex ==>
            Disc(t, w) < Disc(t, path[|path| - 1].vertex)
  {
  }

  // The entry is a bridge exactly when the low link stays above the vertex entered from.
  lemma EntryBridge(g: Graph, t: Times, path: seq<Step>, from: nat, root: nat, entry: nat, tree: set<nat>, low: int)
    requires GraphOk(g) && Subtree(g, t, path, from, root, entry, tree, low) && path != []
    requires Joins(g, path[|path| - 1].vertex, root, entry)
    ensures Bridge(g, entry) <==> low > Disc(t, path[|path| - 1].vertex)
  {
    hide Linked, Hangs;
    var node := path[|path| - 1].vertex;
    var subtree, ps := Since(t, from), Pointers(g) - {entry};
    JoinsSym(g, node, root, entry);
    BridgeExact(g, entry, root, node);
    PathOff(g, t, path, from);
    SinceTimes(g, t, from);
    assert node in OnPath(path);
    if low > Disc(t, node) {
      PathBelow(g, t, path);
      Separates(g, Vertices(g), ps, subtree, root, node);
    } else {
      EntryApart(g, t, path, from, root, entry, tree, low);
      var w := Returns(g, t, path, from, root, entry, tree, low);
      SubtreeIn(g, t, path, from, root, entry, tree, low);
      LinkedMore(g, subtree + {w}, ps, Vertices(g), ps, root, w);
      PathJoins(g, path, w, node);
      LinkedMore(g, OnPath(path), PathArcs(path), Vertices(g), ps, w, node);
      LinkedTrans(g, Vertices(g), ps, root, w, node);
    }
  }

  lemma SubtreeIn(g: Graph, t: Times, path: seq<Step>, from: nat, root: nat, entry: nat, tree: set<nat>, low: int)
    requires Subtree(g, t, path, from, root, entry, tree, low)
    ensures Since(t, from) <= Vertices(g) && root in Since(t, from) && tree <= Pointers(g)
  {
  }

  lemma Separates(g: Graph, vs: set<nat>, ps: set<nat>, side: set<nat>, inside: nat, outside: nat)
    requires Closed(g, vs, ps, side) && inside in side && outside !in side
    ensures !Linked(g, vs, ps, inside, outside)
  {
  }

  // Within the subtree, everything is linked to its root without what lies outside.
  lemma WithinSubtree(g: Graph, subtree: set<nat>, tree: set<nat>, root: nat, y: nat, vs: set<nat>)
    requires Hangs(g, subtree, tree, root) && y in subtree && subtree <= vs
    ensures Linked(g, vs, Pointers(g), y, root) && Linked(g, vs, Pointers(g), root, y)
  {
    LinkedMore(g, subtree, tree, vs, Pointers(g), root, y);
    LinkedSym(g, vs, Pointers(g), root, y);
  }

  // A subtree that returns above `node` stays linked to the path above without `node`.
  lemma Bypasses(g: Graph, t: Times, above: seq<Step>, last: Step, from: nat, root: nat, entry: nat, tree: set<nat>,
                 low: int)
    requires GraphOk(g) && Subtree(g, t, above + [last], from, root, entry, tree, low) && above != []
    requires Joins(g, last.vertex, root, entry) && low < Disc(t, last.vertex)
    ensures forall y: nat :: y in Since(t, from) ==>
              Linked(g, Vertices(g) - {last.vertex}, Pointers(g), y, above[|above| - 1].vertex)
  {
    hide Linked, Hangs;
    var path, node, top := above + [last], last.vertex, above[|above| - 1].vertex;
    var vs, ps := Vertices(g) - {node}, Pointers(g);
    PathOff(g, t, path, from);
    assert node in OnPath(path) && node !in Since(t, from) by {
      assert path[|above|].vertex == node;
    }
    var w := Returns(g, t, path, from, root, entry, tree, low);
    PathPrefix(g, t, above, last);
    assert w in OnPath(above);
    SubtreeIn(g, t, path, from, root, entry, tree, low);
    EntryApart(g, t, path, from, root, entry, tree, low);
    LinkedMore(g, Since(t, from) + {w}, ps - {entry}, vs, ps, root, w);
    PathJoins(g, above, w, top);
    LinkedMore(g, OnPath(above), PathArcs(above), vs, ps, w, top);
    LinkedTrans(g, vs, ps, root, w, top);
    forall y: nat | y in Since(t, from) ensures Linked(g, vs, ps, y, top) {
      WithinSubtree(g, Since(t, from), tree, root, y, vs);
      LinkedTrans(g, vs, ps, y, root, top);
    }
  }

  lemma PathPrefix(g: Graph, t: Times, above: seq<Step>, last: Step)
    requires PathTimes(g, t, above + [last]) && above != []
    ensures PathOk(g, above) && OnPath(above + [last]) == OnPath(above) + {last.vertex} && last.vertex !in OnPath(above)
    ensures PathArcs(above) <= PathArcs(above + [last]) && above[|above| - 1].vertex in OnPath(above)
    ensures Joins(g, above[|above| - 1].vertex, last.vertex, last.arc)
  {
    var path := above + [last];
    assert path[|above|] == last;
    assert forall i :: 0 <= i < |above| ==> path[i] == above[i];
    forall i | 0 < i < |above| ensures Joins(g, above[i - 1].vertex, above[i].vertex, above[i].arc) {
      assert Joins(g, path[i - 1].vertex, path[i].vertex, path[i].arc);
    }
    forall p | p in PathArcs(above) ensures p in PathArcs(path) {
      var i :| 0 < i < |above| && above[i].arc == p;
      assert path[i].arc == p;
    }
  }

  // A subtree that does not return above `node` is cut off by it.
  lemma CutsOff(g: Graph, t: Times, path: seq<Step>, from: nat, root: nat, entry: nat, tree: set<nat>, low: int,
                other: nat)
    requires GraphOk(g) && Subtree(g, t, path, from, root, entry, tree, low) && path != []
    requires Joins(g, path[|path| - 1].vertex, root, entry) && low >= Disc(t, path[|path| - 1].vertex)
    requires other in Vertices(g) && other !in Since(t, from) && other != path[|path| - 1].vertex
    requires Linked(g, Vertices(g), Pointers(g), path[|path| - 1].vertex, other)
    ensures Cut(g, path[|path| - 1].vertex)
  {
    hide Linked, Hangs;
    var node := path[|path| - 1].vertex;
    PathOff(g, t, path, from);
    SinceTimes(g, t, from);
    assert node in OnPath(path);
    forall x: nat, y: nat, p: nat | x in Since(t, from) && Joins(g, x, y, p) ensures y in Since(t, from) || y == node {
      if y !in Since(t, from) {
        if p == entry {
          JoinsOnce(g, node, root, x, y, p);
        } else {
          var i :| 0 <= i < |path| && path[i].vertex == y;
          assert Disc(t, y) >= low;
        }
      }
    }
    SubtreeIn(g, t, path, from, root, entry, tree, low);
    JoinsIn(g, node, root, entry);
    JoinsSym(g, node, root, entry);
    LinkedArc(g, Vertices(g), Pointers(g), root, node, entry);
    LinkedTrans(g, Vertices(g), Pointers(g), root, node, other);
    SideCuts(g, node, Since(t, from), root, other);
  }

  // ---- growing a subtree by a finished child

  lemma HangsGrows(g: Graph, a: set<nat>, treeA: set<nat>, rootA: nat, b: set<nat>, treeB: set<nat>, rootB: nat, p: nat)
    requires GraphOk(g) && Hangs(g, a, treeA, rootA) && Hangs(g, b, treeB, rootB) && Joins(g, rootA, rootB, p)
    ensures Hangs(g, a + b, treeA + treeB + {p}, rootA)
  {
    var vs, ps := a + b, treeA + treeB + {p};
    JoinsIn(g, rootA, rootB, p);
    LinkedArc(g, vs, ps, rootA, rootB, p);
    forall x: nat | x in vs ensures Linked(g, vs, ps, rootA, x) {
      if x in a {
        LinkedMore(g, a, treeA, vs, ps, rootA, x);
      } else {
        LinkedMore(g, b, treeB, vs, ps, rootB, x);
        LinkedTrans(g, vs, ps, rootA, rootB, x);
      }
    }
    forall x: nat, y: nat, q: nat | q in ps && Joins(g, x, y, q) ensures x in vs && y in vs {
      if q == p {
        JoinsOnce(g, rootA, rootB, x, y, p);
      }
    }
  }

  lemma HangsAlone(g: Graph, v: nat)
    requires v < g.n
    ensures Hangs(g, {v}, {}, v)
  {
    LinkedSelf(g, {v}, {}, v);
  }

  // ---- what the search of a vertex keeps true while it goes through its arcs

  // Nothing but bridges and cut vertices is reported.
  ghost predicate Sound(g: Graph, articulation: set<nat>, bridges: set<nat>) {
    (forall v: nat :: v in articulation ==> Cut(g, v)) && (forall p: nat :: p in bridges ==> Bridge(g, p))
  }

  // Every cut vertex of the set, and every bridge at it but the entry, is reported.
  ghost predicate Complete(g: Graph, vs: set<nat>, entry: nat, articulation: set<nat>, bridges: set<nat>) {
    && (forall v: nat :: v in vs && Cut(g, v) ==> v in articulation)
    && (forall v: nat, w: nat, p: nat :: v in vs && p != entry && Joins(g, v, w, p) && Bridge(g, p) ==> p in bridges)
  }

  // The first `upTo` links lead to discovered vertices no earlier than low, and those of
  // them that are bridges are reported.
  ghost predicate LinksDone(g: Graph, t: Times, links: seq<Link>, upTo: nat, entry: nat, low: int, bridges: set<nat>)
    requires upTo <= |links|
  {
    forall k :: 0 <= k < upTo ==>
      links[k].to in Found(t) &&
      (links[k].pointer != entry ==>
        Disc(t, links[k].to) >= low && (Bridge(g, links[k].pointer) ==> links[k].pointer in bridges))
  }

  // No vertex of the subtree but its root needs the root to stay linked to the hub.
  ghost predicate Bypassed(g: Graph, subtree: set<nat>, node: nat, hub: nat) {
    forall y: nat :: y in subtree && y != node ==> Linked(g, Vertices(g) - {node}, Pointers(g), y, hub)
  }

  // What is known of the vertex itself: reported, or bypassed so far. `first` is the first
  // child of a root.
  ghost predicate Verdict(g: Graph, path: seq<Step>, subtree: set<nat>, node: nat, children: nat, first: nat,
                          articulation: set<nat>) {
    && (children == 0 ==> subtree == {node})
    && (children >= 1 ==>
          first in subtree && first != node && (path == [] ==> children >= 2 || Bypassed(g, subtree, node, first)))
    && (node !in articulation ==>
          if path == [] then children <= 1 else Bypassed(g, subtree, node, path[|path| - 1].vertex))
  }

  // An undiscovered arc's other end, seen from the subtree: in it or on the path.
  lemma Surrounded(g: Graph, before: Times, t: Times, path: seq<Step>, x: nat, w: nat, p: nat)
    requires Settled(g, before, path) && before.order <= t.order && TimesOk(g, t) && TimesOk(g, before)
    requires x in Since(t, |before.order|) && Joins(g, x, w, p) && w in Found(t)
    ensures w in Since(t, |before.order|) || w in OnPath(path)
  {
    SinceTimes(g, t, |before.order|);
    Older(g, before, t);
    JoinsSym(g, x, w, p);
  }

  lemma Older(g: Graph, before: Times, t: Times)
    requires before.order <= t.order && TimesOk(g, t)
    ensures forall v: nat :: v in Found(before) <==> v in Found(t) && Disc(t, v) < |before.order|
  {
    forall v: nat | v in Found(before) ensures v in Found(t) && Disc(t, v) < |before.order| {
      var j :| 0 <= j < |before.order| && before.order[j] == v;
      assert t.order[j] == v;
    }
    forall v: nat | v in Found(t) && Disc(t, v) < |before.order| ensures v in Found(before) {
      assert t.order[Disc(t, v)] == v;
      assert before.order[Disc(t, v)] == v;
    }
  }

  // An arc back into the subtree or up the path is no bridge.
  lemma BackArc(g: Graph, t: Times, path: seq<Step>, node: nat, entry: nat, from: nat, tree: set<nat>, w: nat, p: nat)
    requires GraphOk(g) && PathTimes(g, t, path + [Step(node, entry)]) && from < |t.order| && t.order[from] == node
    requires Hangs(g, Since(t, from), tree, node) && Joins(g, node, w, p) && p != entry
    requires p !in tree || w == node
    requires w in Since(t, from) || w in OnPath(path)
    ensures !Bridge(g, p)
  {
    hide Linked, Hangs;
    var vs, ps := Vertices(g), Pointers(g) - {p};
    BridgeExact(g, p, node, w);
    if w == node {
      LinkedSelf(g, vs, ps, node);
    } else if w in Since(t, from) {
      HangsIn(g, Since(t, from), tree, node);
      HangsLinks(g, Since(t, from), tree, node, w);
      LinkedMore(g, Since(t, from), tree, vs, ps, node, w);
    } else {
      var all := path + [Step(node, entry)];
      assert all[|path|].vertex == node;
      PathPrefix(g, t, path, Step(node, entry));
      PathArcsIn(g, all);
      forall i | 0 < i < |all| ensures all[i].arc != p {
        assert i < |path| ==> all[i - 1].vertex in OnPath(path) && all[i].vertex in OnPath(path) by {
          assert i < |path| ==> path[i - 1] == all[i - 1] && path[i] == all[i];
        }
        if all[i].arc == p {
          JoinsOnce(g, node, w, all[i - 1].vertex, all[i].vertex, p);
        }
      }
      PathJoins(g, all, node, w);
      OnPathIn(g, t, all);
      LinkedMore(g, OnPath(all), PathArcs(all), vs, ps, node, w);
    }
  }

  lemma HangsIn(g: Graph, subtree: set<nat>, tree: set<nat>, root: nat)
    requires Hangs(g, subtree, tree, root)
    ensures subtree <= Vertices(g) && tree <= Pointers(g) && root in subtree
  {
  }

  lemma HangsLinks(g: Graph, subtree: set<nat>, tree: set<nat>, root: nat, x: nat)
    requires Hangs(g, subtree, tree, root) && x in subtree
    ensures Linked(g, subtree, tree, root, x)
  {
  }

  lemma PathArcsIn(g: Graph, path: seq<Step>)
    requires GraphOk(g) && PathOk(g, path)
    ensures PathArcs(path) <= Pointers(g)
  {
    forall p | p in PathArcs(path) ensures p in Pointers(g) {
      var i :| 0 < i < |path| && path[i].arc == p;
      JoinsIn(g, path[i - 1].vertex, path[i].vertex, p);
    }
  }

  lemma OnPathIn(g: Graph, t: Times, path: seq<Step>)
    requires PathTimes(g, t, path)
    ensures OnPath(path) <= Vertices(g)
  {
  }

  // ---- the variables of the search, as one value

  datatype Memory = Memory(
    discovered: seq<int>, low: seq<int>, parent: seq<nat>, order: seq<nat>, articulation: set<nat>, bridges: set<nat>)

  function TimesOf(m: Memory): Times {
    Times(m.discovered, m.order)
  }

  ghost predicate MemoryOk(g: Graph, m: Memory) {
    && TimesOk(g, TimesOf(m)) && |m.low| == g.n && |m.parent| == g.n
    && Sound(g, m.articulation, m.bridges)
  }

  // What was known of other vertices still is.
  ghost predicate Preserves(a: Memory, b: Memory, vs: set<nat>) {
    && a.order <= b.order && a.articulation <= b.articulation && a.bridges <= b.bridges
    && |a.low| == |b.low| && |a.parent| == |b.parent|
    && (forall v :: 0 <= v < |a.low| && v !in vs ==> a.low[v] == b.low[v] && Disc(TimesOf(a), v) == Disc(TimesOf(b), v))
    && (forall v :: 0 <= v < |a.parent| && (v in Found(TimesOf(a)) || v !in Found(TimesOf(b))) ==>
      a.parent[v] == b.parent[v])
  }

  ghost predicate Ready(g: Graph, m: Memory, path: seq<Step>, node: nat, entry: nat) {
    && MemoryOk(g, m) && PathTimes(g, TimesOf(m), path) && Settled(g, TimesOf(m), path)
    && node < g.n && node !in Found(TimesOf(m))
    && m.parent[node] == (if path == [] then g.n else path[|path| - 1].vertex)
    && (if path == [] then entry == 0 else Joins(g, path[|path| - 1].vertex, node, entry))
  }

  // What the search of one vertex has done when it returns.
  ghost predicate Searched(g: Graph, a: Memory, b: Memory, path: seq<Step>, node: nat, entry: nat, tree: set<nat>) {
    var from := |a.order|;
    && MemoryOk(g, b) && from < |b.order| && node < g.n
    && Preserves(a, b, Since(TimesOf(b), from)) && b.parent[node] == a.parent[node]
    && Subtree(g, TimesOf(b), path, from, node, entry, tree, b.low[node])
    && Settled(g, TimesOf(b), path)
    && Complete(g, Since(TimesOf(b), from), entry, b.articulation, b.bridges)
  }

  // And half way through its links.
  ghost predicate Searching(g: Graph, a: Memory, m: Memory, path: seq<Step>, node: nat, entry: nat, tree: set<nat>,
                            links: seq<Link>, k: nat, children: nat, first: nat) {
    var t, from := TimesOf(m), |a.order|;
    && k <= |links|
    && MemoryOk(g, m) && from < |m.order| && m.order[from] == node && node < g.n
    && Preserves(a, m, Since(t, from)) && m.parent[node] == a.parent[node]
    && PathTimes(g, t, path + [Step(node, entry)]) && Settled(g, t, path + [Step(node, entry)])
    && Hangs(g, Since(t, from), tree, node)
    && LinksDone(g, t, links, k, entry, m.low[node], m.bridges)
    && m.low[node] <= from && (m.low[node] == from || LowReached(g, t, Since(t, from), entry, m.low[node]))
    && LowBelow(g, t, Since(t, from) - {node}, entry, m.low[node])
    && Complete(g, Since(t, from) - {node}, entry, m.articulation, m.bridges)
    && Verdict(g, path, Since(t, from), node, children, first, m.articulation)
    && TreeLinks(g, tree, node, links, k)
  }

  // The tree arcs at the vertex are among the links it has gone through.
  ghost predicate TreeLinks(g: Graph, tree: set<nat>, node: nat, links: seq<Link>, k: nat)
    requires k <= |links|
  {
    forall p: nat, w: nat :: p in tree && Joins(g, node, w, p) ==> exists j :: 0 <= j < k && links[j].pointer == p
  }

  function Entered(m: Memory, node: nat): Memory
    requires node < |m.discovered| && node < |m.low|
  {
    m.(discovered := m.discovered[node := |m.order|], low := m.low[node := |m.order|], order := m.order + [node])
  }

  lemma SincePush(t: Times, order: seq<nat>, node: nat, from: nat)
    requires t.order == order + [node] && from == |order|
    ensures Since(t, from) == {node} && Found(t) == Found(Times(t.discovered, order)) + {node}
  {
    assert t.order[from..] == [node];
    forall v | v in order ensures v in t.order {
      var i :| 0 <= i < |order| && order[i] == v;
      assert t.order[i] == v;
    }
    assert t.order[from] == node;
  }

  lemma EnterTimes(g: Graph, m: Memory, path: seq<Step>, node: nat, entry: nat)
    requires GraphOk(g) && Ready(g, m, path, node, entry)
    ensures var t := TimesOf(Entered(m, node));
            TimesOk(g, t) && PathTimes(g, t, path + [Step(node, entry)]) && Settled(g, t, path + [Step(node, entry)])
  {
    hide GraphOk, Joins, Sound, Since;
    var t, before, me := TimesOf(Entered(m, node)), TimesOf(m), path + [Step(node, entry)];
    SincePush(t, m.order, node, |m.order|);
    assert TimesOk(g, t);
    forall i | 0 <= i < |path| ensures Disc(t, path[i].vertex) == Disc(before, path[i].vertex) < |m.order| {
      assert path[i].vertex in Found(before);
    }
    forall i | 0 < i < |me| ensures Joins(g, me[i - 1].vertex, me[i].vertex, me[i].arc) {
      if i < |path| {
        assert Joins(g, path[i - 1].vertex, path[i].vertex, path[i].arc);
      }
    }
    assert me[|path|].vertex == node && node in OnPath(me);
    assert OnPath(path) <= OnPath(me) by {
      forall v | v in OnPath(path) ensures v in OnPath(me) {
        var i :| 0 <= i < |path| && path[i].vertex == v;
        assert me[i].vertex == v;
      }
    }
  }

  lemma Enter(g: Graph, a: Memory, path: seq<Step>, node: nat, entry: nat, links: seq<Link>)
    requires GraphOk(g) && Ready(g, a, path, node, entry)
    ensures Searching(g, a, Entered(a, node), path, node, entry, {}, links, 0, 0, node)
  {
    hide Linked, Settled, PathTimes;
    var m := Entered(a, node);
    EnterTimes(g, a, path, node, entry);
    SincePush(TimesOf(m), a.order, node, |a.order|);
    HangsAlone(g, node);
    NodeFound(g, TimesOf(a), node);
  }

  lemma NodeFound(g: Graph, t: Times, node: nat)
    requires TimesOk(g, t) && node < g.n
    ensures node in Found(t) <==> t.discovered[node] != -1
    ensures node in Found(t) <==> t.discovered[node] >= 0
  {
  }

  // ---- one link

  // The link that is the entry itself leads back up and is passed over.
  lemma PassEntry(g: Graph, a: Memory, m: Memory, path: seq<Step>, node: nat, entry: nat, tree: set<nat>,
                  links: seq<Link>, k: nat, children: nat, first: nat)
    requires GraphOk(g) && Ready(g, a, path, node, entry)
    requires Searching(g, a, m, path, node, entry, tree, links, k, children, first)
    requires k < |links| && links[k].pointer == entry && Joins(g, node, links[k].to, entry)
    ensures Searching(g, a, m, path, node, entry, tree, links, k + 1, children, first)
  {
    hide Linked, Hangs, Settled, Complete, Verdict, LowBelow, LowReached;
    var t, me := TimesOf(m), path + [Step(node, entry)];
    JoinsIn(g, node, links[k].to, entry);
    if path != [] {
      JoinsOnce(g, path[|path| - 1].vertex, node, node, links[k].to, entry);
      assert me[|path| - 1].vertex in Found(t) && me[|path|].vertex in Found(t);
    }
  }

  function Lowered(m: Memory, node: nat, other: int): Memory
    requires node < |m.low|
  {
    m.(low := m.low[node := if other < m.low[node] then other else m.low[node]])
  }

  // A link to a discovered vertex lowers the low link and is no bridge.
  lemma PassBack(g: Graph, a: Memory, m: Memory, path: seq<Step>, node: nat, entry: nat, tree: set<nat>,
                 links: seq<Link>, k: nat, children: nat, first: nat)
    requires GraphOk(g) && Ready(g, a, path, node, entry)
    requires Searching(g, a, m, path, node, entry, tree, links, k, children, first)
    requires k < |links| && links[k].pointer != entry && Joins(g, node, links[k].to, links[k].pointer)
    requires links[k].to in Found(TimesOf(m))
    requires forall j :: 0 <= j < k && links[j].pointer == links[k].pointer ==> links[k].to == node
    ensures Searching(g, a, Lowered(m, node, Disc(TimesOf(m), links[k].to)), path, node, entry, tree, links, k + 1,
            children, first)
  {
    hide GraphOk, Joins, Linked, Hangs, Settled, Complete, Verdict, LowBelow, LowReached, LinksDone, TreeLinks,
         PathTimes, Sound, TimesOk, Found;
    var t, from, w, p := TimesOf(m), |a.order|, links[k].to, links[k].pointer;
    HangsIn(g, Since(t, from), tree, node);
    Surrounded(g, TimesOf(a), t, path, node, w, p);
    TreeLinksNew(g, tree, node, links, k);
    BackArc(g, t, path, node, entry, from, tree, w, p);
    var m' := Lowered(m, node, Disc(t, w));
    assert TimesOf(m') == t;
    LowAfter(g, t, Since(t, from), node, entry, from, m.low[node], w, p);
    LinksLower(g, t, t, links, k, entry, m.low[node], m'.low[node], m.bridges, m.bridges);
  }

  lemma TreeLinksNew(g: Graph, tree: set<nat>, node: nat, links: seq<Link>, k: nat)
    requires k < |links| && TreeLinks(g, tree, node, links, k) && Joins(g, node, links[k].to, links[k].pointer)
    requires forall j :: 0 <= j < k && links[j].pointer == links[k].pointer ==> links[k].to == node
    ensures links[k].pointer !in tree || links[k].to == node
    ensures TreeLinks(g, tree, node, links, k + 1)
  {
    hide Joins;
  }

  lemma LinksLower(g: Graph, t: Times, t': Times, links: seq<Link>, k: nat, entry: nat, low: int, low': int,
                   bridges: set<nat>, bridges': set<nat>)
    requires k < |links| && LinksDone(g, t, links, k, entry, low, bridges) && low' <= low && bridges <= bridges'
    requires forall v: nat :: v in Found(t) ==> v in Found(t') && Disc(t', v) == Disc(t, v)
    requires links[k].to in Found(t') && Disc(t', links[k].to) >= low'
    requires links[k].pointer != entry && Bridge(g, links[k].pointer) ==> links[k].pointer in bridges'
    ensures LinksDone(g, t', links, k + 1, entry, low', bridges')
  {
    hide Bridge, Found, Disc;
  }

  // Taking in one more arc keeps the low link both a bound and reached.
  lemma LowAfter(g: Graph, t: Times, subtree: set<nat>, node: nat, entry: nat, from: nat, low: int, w: nat, p: nat)
    requires node in subtree && p != entry && Joins(g, node, w, p) && w in Found(t)
    requires low <= from && (low == from || LowReached(g, t, subtree, entry, low))
    requires LowBelow(g, t, subtree - {node}, entry, low)
    ensures var low' := if Disc(t, w) < low then Disc(t, w) else low;
            low' <= low && low' <= Disc(t, w) && (low' == from || LowReached(g, t, subtree, entry, low')) &&
            LowBelow(g, t, subtree - {node}, entry, low')
  {
  }

  // ---- a link to an undiscovered vertex

  function Adopted(m: Memory, node: nat, child: nat): Memory
    requires child < |m.parent|
  {
    m.(parent := m.parent[child := node])
  }

  lemma ChildReady(g: Graph, a: Memory, m: Memory, path: seq<Step>, node: nat, entry: nat, tree: set<nat>,
                   links: seq<Link>, k: nat, children: nat, first: nat)
    requires GraphOk(g) && Searching(g, a, m, path, node, entry, tree, links, k, children, first)
    requires k < |links| && Joins(g, node, links[k].to, links[k].pointer)
    requires links[k].to !in Found(TimesOf(m)) && links[k].to < g.n
    ensures Ready(g, Adopted(m, node, links[k].to), path + [Step(node, entry)], links[k].to, links[k].pointer)
  {
    hide Linked, Hangs, Settled, Complete, Verdict, LowBelow, LowReached;
  }

  // The report after a finished child: what is inserted, and why it is right.
  function Reported(m: Memory, path: seq<Step>, node: nat, child: nat, entry: nat, children: nat): Memory
    requires node < |m.low| && child < |m.low|
  {
    m.(articulation :=
         if (if path == [] then children > 1 else m.low[child] >= Disc(TimesOf(m), node)) then m.articulation + {node}
           else m.articulation,
       bridges := if m.low[child] > Disc(TimesOf(m), node) then m.bridges + {entry} else m.bridges)
  }

  lemma ChildLow(g: Graph, t: Times, old': set<nat>, child: set<nat>, node: nat, entry: nat, childEntry: nat,
                 childRoot: nat,
                 from: nat, low: int, childFrom: nat, childLow: int)
    requires GraphOk(g) && Joins(g, node, childRoot, childEntry) && Disc(t, childRoot) == childFrom && childFrom > from
    requires Disc(t, node) == from && node in old' && node !in child && childEntry != entry
    requires low <= from && (low == from || LowReached(g, t, old', entry, low)) &&
             LowBelow(g, t, old' - {node}, entry, low)
    requires LowBelow(g, t, child, childEntry, childLow) && childLow <= childFrom
    requires childLow == childFrom || LowReached(g, t, child, childEntry, childLow)
    requires forall x: nat, w: nat :: x in child && Joins(g, x, w, entry) ==> false
    ensures var low' := if childLow < low then childLow else low;
            low' <= from && (low' == from || LowReached(g, t, old' + child, entry, low')) &&
            LowBelow(g, t, old' + child - {node}, entry, low')
  {
    var low' := if childLow < low then childLow else low;
    if childLow < low {
      var x: nat, w: nat, p: nat :| x in child && p != childEntry && Joins(g, x, w, p) && w in Found(t) &&
        Disc(t, w) == childLow;
      assert p != entry;
      assert x in old' + child;
    } else if low != from {
      var x: nat, w: nat, p: nat :| x in old' && p != entry && Joins(g, x, w, p) && w in Found(t) && Disc(t, w) == low;
      assert x in old' + child;
    }
    forall x: nat, w: nat, p: nat | x in old' + child - {node} && p != entry &&
      Joins(g, x, w, p) ensures Disc(t, w) >= low' {
      if x in child {
        if p == childEntry {
          JoinsOnce(g, node, childRoot, x, w, p);
        }
      } else {
        assert x in old' - {node};
      }
    }
  }

  lemma ChildVerdict(g: Graph, t: Times, path: seq<Step>, node: nat, entry: nat, old': set<nat>, tree: set<nat>,
                     child: nat, p: nat, childFrom: nat, childTree: set<nat>, childLow: int,
                     children: nat, first: nat, articulation: set<nat>)
    requires GraphOk(g) && Verdict(g, path, old', node, children, first, articulation) && Hangs(g, old', tree, node)
    requires Subtree(g, t, path + [Step(node, entry)], childFrom, child, p, childTree, childLow)
    requires Joins(g, node, child, p) && old' !! Since(t, childFrom)
    requires if path == [] then true else Joins(g, path[|path| - 1].vertex, node, entry)
    ensures var cuts := if path == [] then children + 1 > 1 else childLow >= Disc(t, node);
            (cuts ==> Cut(g, node)) &&
            Verdict(g, path, old' + Since(t, childFrom), node, children + 1, if children == 0 then child else first,
                    if cuts then articulation + {node} else articulation)
  {
    hide Linked, Hangs;
    var me, subtree := path + [Step(node, entry)], Since(t, childFrom);
    assert me[|path|].vertex == node && |me| - 1 == |path|;
    SubtreeIn(g, t, me, childFrom, child, p, childTree, childLow);
    HangsIn(g, old', tree, node);
    if path == [] {
      if children >= 1 {
        SinceTimes(g, t, childFrom);
        HangsLinks(g, old', tree, node, first);
        LinkedMore(g, old', tree, Vertices(g), Pointers(g), node, first);
        RootLow(g, t, me, childFrom, child, p, childTree, childLow);
        CutsOff(g, t, me, childFrom, child, p, childTree, childLow, first);
      } else {
        forall y: nat | y in old' + subtree && y != node ensures Linked(g, Vertices(g) - {node}, Pointers(g), y,
          child) {
          WithinSubtree(g, subtree, childTree, child, y, Vertices(g) - {node});
        }
      }
    } else {
      PathPrefix(g, t, path, Step(node, entry));
      var top := path[|path| - 1].vertex;
      if childLow >= Disc(t, node) {
        PathOff(g, t, me, childFrom);
        JoinsSym(g, top, node, entry);
        JoinsIn(g, top, node, entry);
        LinkedArc(g, Vertices(g), Pointers(g), node, top, entry);
        CutsOff(g, t, me, childFrom, child, p, childTree, childLow, top);
      } else {
        Bypasses(g, t, path, Step(node, entry), childFrom, child, p, childTree, childLow);
      }
    }
  }

  // Under a root, no low link goes above it.
  lemma RootLow(g: Graph, t: Times, me: seq<Step>, childFrom: nat, child: nat, p: nat, childTree: set<nat>,
                childLow: int)
    requires GraphOk(g) && |me| == 1 && Subtree(g, t, me, childFrom, child, p, childTree, childLow)
    requires Joins(g, me[0].vertex, child, p)
    ensures childLow >= Disc(t, me[0].vertex)
  {
    hide Linked, Hangs;
    if childLow < childFrom {
      var w := Returns(g, t, me, childFrom, child, p, childTree, childLow);
    }
  }

  // ---- taking in a finished child

  lemma SinceSplit(g: Graph, t: Times, t': Times, from: nat)
    requires TimesOk(g, t') && t.order <= t'.order && from <= |t.order|
    ensures Since(t', from) == Since(t, from) + Since(t', |t.order|)
    ensures Since(t, from) !! Since(t', |t.order|)
  {
    assert t'.order[from..] == t.order[from..] + t'.order[|t.order|..];
    forall v: nat | v in Since(t, from) ensures v !in Since(t', |t.order|) {
      var i :| 0 <= i < |t.order[from..]| && t.order[from..][i] == v;
      assert t'.order[from + i] == v;
      SinceTimes(g, t', |t.order|);
    }
  }

  // What was known of a discovered vertex when its child was entered.
  lemma Remembered(g: Graph, m: Memory, m': Memory)
    requires TimesOk(g, TimesOf(m)) && TimesOk(g, TimesOf(m')) && |m.low| == g.n
    requires m.order <= m'.order && Preserves(m, m', Since(TimesOf(m'), |m.order|))
    ensures forall v: nat :: v in Found(TimesOf(m)) ==>
              v in Found(TimesOf(m')) && Disc(TimesOf(m'), v) == Disc(TimesOf(m), v) &&
                v !in Since(TimesOf(m'), |m.order|)
  {
    var t, t' := TimesOf(m), TimesOf(m');
    SinceTimes(g, t', |m.order|);
    Older(g, t, t');
  }

  lemma LowMoves(g: Graph, t: Times, t': Times, subtree: set<nat>, node: nat, entry: nat, low: int, me: seq<Step>)
    requires forall v: nat :: v in Found(t) ==> v in Found(t') && Disc(t', v) == Disc(t, v)
    requires Settled(g, t, me) && subtree - {node} <= Found(t) && (subtree - {node}) !! OnPath(me)
    requires LowBelow(g, t, subtree - {node}, entry, low)
    ensures LowBelow(g, t', subtree - {node}, entry, low)
    ensures LowReached(g, t, subtree, entry, low) ==> LowReached(g, t', subtree, entry, low)
  {
    hide Joins, Found, Disc, OnPath;
  }

  lemma PreservesOn(a: Memory, m: Memory, m': Memory, from: nat, node: nat, child: nat, g: Graph)
    requires from == |a.order| && a.order <= m.order && m.order <= m'.order && from < |m.order|
    requires TimesOk(g, TimesOf(m')) && TimesOk(g, TimesOf(m)) && TimesOk(g, TimesOf(a)) && |a.low| == |a.parent| == g.n
    requires Preserves(a, m, Since(TimesOf(m), from)) && node < g.n && child < g.n && child !in Found(TimesOf(m))
    requires Preserves(Adopted(m, node, child), m', Since(TimesOf(m'), |m.order|)) && node in Found(TimesOf(m))
    requires child in Found(TimesOf(m'))
    ensures Preserves(a, m', Since(TimesOf(m'), from))
    ensures m'.parent[node] == m.parent[node] && m'.low[node] == m.low[node]
  {
    var m1 := Adopted(m, node, child);
    SinceSplit(g, TimesOf(m), TimesOf(m'), from);
    Older(g, TimesOf(a), TimesOf(m));
    Remembered(g, m1, m');
    assert Found(TimesOf(m1)) == Found(TimesOf(m));
  }

  // The entry of the vertex touches nothing below it.
  lemma EntryAbove(g: Graph, path: seq<Step>, node: nat, entry: nat, child: set<nat>)
    requires GraphOk(g) && node !in child && child !! OnPath(path)
    requires if path == [] then entry == 0 else Joins(g, path[|path| - 1].vertex, node, entry)
    ensures forall x: nat, w: nat :: x in child && Joins(g, x, w, entry) ==> false
  {
    assert path != [] ==> path[|path| - 1].vertex in OnPath(path);
    forall x: nat, w: nat | x in child && Joins(g, x, w, entry) ensures false {
      JoinsIn(g, x, w, entry);
      if path != [] {
        JoinsOnce(g, path[|path| - 1].vertex, node, x, w, entry);
      }
    }
  }

  lemma CompleteGrows(g: Graph, rest: set<nat>, child: set<nat>, entry: nat, p: nat, articulation: set<nat>,
                      bridges: set<nat>,
                      articulation': set<nat>, bridges': set<nat>)
    requires Complete(g, rest, entry, articulation, bridges) && Complete(g, child, p, articulation', bridges')
    requires articulation <= articulation' && bridges <= bridges' && (Bridge(g, p) ==> p in bridges')
    ensures Complete(g, rest + child, entry, articulation', bridges')
  {
    hide Bridge, Cut, Joins;
  }

  lemma CompleteMore(g: Graph, vs: set<nat>, entry: nat, articulation: set<nat>, bridges: set<nat>,
                     articulation': set<nat>, bridges': set<nat>)
    requires Complete(g, vs, entry, articulation, bridges) && articulation <= articulation' && bridges <= bridges'
    ensures Complete(g, vs, entry, articulation', bridges')
  {
    hide Bridge, Cut, Joins;
  }

  lemma TreeLinksGrow(g: Graph, tree: set<nat>, node: nat, links: seq<Link>, k: nat, child: set<nat>,
                      childTree: set<nat>, root: nat)
    requires k < |links| && TreeLinks(g, tree, node, links, k) && Hangs(g, child, childTree, root) && node !in child
    ensures TreeLinks(g, tree + childTree + {links[k].pointer}, node, links, k + 1)
  {
    hide Joins, Linked;
  }

  // What the child's search leaves of the vertex's own: all of it, one subtree further.
  ghost predicate ChildDone(g: Graph, m: Memory, m2: Memory, me: seq<Step>, child: nat, p: nat, node: nat,
                            childTree: set<nat>) {
    && child < g.n && |m.parent| == g.n && |m.low| == g.n && child !in Found(TimesOf(m))
    && Searched(g, Adopted(m, node, child), m2, me, child, p, childTree)
  }

  lemma ChildTimes(g: Graph, a: Memory, m: Memory, m2: Memory, path: seq<Step>, node: nat, entry: nat, tree: set<nat>,
                   links: seq<Link>, k: nat, children: nat, first: nat, child: nat, p: nat, childTree: set<nat>)
    requires GraphOk(g) && Ready(g, a, path, node, entry)
    requires Searching(g, a, m, path, node, entry, tree, links, k, children, first)
    requires ChildDone(g, m, m2, path + [Step(node, entry)], child, p, node, childTree)
    ensures var t, t2, from, childFrom := TimesOf(m), TimesOf(m2), |a.order|, |m.order|;
            && childFrom < |m2.order| && m.order <= m2.order
            && Preserves(a, m2, Since(t2, from)) && m2.parent[node] == m.parent[node] && m2.low[node] == m.low[node]
            && Since(t2, from) == Since(t, from) + Since(t2, childFrom) && Since(t, from) !! Since(t2, childFrom)
            && (forall v: nat :: v in Found(t) ==>
                  v in Found(t2) && Disc(t2, v) == Disc(t, v) && v !in Since(t2, childFrom))
            && Disc(t2, node) == from && node in Since(t, from) && Since(t, from) <= Found(t)
            && child in Found(t2) && Disc(t2, child) == childFrom
  {
    hide GraphOk, Joins, Linked, Hangs, Settled, Complete, Verdict, LowBelow, LowReached, LinksDone, TreeLinks,
         PathTimes, Sound, Since, TimesOk, Found,
      Enclosed, Disc, Preserves;
    var m1 := Adopted(m, node, child);
    InOrder(g, TimesOf(m), |a.order|);
    InOrder(g, TimesOf(m2), |m.order|);
    PreservesOrder(a, m, Since(TimesOf(m), |a.order|));
    PreservesOrder(m1, m2, Since(TimesOf(m2), |m.order|));
    assert TimesOf(m1) == TimesOf(m);
    Remembered(g, m1, m2);
    SinceSplit(g, TimesOf(m), TimesOf(m2), |a.order|);
    PreservesOn(a, m, m2, |a.order|, node, child, g);
  }

  lemma PreservesOrder(a: Memory, b: Memory, vs: set<nat>)
    requires Preserves(a, b, vs)
    ensures a.order <= b.order && a.articulation <= b.articulation && a.bridges <= b.bridges
  {
  }

  lemma InOrder(g: Graph, t: Times, i: nat)
    requires TimesOk(g, t) && i < |t.order|
    ensures t.order[i] in Found(t) && Disc(t, t.order[i]) == i && t.order[i] in Since(t, i) && Since(t, i) <= Found(t)
  {
    assert t.order[i..][0] == t.order[i];
  }

  // The memory once the child has been taken in.
  function TakenIn(m2: Memory, path: seq<Step>, node: nat, child: nat, p: nat, children: nat): Memory
    requires node < |m2.low| && child < |m2.low|
  {
    Reported(Lowered(m2, node, m2.low[child]), path, node, child, p, children + 1)
  }

  lemma TakenBounds(g: Graph, a: Memory, m: Memory, m2: Memory, path: seq<Step>, node: nat, entry: nat, tree: set<nat>,
                    links: seq<Link>, k: nat, children: nat, first: nat, child: nat, p: nat, childTree: set<nat>)
    requires GraphOk(g) && Ready(g, a, path, node, entry)
    requires Searching(g, a, m, path, node, entry, tree, links, k, children, first)
    requires ChildDone(g, m, m2, path + [Step(node, entry)], child, p, node, childTree)
    requires Joins(g, node, child, p) && p != entry
    ensures var t, low := TimesOf(m2), if m2.low[child] < m2.low[node] then m2.low[child] else m2.low[node];
            && low <= |a.order| && (low == |a.order| || LowReached(g, t, Since(t, |a.order|), entry, low))
            && LowBelow(g, t, Since(t, |a.order|) - {node}, entry, low)
  {
    hide GraphOk, Joins, Linked, Hangs, Settled, Complete, Verdict, LowBelow, LowReached, LinksDone, TreeLinks,
         PathTimes, Sound, Since, TimesOk, Found,
      Enclosed, Disc, Preserves;
    ChildTimes(g, a, m, m2, path, node, entry, tree, links, k, children, first, child, p, childTree);
    var t, t2, me := TimesOf(m), TimesOf(m2), path + [Step(node, entry)];
    var mine, theirs := Since(t, |a.order|), Since(t2, |m.order|);
    PathFacts(g, t2, path, node, entry);
    PathOff(g, t2, me, |m.order|);
    SinceOff(g, t, me, |a.order|, node);
    LowMoves(g, t, t2, mine, node, entry, m.low[node], me);
    EntryAbove(g, path, node, entry, theirs);
    ChildLow(g, t2, mine, theirs, node, entry, p, child, |a.order|, m.low[node], |m.order|, m2.low[child]);
    assert mine + theirs - {node} == Since(t2, |a.order|) - {node};
  }

  // The path ends in the vertex itself.
  lemma PathFacts(g: Graph, t: Times, path: seq<Step>, node: nat, entry: nat)
    requires PathTimes(g, t, path + [Step(node, entry)])
    ensures OnPath(path) <= OnPath(path + [Step(node, entry)]) && node in OnPath(path + [Step(node, entry)])
    ensures (path + [Step(node, entry)])[|path|].vertex == node
  {
    var me := path + [Step(node, entry)];
    assert me[|path|].vertex == node;
    forall v | v in OnPath(path) ensures v in OnPath(me) {
      var i :| 0 <= i < |path| && path[i].vertex == v;
      assert me[i].vertex == v;
    }
  }

  // What was found after the vertex is off its path.
  lemma SinceOff(g: Graph, t: Times, me: seq<Step>, from: nat, node: nat)
    requires PathTimes(g, t, me) && me != [] && me[|me| - 1].vertex == node && from < |t.order| && t.order[from] == node
    ensures (Since(t, from) - {node}) !! OnPath(me)
  {
    SinceTimes(g, t, from);
    PathBelow(g, t, me);
  }

  lemma TakenLinks(g: Graph, a: Memory, m: Memory, m2: Memory, path: seq<Step>, node: nat, entry: nat, tree: set<nat>,
                   links: seq<Link>, k: nat, children: nat, first: nat, childTree: set<nat>)
    requires GraphOk(g) && Ready(g, a, path, node, entry)
    requires Searching(g, a, m, path, node, entry, tree, links, k, children, first)
    requires k < |links| && links[k].pointer != entry && Joins(g, node, links[k].to, links[k].pointer)
    requires ChildDone(g, m, m2, path + [Step(node, entry)], links[k].to, links[k].pointer, node, childTree)
    ensures var m4 := TakenIn(m2, path, node, links[k].to, links[k].pointer, children);
            && LinksDone(g, TimesOf(m4), links, k + 1, entry, m4.low[node], m4.bridges)
            && Complete(g, Since(TimesOf(m4), |a.order|) - {node}, entry, m4.articulation, m4.bridges)
            && (Bridge(g, links[k].pointer) <==> m2.low[links[k].to] > Disc(TimesOf(m2), node))
  {
    hide GraphOk, Joins, Linked, Hangs, Settled, Complete, Verdict, LowBelow, LowReached, LinksDone, TreeLinks,
         PathTimes, Sound, Since, TimesOk, Found,
      Enclosed, Disc, Preserves, Bridge;
    var child, p := links[k].to, links[k].pointer;
    ChildTimes(g, a, m, m2, path, node, entry, tree, links, k, children, first, child, p, childTree);
    var t, t2, me := TimesOf(m), TimesOf(m2), path + [Step(node, entry)];
    var m4 := TakenIn(m2, path, node, child, p, children);
    assert TimesOf(m4) == t2;
    PathFacts(g, t2, path, node, entry);
    PreservesOrder(Adopted(m, node, child), m2, Since(t2, |m.order|));
    EntryBridge(g, t2, me, |m.order|, child, p, childTree, m2.low[child]);
    LinksLower(g, t, t2, links, k, entry, m.low[node], m4.low[node], m.bridges, m4.bridges);
    var mine, theirs := Since(t, |a.order|), Since(t2, |m.order|);
    CompleteMore(g, theirs, p, m2.articulation, m2.bridges, m4.articulation, m4.bridges);
    CompleteGrows(g, mine - {node}, theirs, entry, p, m.articulation, m.bridges, m4.articulation, m4.bridges);
    assert mine - {node} + theirs == Since(t2, |a.order|) - {node};
  }

  // A finished child leaves the search of the vertex one link further.
  lemma TakeIn(g: Graph, a: Memory, m: Memory, m2: Memory, path: seq<Step>, node: nat, entry: nat, tree: set<nat>,
               links: seq<Link>, k: nat, children: nat, first: nat, childTree: set<nat>)
    requires GraphOk(g) && Ready(g, a, path, node, entry)
    requires Searching(g, a, m, path, node, entry, tree, links, k, children, first)
    requires k < |links| && links[k].pointer != entry && Joins(g, node, links[k].to, links[k].pointer)
    requires ChildDone(g, m, m2, path + [Step(node, entry)], links[k].to, links[k].pointer, node, childTree)
    ensures Searching(g, a, TakenIn(m2, path, node, links[k].to, links[k].pointer, children), path, node, entry,
                      tree + childTree + {links[k].pointer}, links, k + 1, children + 1, if children == 0
                        then links[k].to else first)
  {
    hide GraphOk, Joins, Linked, Hangs, Settled, Complete, Verdict, LowBelow, LowReached, LinksDone, TreeLinks,
         PathTimes, Sound, Since, TimesOk, Found,
      Enclosed, Disc, Preserves, Bridge, Cut;
    var child, p := links[k].to, links[k].pointer;
    var t, t2, me := TimesOf(m), TimesOf(m2), path + [Step(node, entry)];
    var m4 := TakenIn(m2, path, node, child, p, children);
    assert TimesOf(m4) == t2;
    ChildTimes(g, a, m, m2, path, node, entry, tree, links, k, children, first, child, p, childTree);
    TakenBounds(g, a, m, m2, path, node, entry, tree, links, k, children, first, child, p, childTree);
    TakenLinks(g, a, m, m2, path, node, entry, tree, links, k, children, first, childTree);
    var mine, theirs := Since(t, |a.order|), Since(t2, |m.order|);
    HangsGrows(g, mine, tree, node, theirs, childTree, child, p);
    TreeLinksGrow(g, tree, node, links, k, theirs, childTree, child);
    PreservesOrder(Adopted(m, node, child), m2, theirs);
    VerdictMore(g, path, mine, node, children, first, m.articulation, m2.articulation);
    ChildVerdict(g, t2, path, node, entry, mine, tree, child, p, |m.order|, childTree, m2.low[child], children, first,
      m2.articulation);
    SoundMore(g, m2.articulation, m2.bridges, node, p, m4.articulation, m4.bridges);
    PreservesMore(a, m2, m4, Since(t2, |a.order|), node);
  }

  lemma VerdictMore(g: Graph, path: seq<Step>, subtree: set<nat>, node: nat, children: nat, first: nat,
                    articulation: set<nat>, more: set<nat>)
    requires Verdict(g, path, subtree, node, children, first, articulation) && articulation <= more
    ensures Verdict(g, path, subtree, node, children, first, more)
  {
    hide Bypassed;
  }

  lemma SoundMore(g: Graph, articulation: set<nat>, bridges: set<nat>, node: nat, p: nat, articulation': set<nat>,
                  bridges': set<nat>)
    requires Sound(g, articulation, bridges)
    requires articulation' == articulation || (articulation' == articulation + {node} && Cut(g, node))
    requires bridges' == bridges || (bridges' == bridges + {p} && Bridge(g, p))
    ensures Sound(g, articulation', bridges')
  {
    hide Bridge, Cut;
  }

  lemma PreservesMore(a: Memory, b: Memory, c: Memory, vs: set<nat>, node: nat)
    requires Preserves(a, b, vs) && node in vs && node < |b.low|
    requires |c.low| == |b.low| && c == b.(low := b.low[node := c.low[node]], articulation := c.articulation, bridges :=
             c.bridges)
    requires b.articulation <= c.articulation && b.bridges <= c.bridges
    ensures Preserves(a, c, vs)
  {
  }

  // ---- leaving a vertex

  ghost predicate AllLinks(g: Graph, links: seq<Link>, node: nat) {
    forall w: nat, p: nat :: Joins(g, node, w, p) ==> Link(w, p) in links
  }

  // Once all its links are done, nothing undiscovered is next to the subtree.
  lemma FinishSettled(g: Graph, t: Times, path: seq<Step>, node: nat, entry: nat, links: seq<Link>, low: int,
                      bridges: set<nat>)
    requires Settled(g, t, path + [Step(node, entry)]) && PathTimes(g, t, path + [Step(node, entry)])
    requires LinksDone(g, t, links, |links|, entry, low, bridges) && AllLinks(g, links, node)
    ensures Settled(g, t, path)
  {
    hide Joins, Found, Disc, Bridge, PathTimes;
    forall v: nat, w: nat, p: nat | v in Found(t) && v !in OnPath(path) && Joins(g, v, w, p) ensures w in Found(t) {
      if v == node {
        assert Link(w, p) in links;
      }
    }
  }

  lemma FinishEnclosed(g: Graph, a: Times, t: Times, path: seq<Step>)
    requires Settled(g, t, path) && Settled(g, a, path) && a.order <= t.order && TimesOk(g, t) && TimesOk(g, a)
    requires OnPath(path) !! Since(t, |a.order|)
    ensures Enclosed(g, Since(t, |a.order|), path)
  {
    hide Joins, OnPath;
    SinceTimes(g, t, |a.order|);
    forall x: nat, w: nat, p: nat | x in Since(t, |a.order|) && Joins(g, x, w, p)
      ensures w in Since(t, |a.order|) || w in OnPath(path)
    {
      assert w in Found(t);
      Surrounded(g, a, t, path, x, w, p);
    }
  }

  lemma FinishLow(g: Graph, t: Times, subtree: set<nat>, node: nat, entry: nat, links: seq<Link>, low: int,
                  bridges: set<nat>,
                  articulation: set<nat>)
    requires LinksDone(g, t, links, |links|, entry, low, bridges) && AllLinks(g, links, node)
    requires LowBelow(g, t, subtree - {node}, entry, low) && Complete(g, subtree - {node}, entry, articulation, bridges)
    requires Cut(g, node) ==> node in articulation
    ensures LowBelow(g, t, subtree, entry, low) && Complete(g, subtree, entry, articulation, bridges)
  {
    hide Joins, Found, Disc, Bridge, Cut;
    forall w: nat, p: nat | Joins(g, node, w, p) && p != entry ensures Disc(t, w) >= low &&
      (Bridge(g, p) ==> p in bridges) {
      var k :| 0 <= k < |links| && links[k] == Link(w, p);
    }
    forall v: nat, w: nat, p: nat | v in subtree && p != entry && Joins(g, v, w, p) &&
      Bridge(g, p) ensures p in bridges {
      if v != node {
        assert v in subtree - {node};
      }
    }
  }

  // A vertex that was not reported cuts nothing.
  lemma Unreported(g: Graph, t: Times, path: seq<Step>, node: nat, entry: nat, subtree: set<nat>, children: nat,
                   first: nat,
                   articulation: set<nat>)
    requires GraphOk(g) && PathTimes(g, t, path + [Step(node, entry)]) && Enclosed(g, subtree, path) && node in subtree
    requires Verdict(g, path, subtree, node, children, first, articulation) && node !in articulation
    requires subtree <= Vertices(g)
    ensures !Cut(g, node)
  {
    hide Linked, Cut, PathTimes;
    var vs, ps := Vertices(g) - {node}, Pointers(g);
    if path == [] {
      if children == 0 {
        AloneNoCut(g, node);
      } else {
        HubNoCut(g, node, first);
      }
    } else {
      PathPrefix(g, t, path, Step(node, entry));
      var top := path[|path| - 1].vertex;
      JoinsIn(g, top, node, entry);
      PathArcsIn(g, path);
      OnPathFound(g, t, path, node, entry);
      forall y: nat, p: nat | Joins(g, node, y, p) && y != node ensures Linked(g, vs, ps, y, top) {
        if y !in subtree {
          PathJoins(g, path, y, top);
          LinkedMore(g, OnPath(path), PathArcs(path), vs, ps, y, top);
        }
      }
      HubNoCut(g, node, top);
    }
  }

  lemma OnPathFound(g: Graph, t: Times, path: seq<Step>, node: nat, entry: nat)
    requires PathTimes(g, t, path + [Step(node, entry)])
    ensures PathTimes(g, t, path) && OnPath(path) <= Vertices(g)
    ensures forall i :: 0 <= i < |path| ==> Disc(t, path[i].vertex) < Disc(t, node)
  {
    var me := path + [Step(node, entry)];
    assert me[|path|].vertex == node;
    assert forall i :: 0 <= i < |path| ==> me[i] == path[i];
    forall i | 0 < i < |path| ensures Joins(g, path[i - 1].vertex, path[i].vertex, path[i].arc) {
      assert Joins(g, me[i - 1].vertex, me[i].vertex, me[i].arc);
    }
    OnPathIn(g, t, path);
  }

  lemma Finish(g: Graph, a: Memory, m: Memory, path: seq<Step>, node: nat, entry: nat, tree: set<nat>,
               links: seq<Link>, children: nat, first: nat)
    requires GraphOk(g) && Ready(g, a, path, node, entry)
    requires Searching(g, a, m, path, node, entry, tree, links, |links|, children, first) && AllLinks(g, links, node)
    ensures Searched(g, a, m, path, node, entry, tree)
  {
    hide GraphOk, Joins, Linked, Hangs, Settled, Complete, Verdict, LowBelow, LowReached, LinksDone, TreeLinks,
         PathTimes, Sound, Since, TimesOk, Found,
      Enclosed, Disc, Preserves, Bridge, Cut, AllLinks;
    var t, subtree := TimesOf(m), Since(TimesOf(m), |a.order|);
    OnPathFound(g, t, path, node, entry);
    InOrder(g, t, |a.order|);
    PathOff(g, t, path, |a.order|);
    PreservesOrder(a, m, subtree);
    FinishSettled(g, t, path, node, entry, links, m.low[node], m.bridges);
    FinishEnclosed(g, TimesOf(a), t, path);
    HangsIn(g, subtree, tree, node);
    if node !in m.articulation {
      Unreported(g, t, path, node, entry, subtree, children, first, m.articulation);
    }
    FinishLow(g, t, subtree, node, entry, links, m.low[node], m.bridges, m.articulation);
  }
}
