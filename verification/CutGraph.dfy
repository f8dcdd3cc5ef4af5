// Undirected multigraphs: what it takes to separate two vertices.

module CutGraph {

  datatype Arc = Arc(from: nat, to: nat, pointer: nat)

  datatype Graph = Graph(n: nat, arcs: seq<Arc>)

  // Endpoints are vertices; pointer ids are valid and name one arc each.
  ghost predicate GraphOk(g: Graph) {
    && (forall i :: 0 <= i < |g.arcs| ==> g.arcs[i].from < g.n && g.arcs[i].to < g.n && g.arcs[i].pointer != 0)
    && (forall i, j :: 0 <= i < j < |g.arcs| ==> g.arcs[i].pointer != g.arcs[j].pointer)
  }

  predicate ArcJoins(arc: Arc, a: nat, b: nat) {
    (arc.from == a && arc.to == b) || (arc.from == b && arc.to == a)
  }

  // The arc p, in either direction, has ends a and b.
  predicate Joins(g: Graph, a: nat, b: nat, p: nat) {
    exists i :: 0 <= i < |g.arcs| && g.arcs[i].pointer == p && ArcJoins(g.arcs[i], a, b)
  }

  predicate IsVertex(g: Graph, v: nat) {
    v < g.n
  }

  function Vertices(g: Graph): set<nat> {
    set v | 0 <= v < g.n && IsVertex(g, v)
  }

  function Pointers(g: Graph): set<nat> {
    set i | 0 <= i < |g.arcs| :: g.arcs[i].pointer
  }

  // No arc of `ps` leads from s to a vertex of `vs` outside s.
  ghost predicate Closed(g: Graph, vs: set<nat>, ps: set<nat>, s: set<nat>) {
    forall a, b, p :: a in s && a in vs && b in vs && p in ps && Joins(g, a, b, p) ==> b in s
  }

  // b can be reached from a through vertices of `vs` along arcs of `ps`: every closed set
  // that holds a holds b.
  ghost predicate Linked(g: Graph, vs: set<nat>, ps: set<nat>, a: nat, b: nat) {
    forall s: set<nat> :: a in s && Closed(g, vs, ps, s) ==> b in s
  }

  // Without the arc, its ends fall apart.
  ghost predicate Bridge(g: Graph, p: nat) {
    exists a, b :: Joins(g, a, b, p) && !Linked(g, Vertices(g), Pointers(g) - {p}, a, b)
  }

  // Without the vertex, two others that were connected fall apart.
  ghost predicate Cut(g: Graph, v: nat) {
    exists a, b :: a in Vertices(g) - {v} && b in Vertices(g) - {v} &&
      Linked(g, Vertices(g), Pointers(g), a, b) && !Linked(g, Vertices(g) - {v}, Pointers(g), a, b)
  }

  lemma JoinsSym(g: Graph, a: nat, b: nat, p: nat)
    requires Joins(g, a, b, p)
    ensures Joins(g, b, a, p)
  {
  }

  lemma JoinsIn(g: Graph, a: nat, b: nat, p: nat)
    requires GraphOk(g) && Joins(g, a, b, p)
    ensures a in Vertices(g) && b in Vertices(g) && p in Pointers(g) && p != 0
  {
  }

  // A pointer has one pair of ends.
  lemma JoinsOnce(g: Graph, a: nat, b: nat, c: nat, d: nat, p: nat)
    requires GraphOk(g) && Joins(g, a, b, p) && Joins(g, c, d, p)
    ensures (a == c && b == d) || (a == d && b == c)
  {
  }

  lemma LinkedSelf(g: Graph, vs: set<nat>, ps: set<nat>, a: nat)
    ensures Linked(g, vs, ps, a, a)
  {
  }

  lemma LinkedArc(g: Graph, vs: set<nat>, ps: set<nat>, a: nat, b: nat, p: nat)
    requires Joins(g, a, b, p) && a in vs && b in vs && p in ps
    ensures Linked(g, vs, ps, a, b)
  {
  }

  lemma LinkedTrans(g: Graph, vs: set<nat>, ps: set<nat>, a: nat, b: nat, c: nat)
    requires Linked(g, vs, ps, a, b) && Linked(g, vs, ps, b, c)
    ensures Linked(g, vs, ps, a, c)
  {
  }

  lemma LinkedSym(g: Graph, vs: set<nat>, ps: set<nat>, a: nat, b: nat)
    requires Linked(g, vs, ps, a, b) && a in vs && b in vs
    ensures Linked(g, vs, ps, b, a)
  {
    forall s: set<nat> | b in s && Closed(g, vs, ps, s) ensures a in s {
      if a !in s {
        var rest := vs - s;
        forall x, y, p | x in rest && x in vs && y in vs && p in ps && Joins(g, x, y, p) ensures y in rest {
          JoinsSym(g, x, y, p);
        }
        assert Closed(g, vs, ps, rest);
      }
    }
  }

  lemma LinkedMore(g: Graph, vs: set<nat>, ps: set<nat>, vs': set<nat>, ps': set<nat>, a: nat, b: nat)
    requires Linked(g, vs, ps, a, b) && vs <= vs' && ps <= ps'
    ensures Linked(g, vs', ps', a, b)
  {
    forall s: set<nat> | a in s && Closed(g, vs', ps', s) ensures b in s {
      assert Closed(g, vs, ps, s);
    }
  }

  // An arc whose ends stay linked without it is no bridge, and conversely.
  lemma BridgeExact(g: Graph, p: nat, a: nat, b: nat)
    requires GraphOk(g) && Joins(g, a, b, p)
    ensures Bridge(g, p) <==> !Linked(g, Vertices(g), Pointers(g) - {p}, a, b)
  {
    JoinsIn(g, a, b, p);
    if Bridge(g, p) {
      var c, d :| Joins(g, c, d, p) && !Linked(g, Vertices(g), Pointers(g) - {p}, c, d);
      JoinsOnce(g, a, b, c, d, p);
      if Linked(g, Vertices(g), Pointers(g) - {p}, a, b) {
        LinkedSym(g, Vertices(g), Pointers(g) - {p}, a, b);
      }
    }
  }

  // If every neighbour of v is linked to one hub without v, then v cuts nothing.
  lemma HubNoCut(g: Graph, v: nat, hub: nat)
    requires GraphOk(g) && hub in Vertices(g) - {v}
    requires forall y, p :: Joins(g, v, y, p) && y != v ==> Linked(g, Vertices(g) - {v}, Pointers(g), y, hub)
    ensures !Cut(g, v)
  {
    var vs, ps := Vertices(g), Pointers(g);
    forall a, b | a in vs - {v} && b in vs - {v} && Linked(g, vs, ps, a, b)
      ensures Linked(g, vs - {v}, ps, a, b)
    {
      forall s: set<nat> | a in s && Closed(g, vs - {v}, ps, s) ensures b in s {
        if hub in s {
          var more := s + {v};
          forall x, y, p | x in more && x in vs && y in vs && p in ps && Joins(g, x, y, p) ensures y in more {
            if x == v && y != v {
              LinkedSym(g, vs - {v}, ps, y, hub);
            }
          }
          assert Closed(g, vs, ps, more);
        } else {
          var less := s - {v};
          forall x, y, p | x in less && x in vs && y in vs && p in ps && Joins(g, x, y, p) ensures y in less {
            if y == v {
              JoinsSym(g, x, y, p);
            }
          }
          assert Closed(g, vs, ps, less);
        }
      }
    }
  }

  lemma AloneNoCut(g: Graph, v: nat)
    requires GraphOk(g) && forall y, p :: Joins(g, v, y, p) ==> y == v
    ensures !Cut(g, v)
  {
    var vs, ps := Vertices(g), Pointers(g);
    forall a, b | a in vs - {v} && b in vs - {v} && Linked(g, vs, ps, a, b)
      ensures Linked(g, vs - {v}, ps, a, b)
    {
      forall s: set<nat> | a in s && Closed(g, vs - {v}, ps, s) ensures b in s {
        var less := s - {v};
        forall x, y, p | x in less && x in vs && y in vs && p in ps && Joins(g, x, y, p) ensures y in less {
          if y == v {
            JoinsSym(g, x, y, p);
          }
        }
        assert Closed(g, vs, ps, less);
      }
    }
  }

  // A set that only leads out through v separates its members from the rest.
  lemma SideCuts(g: Graph, v: nat, side: set<nat>, inside: nat, outside: nat)
    requires GraphOk(g) && inside in side && inside in Vertices(g) - {v} && outside in Vertices(g) - {v} &&
             outside !in side
    requires forall x, y, p :: x in side && Joins(g, x, y, p) ==> y in side || y == v
    requires Linked(g, Vertices(g), Pointers(g), inside, outside)
    ensures Cut(g, v)
  {
    assert Closed(g, Vertices(g) - {v}, Pointers(g), side);
    assert !Linked(g, Vertices(g) - {v}, Pointers(g), inside, outside);
  }
}
