// Derivations: bounded forward chaining over the edges of a snapshot.

module Datalog {
  import opened Wrappers
  import opened Model

  datatype Atom = Atom(fromVar: string, relation: string, toVar: string)

  datatype Head = Head(fromVar: string, relation: string, toVar: string, role: Role, weight: Double)

  datatype Rule = Rule(name: string, body: seq<Atom>, head: Head)

  datatype Edge = Edge(relation: string, from: ObjectId, to: ObjectId)

  type Binding = map<string, ObjectId>

  type Pair = (ObjectId, ObjectId)

  // ---- what a rule means: the head edge for every assignment that satisfies its body

  function Vars(body: seq<Atom>): set<string> {
    (set i | 0 <= i < |body| :: body[i].fromVar) + (set i | 0 <= i < |body| :: body[i].toVar)
  }

  predicate Satisfies(body: seq<Atom>, a: Binding, facts: set<Edge>) {
    forall i :: 0 <= i < |body| ==>
      body[i].fromVar in a && body[i].toVar in a &&
      Edge(body[i].relation, a[body[i].fromVar], a[body[i].toVar]) in facts
  }

  // The assignment to the body's variables makes the head this pair.
  ghost predicate Yields(body: seq<Atom>, a: Binding, facts: set<Edge>, head: Head, p: Pair) {
    && Satisfies(body, a, facts)
    && head.fromVar in a && head.toVar in a && p == (a[head.fromVar], a[head.toVar])
  }

  ghost predicate Produces(rule: Rule, facts: set<Edge>, e: Edge) {
    e.relation == rule.head.relation &&
    exists a: Binding :: a.Keys == Vars(rule.body) && Yields(rule.body, a, facts, rule.head, (e.from, e.to))
  }

  ghost predicate ClosedUnder(rules: seq<Rule>, facts: set<Edge>) {
    forall i, e :: 0 <= i < |rules| && Produces(rules[i], facts, e) ==> e in facts
  }

  // ---- the backtracking join

  function Bind(b: Binding, v: string, id: ObjectId): Option<Binding> {
    if v !in b then Some(b[v := id]) else if b[v] == id then Some(b) else None
  }

  function BindEdge(b: Binding, atom: Atom, e: Edge): Option<Binding> {
    match Bind(b, atom.fromVar, e.from)
    case None => None
    case Some(b') => Bind(b', atom.toVar, e.to)
  }

  function Join(body: seq<Atom>, b: Binding, facts: set<Edge>, head: Head): set<Pair> {
    if body == [] then
      if head.fromVar in b && head.toVar in b then {(b[head.fromVar], b[head.toVar])} else {}
    else
      set e, p | e in facts && e.relation == body[0].relation && BindEdge(b, body[0], e).Some? &&
                 p in Join(body[1..], BindEdge(b, body[0], e).value, facts, head) :: p
  }

  ghost predicate Refines(a: Binding, b: Binding) {
    forall v :: v in b ==> v in a && a[v] == b[v]
  }

  lemma BindEdgeFits(b: Binding, atom: Atom, e: Edge, a: Binding)
    requires Refines(a, b) && atom.fromVar in a && atom.toVar in a
    requires e.from == a[atom.fromVar] && e.to == a[atom.toVar]
    ensures BindEdge(b, atom, e).Some? && Refines(a, BindEdge(b, atom, e).value)
    ensures BindEdge(b, atom, e).value.Keys == b.Keys + {atom.fromVar, atom.toVar}
  {
  }

  lemma VarsHead(body: seq<Atom>)
    requires body != []
    ensures Vars(body) == {body[0].fromVar, body[0].toVar} + Vars(body[1..])
  {
    assert body == [body[0]] + body[1..];
    forall v | v in Vars(body) ensures v in {body[0].fromVar, body[0].toVar} + Vars(body[1..]) {
      var i :| 0 <= i < |body| && (body[i].fromVar == v || body[i].toVar == v);
      if i > 0 {
        assert body[1..][i - 1] == body[i];
      }
    }
    forall v | v in Vars(body[1..]) ensures v in Vars(body) {
      var i :| 0 <= i < |body[1..]| && (body[1..][i].fromVar == v || body[1..][i].toVar == v);
      assert body[i + 1] == body[1..][i];
    }
  }

  lemma BindEdgeBinds(b: Binding, atom: Atom, e: Edge)
    requires BindEdge(b, atom, e).Some?
    ensures var b' := BindEdge(b, atom, e).value;
            Refines(b', b) && b'.Keys == b.Keys + {atom.fromVar, atom.toVar} &&
            b'[atom.fromVar] == e.from && b'[atom.toVar] == e.to
  {
  }

  lemma YieldsHead(body: seq<Atom>, a: Binding, facts: set<Edge>, head: Head, p: Pair, e: Edge)
    requires body != [] && Yields(body[1..], a, facts, head, p) && e in facts && e.relation == body[0].relation
    requires body[0].fromVar in a && body[0].toVar in a && a[body[0].fromVar] == e.from && a[body[0].toVar] == e.to
    ensures Yields(body, a, facts, head, p)
  {
    forall i | 0 <= i < |body|
      ensures body[i].fromVar in a && body[i].toVar in a &&
              Edge(body[i].relation, a[body[i].fromVar], a[body[i].toVar]) in facts
    {
      if i > 0 {
        assert body[1..][i - 1] == body[i];
      } else {
        assert e == Edge(body[0].relation, a[body[0].fromVar], a[body[0].toVar]);
      }
    }
  }

  lemma {:induction false} JoinSound(body: seq<Atom>, b: Binding, facts: set<Edge>, head: Head, p: Pair)
    requires p in Join(body, b, facts, head)
    ensures exists a: Binding :: Refines(a, b) && a.Keys == b.Keys + Vars(body) && Yields(body, a, facts, head, p)
    decreases |body|
  {
    if body == [] {
      assert Vars(body) == {};
      assert Refines(b, b) && b.Keys == b.Keys + Vars(body) && Yields(body, b, facts, head, p);
    } else {
      var e :| e in facts && e.relation == body[0].relation && BindEdge(b, body[0], e).Some? &&
               p in Join(body[1..], BindEdge(b, body[0], e).value, facts, head);
      var b' := BindEdge(b, body[0], e).value;
      BindEdgeBinds(b, body[0], e);
      JoinSound(body[1..], b', facts, head, p);
      var a: Binding :| Refines(a, b') && a.Keys == b'.Keys + Vars(body[1..]) && Yields(body[1..], a, facts, head, p);
      VarsHead(body);
      YieldsHead(body, a, facts, head, p, e);
      assert Refines(a, b) && a.Keys == b.Keys + Vars(body) && Yields(body, a, facts, head, p);
    }
  }

  lemma {:induction false} JoinComplete(body: seq<Atom>, b: Binding, facts: set<Edge>, head: Head, p: Pair, a: Binding)
    requires Refines(a, b) && a.Keys == b.Keys + Vars(body) && Yields(body, a, facts, head, p)
    ensures p in Join(body, b, facts, head)
    decreases |body|
  {
    if body == [] {
      assert Vars(body) == {};
    } else {
      var e := Edge(body[0].relation, a[body[0].fromVar], a[body[0].toVar]);
      assert e in facts;
      BindEdgeFits(b, body[0], e, a);
      VarsHead(body);
      assert forall i :: 0 <= i < |body[1..]| ==> body[1..][i] == body[i + 1];
      JoinComplete(body[1..], BindEdge(b, body[0], e).value, facts, head, p, a);
    }
  }

  // The edges one evaluation of a rule visits.
  function Heads(rule: Rule, facts: set<Edge>): set<Edge> {
    set p | p in Join(rule.body, map[], facts, rule.head) :: Edge(rule.head.relation, p.0, p.1)
  }

  // The join visits exactly the satisfying assignments.
  lemma HeadsExact(rule: Rule, facts: set<Edge>, e: Edge)
    ensures e in Heads(rule, facts) <==> Produces(rule, facts, e)
  {
    if e in Heads(rule, facts) {
      assert (e.from, e.to) in Join(rule.body, map[], facts, rule.head);
      JoinSound(rule.body, map[], facts, rule.head, (e.from, e.to));
      var a: Binding :| Refines(a, map[]) && a.Keys == {} + Vars(rule.body) &&
                        Yields(rule.body, a, facts, rule.head, (e.from, e.to));
      assert a.Keys == Vars(rule.body);
    }
    if Produces(rule, facts, e) {
      var a: Binding :| a.Keys == Vars(rule.body) && Yields(rule.body, a, facts, rule.head, (e.from, e.to));
      JoinComplete(rule.body, map[], facts, rule.head, (e.from, e.to), a);
    }
  }

  class Evaluation {
    const rule: Rule
    const facts: set<Edge>
    var bindings: Binding
    var visited: seq<Pair>

    constructor (rule: Rule, facts: set<Edge>)
      ensures this.rule == rule && this.facts == facts && bindings == map[] && visited == []
    {
      this.rule, this.facts, bindings, visited := rule, facts, map[], [];
    }

    // Join the atoms from `index` on, binding and unbinding variables in place.
    method EvaluateBody(index: nat)
      requires index <= |rule.body|
      modifies this
      ensures bindings == old(bindings)
      ensures Elems(visited) == Elems(old(visited)) + Join(rule.body[index..], old(bindings), facts, rule.head)
      decreases |rule.body| - index, 1
    {
      hide Part, Join;
      if index == |rule.body| {
        JoinEnd(bindings);
        if rule.head.fromVar in bindings && rule.head.toVar in bindings {
          var p := (bindings[rule.head.fromVar], bindings[rule.head.toVar]);
          ElemsPush(visited, p);
          visited := visited + [p];
        }
        return;
      }
      ghost var b := bindings;
      var all := set e | e in facts && e.relation == rule.body[index].relation;
      PartNone(index, b);
      var left := all;
      assert all - left == {};
      while left != {}
        invariant left <= all && bindings == b
        invariant Elems(visited) == Elems(old(visited)) + Part(index, b, all - left)
        decreases |left|
      {
        var e :| e in left;
        PartStep(index, b, all - left, e);
        assert all - (left - {e}) == all - left + {e};
        TryEdge(index, e);
        left := left - {e};
      }
      assert all - left == all;
      PartAll(index, b, all);
    }

    // One edge against one atom: bind what is unbound, go on if it fits, unbind again.
    method TryEdge(index: nat, e: Edge)
      requires index < |rule.body|
      modifies this
      ensures bindings == old(bindings)
      ensures Elems(visited) == Elems(old(visited)) + OfEdge(index, old(bindings), e)
      decreases |rule.body| - index, 0
    {
      var atom := rule.body[index];
      var added: set<string> := {};
      var fits := true;
      if atom.fromVar !in bindings {
        bindings := bindings[atom.fromVar := e.from];
        added := added + {atom.fromVar};
      } else {
        fits := bindings[atom.fromVar] == e.from;
      }
      if fits {
        if atom.toVar !in bindings {
          bindings := bindings[atom.toVar := e.to];
          added := added + {atom.toVar};
        } else {
          fits := bindings[atom.toVar] == e.to;
        }
      }
      if fits {
        EvaluateBody(index + 1);
      }
      bindings := bindings - added;
    }

    ghost function OfEdge(index: nat, b: Binding, e: Edge): set<Pair>
      requires index < |rule.body|
    {
      match BindEdge(b, rule.body[index], e)
      case None => {}
      case Some(b') => Join(rule.body[index + 1..], b', facts, rule.head)
    }

    // What the edges tried so far contribute.
    ghost function Part(index: nat, b: Binding, edges: set<Edge>): set<Pair>
      requires index < |rule.body|
    {
      set e, p | e in edges && p in OfEdge(index, b, e) :: p
    }

    lemma PartNone(index: nat, b: Binding)
      requires index < |rule.body|
      ensures Part(index, b, {}) == {}
    {
    }

    lemma PartStep(index: nat, b: Binding, edges: set<Edge>, e: Edge)
      requires index < |rule.body|
      ensures Part(index, b, edges + {e}) == Part(index, b, edges) + OfEdge(index, b, e)
    {
    }

    lemma PartAll(index: nat, b: Binding, all: set<Edge>)
      requires index < |rule.body| && all == set e | e in facts && e.relation == rule.body[index].relation
      ensures Part(index, b, all) == Join(rule.body[index..], b, facts, rule.head)
    {
      var body := rule.body[index..];
      assert body[0] == rule.body[index] && body[1..] == rule.body[index + 1..];
      forall p ensures p in Part(index, b, all) <==> p in Join(body, b, facts, rule.head) {
        if p in Part(index, b, all) {
          var e :| e in all && p in OfEdge(index, b, e);
          assert p in Join(body[1..], BindEdge(b, body[0], e).value, facts, rule.head);
        }
        if p in Join(body, b, facts, rule.head) {
          var e :| e in facts && e.relation == body[0].relation && BindEdge(b, body[0], e).Some? &&
                   p in Join(body[1..], BindEdge(b, body[0], e).value, facts, rule.head);
          assert e in all && p in OfEdge(index, b, e);
        }
      }
    }

    lemma JoinEnd(b: Binding)
      ensures Join(rule.body[|rule.body|..], b, facts, rule.head) ==
              if rule.head.fromVar in b && rule.head.toVar in b then {(b[rule.head.fromVar], b[rule.head.toVar])}
                else {}
    {
    }
  }

  function Elems<T>(s: seq<T>): set<T> {
    set x | x in s
  }

  lemma ElemsEmpty<T>(s: seq<T>)
    ensures Elems(s) == {} <==> s == []
  {
    if s != [] {
      assert s[0] in Elems(s);
    }
  }

  lemma ElemsPush<T>(s: seq<T>, x: T)
    ensures Elems(s + [x]) == Elems(s) + {x}
  {
  }
}
