// Risk elements: their canonical form, their join and order, and the saturating projection
// to one number.

module Risk {
  import opened Model
  import opened Attributes

  datatype Coordinate = Coordinate(space: string, component: string, value: nat)

  type Element = seq<Coordinate>

  const U64_MAX: nat := 0xFFFF_FFFF_FFFF_FFFF

  // ---- reading an element

  predicate At(c: Coordinate, space: string, component: string) {
    c.space == space && c.component == component
  }

  // The first value at a coordinate, 0 where there is none.
  function ValueAt(e: Element, space: string, component: string): nat {
    if e == [] then 0
    else if At(e[0], space, component) then e[0].value
    else ValueAt(e[1..], space, component)
  }

  method CoordinateValue(e: Element, space: string, component: string) returns (v: nat)
    ensures v == ValueAt(e, space, component)
  {
    assert e[0..] == e;
    for i := 0 to |e|
      invariant ValueAt(e, space, component) == ValueAt(e[i..], space, component)
    {
      if At(e[i], space, component) {
        return e[i].value;
      }
      assert e[i..][1..] == e[i + 1..];
    }
    v := 0;
  }

  ghost predicate Below(a: Element, b: Element) {
    forall i :: 0 <= i < |a| ==> a[i].value <= ValueAt(b, a[i].space, a[i].component)
  }

  method LessEqual(a: Element, b: Element) returns (r: bool)
    ensures r <==> Below(a, b)
  {
    for i := 0 to |a|
      invariant forall k :: 0 <= k < i ==> a[k].value <= ValueAt(b, a[k].space, a[k].component)
    {
      var v := CoordinateValue(b, a[i].space, a[i].component);
      if a[i].value > v {
        return false;
      }
    }
    r := true;
  }

  // ---- the canonical form

  function CompareKey(a: Coordinate, b: Coordinate): int {
    if a.space != b.space then CompareString(a.space, b.space) else CompareString(a.component, b.component)
  }

  // By space first and component then, as texts are ordered.
  lemma KeyExact(a: Coordinate, b: Coordinate)
    ensures CompareKey(a, b) < 0 <==>
            StringBelow(a.space, b.space) || (a.space == b.space && StringBelow(a.component, b.component))
  {
    StringOrder(a.space, b.space);
    StringExact(a.space, b.space);
    StringExact(a.component, b.component);
  }

  predicate Named(c: Coordinate) {
    c.space != "" && c.component != ""
  }

  // Named coordinates in strictly ascending order: each at most once.
  predicate IsCanonical(e: Element) {
    && (forall i :: 0 <= i < |e| ==> Named(e[i]))
    && (forall i, j :: 0 <= i < j < |e| ==> CompareKey(e[i], e[j]) < 0)
  }

  predicate Present(e: Element, space: string, component: string) {
    exists i :: 0 <= i < |e| && At(e[i], space, component)
  }

  // The largest value at a coordinate.
  function MaxAt(e: Element, space: string, component: string): nat {
    if e == [] then 0
    else Max(MaxAt(e[..|e| - 1], space, component), if At(e[|e| - 1], space, component) then e[|e| - 1].value else 0)
  }

  // The canonical element of another: its named coordinates, each at its largest value.
  ghost predicate CanonicalOf(out: Element, e: Element) {
    && IsCanonical(out)
    && (forall s, c :: Present(out, s, c) <==> s != "" && c != "" && Present(e, s, c))
    && (forall i :: 0 <= i < |out| ==> out[i].value == MaxAt(e, out[i].space, out[i].component))
  }

  lemma KeyOrder(a: Coordinate, b: Coordinate)
    ensures CompareKey(a, b) == 0 <==> At(a, b.space, b.component)
    ensures CompareKey(a, b) == -CompareKey(b, a)
  {
    StringOrder(a.space, b.space);
    StringOrder(a.component, b.component);
  }

  lemma KeyTrans(a: Coordinate, b: Coordinate, c: Coordinate)
    requires CompareKey(a, b) <= 0 && CompareKey(b, c) <= 0
    ensures CompareKey(a, c) <= 0 && (CompareKey(a, b) < 0 || CompareKey(b, c) < 0 ==> CompareKey(a, c) < 0)
  {
    StringOrder(a.space, b.space);
    StringOrder(b.space, c.space);
    StringOrder(a.space, c.space);
    StringTrans(a.space, b.space, c.space);
    if a.space == c.space {
      StringTrans(a.component, b.component, c.component);
    }
  }

  // Sorting by coordinate, one at a time.
  function Place(e: Element, c: Coordinate): Element {
    if e == [] then [c]
    else if CompareKey(c, e[|e| - 1]) < 0 then Place(e[..|e| - 1], c) + [e[|e| - 1]]
    else e + [c]
  }

  function SortByKey(e: Element): Element {
    if e == [] then [] else Place(SortByKey(e[..|e| - 1]), e[|e| - 1])
  }

  predicate Ascending(e: Element) {
    forall i, j :: 0 <= i < j < |e| ==> CompareKey(e[i], e[j]) <= 0
  }

  lemma {:induction false} PlaceAscends(e: Element, c: Coordinate)
    requires Ascending(e)
    ensures Ascending(Place(e, c)) && forall x :: x in Place(e, c) <==> x in e || x == c
    ensures forall s, k :: MaxAt(Place(e, c), s, k) == Max(MaxAt(e, s, k), if At(c, s, k) then c.value else 0)
  {
    hide CompareKey;
    if e != [] {
      var less, last := e[..|e| - 1], e[|e| - 1];
      assert e == less + [last];
      if CompareKey(c, last) < 0 {
        PlaceAscends(less, c);
        var rest := Place(less, c);
        forall i | 0 <= i < |rest| ensures CompareKey(rest[i], last) <= 0 {
          assert rest[i] in rest;
        }
        assert (rest + [last])[..|rest|] == rest;
      } else {
        KeyOrder(c, last);
        forall i | 0 <= i < |e| ensures CompareKey(e[i], c) <= 0 {
          if i < |less| {
            KeyTrans(e[i], last, c);
          }
        }
        assert (e + [c])[..|e|] == e;
      }
    }
  }

  lemma {:induction false} SortAscends(e: Element)
    ensures Ascending(SortByKey(e)) && forall x :: x in SortByKey(e) <==> x in e
    ensures forall s, k :: MaxAt(SortByKey(e), s, k) == MaxAt(e, s, k)
  {
    hide CompareKey;
    if e != [] {
      SortAscends(e[..|e| - 1]);
      PlaceAscends(SortByKey(e[..|e| - 1]), e[|e| - 1]);
      assert e == e[..|e| - 1] + [e[|e| - 1]];
    }
  }

  lemma {:induction false} MaxPresent(e: Element, s: string, c: string)
    ensures !Present(e, s, c) ==> MaxAt(e, s, c) == 0
    ensures forall i :: 0 <= i < |e| && At(e[i], s, c) ==> e[i].value <= MaxAt(e, s, c)
    ensures Present(e, s, c) ==> exists i :: 0 <= i < |e| && At(e[i], s, c) && e[i].value == MaxAt(e, s, c)
  {
    if e != [] {
      var less := e[..|e| - 1];
      MaxPresent(less, s, c);
      assert forall i :: 0 <= i < |less| ==> less[i] == e[i];
    }
  }

  lemma PresentPush(e: Element, c: Coordinate)
    ensures forall s, k :: Present(e + [c], s, k) <==> Present(e, s, k) || At(c, s, k)
    ensures forall s, k :: MaxAt(e + [c], s, k) == Max(MaxAt(e, s, k), if At(c, s, k) then c.value else 0)
  {
    assert (e + [c])[..|e|] == e && (e + [c])[|e|] == c;
    forall s, k | Present(e, s, k) ensures Present(e + [c], s, k) {
      var i :| 0 <= i < |e| && At(e[i], s, k);
      assert At((e + [c])[i], s, k);
    }
  }

  lemma SamePresent(a: Element, b: Element)
    requires forall x :: x in a <==> x in b
    ensures forall s, k :: Present(a, s, k) <==> Present(b, s, k)
  {
    forall s, k ensures Present(a, s, k) <==> Present(b, s, k) {
      if Present(a, s, k) {
        var i :| 0 <= i < |a| && At(a[i], s, k);
        assert a[i] in b;
      }
      if Present(b, s, k) {
        var i :| 0 <= i < |b| && At(b[i], s, k);
        assert b[i] in a;
      }
    }
  }

  // Taking one more coordinate of the sorted list.
  lemma CanonicalSkip(out: Element, e: Element, c: Coordinate)
    requires CanonicalOf(out, e) && !Named(c)
    ensures CanonicalOf(out, e + [c])
  {
    hide CompareKey, MaxAt, Present;
    PresentPush(e, c);
  }

  lemma CanonicalPush(out: Element, e: Element, c: Coordinate)
    requires CanonicalOf(out, e) && Named(c) && forall i :: 0 <= i < |out| ==> CompareKey(out[i], c) < 0
    ensures CanonicalOf(out + [c], e + [c])
  {
    hide CompareKey, MaxAt, Present;
    PresentPush(e, c);
    PresentPush(out, c);
    forall i | 0 <= i < |out| ensures !At(c, out[i].space, out[i].component) {
      KeyOrder(out[i], c);
      KeyOrder(c, out[i]);
    }
    assert !Present(out, c.space, c.component) by {
      if Present(out, c.space, c.component) {
        var i := PresentAt(out, c.space, c.component);
      }
    }
    MaxPresent(e, c.space, c.component);
  }

  lemma PresentAt(e: Element, s: string, k: string) returns (i: nat)
    requires Present(e, s, k)
    ensures i < |e| && At(e[i], s, k)
  {
    i :| 0 <= i < |e| && At(e[i], s, k);
  }

  lemma CanonicalRaise(out: Element, e: Element, c: Coordinate)
    requires CanonicalOf(out, e) && out != [] && At(out[|out| - 1], c.space, c.component)
    ensures CanonicalOf(out[|out| - 1 := out[|out| - 1].(value := Max(out[|out| - 1].value, c.value))], e + [c])
  {
    hide MaxAt;
    var last := |out| - 1;
    var next := out[last := out[last].(value := Max(out[last].value, c.value))];
    PresentPush(e, c);
    assert forall i :: 0 <= i < |out| ==> next[i].space == out[i].space && next[i].component == out[i].component;
    SameKeys(out, next);
    forall i | 0 <= i < last ensures !At(c, out[i].space, out[i].component) {
      KeyOrder(out[i], out[last]);
    }
  }

  lemma SameKeys(a: Element, b: Element)
    requires |a| == |b| && forall i :: 0 <= i < |a| ==> a[i].space == b[i].space && a[i].component == b[i].component
    ensures forall s, k :: Present(a, s, k) <==> Present(b, s, k)
    ensures forall i, j :: 0 <= i < |a| && 0 <= j < |a| ==> CompareKey(a[i], a[j]) == CompareKey(b[i], b[j])
  {
    forall s, k ensures Present(a, s, k) <==> Present(b, s, k) {
      if Present(a, s, k) {
        var i :| 0 <= i < |a| && At(a[i], s, k);
        assert At(b[i], s, k);
      }
      if Present(b, s, k) {
        var i :| 0 <= i < |b| && At(b[i], s, k);
        assert At(a[i], s, k);
      }
    }
  }

  // Sorts, drops unnamed coordinates and folds equal ones to their largest value.
  method Canonicalize(e: Element) returns (out: Element)
    ensures CanonicalOf(out, e)
  {
    hide CanonicalOf, CompareKey, Ascending, MaxAt, Present;
    var sorted := SortByKey(e);
    SortAscends(e);
    SamePresent(sorted, e);
    out := [];
    CanonicalNone();
    for i := 0 to |sorted|
      invariant CanonicalOf(out, sorted[..i])
      invariant out != [] ==> Ascends(out[|out| - 1], sorted, i)
    {
      var c := sorted[i];
      assert sorted[..i + 1] == sorted[..i] + [c];
      NextAscends(out, sorted, i);
      if c.space == "" || c.component == "" {
        CanonicalSkip(out, sorted[..i], c);
      } else if out != [] && At(out[|out| - 1], c.space, c.component) {
        CanonicalRaise(out, sorted[..i], c);
        RaisedAscends(out[|out| - 1], Max(out[|out| - 1].value, c.value), sorted, i + 1);
        out := out[|out| - 1 := out[|out| - 1].(value := Max(out[|out| - 1].value, c.value))];
      } else {
        AllBefore(out, sorted[..i], c);
        CanonicalPush(out, sorted[..i], c);
        out := out + [c];
      }
    }
    assert sorted[..|sorted|] == sorted;
    CanonicalSame(out, sorted, e);
  }

  // The coordinates still to come are not before this one.
  ghost predicate Ascends(c: Coordinate, sorted: Element, i: nat) {
    forall j :: i <= j < |sorted| ==> CompareKey(c, sorted[j]) <= 0
  }

  lemma NextAscends(out: Element, sorted: Element, i: nat)
    requires Ascending(sorted) && i < |sorted| && (out != [] ==> Ascends(out[|out| - 1], sorted, i))
    ensures Ascends(sorted[i], sorted, i + 1)
    ensures out != [] ==> CompareKey(out[|out| - 1], sorted[i]) <= 0 && Ascends(out[|out| - 1], sorted, i + 1)
  {
  }

  lemma RaisedAscends(c: Coordinate, v: nat, sorted: Element, i: nat)
    requires Ascends(c, sorted, i)
    ensures Ascends(c.(value := v), sorted, i)
  {
  }

  lemma AllBefore(out: Element, e: Element, c: Coordinate)
    requires CanonicalOf(out, e) && out != [] ==>
               CompareKey(out[|out| - 1], c) <= 0 && !At(out[|out| - 1], c.space, c.component)
    ensures CanonicalOf(out, e) ==> forall i :: 0 <= i < |out| ==> CompareKey(out[i], c) < 0
  {
    hide CompareKey, MaxAt, Present;
    if CanonicalOf(out, e) && out != [] {
      var last := out[|out| - 1];
      KeyOrder(last, c);
      forall i | 0 <= i < |out| ensures CompareKey(out[i], c) < 0 {
        if i < |out| - 1 {
          KeyTrans(out[i], last, c);
        }
      }
    }
  }

  lemma CanonicalNone()
    ensures CanonicalOf([], [])
  {
  }

  lemma CanonicalSame(out: Element, a: Element, b: Element)
    requires CanonicalOf(out, a) && (forall s, k :: Present(a, s, k) <==> Present(b, s, k)) &&
             (forall s, k :: MaxAt(a, s, k) == MaxAt(b, s, k))
    ensures CanonicalOf(out, b)
  {
    hide CompareKey, MaxAt, Present;
  }

  // ---- the join

  // Canonicalizes both, appends, and canonicalizes again.
  method Join(left: Element, right: Element) returns (out: Element)
    ensures CanonicalOf(out, left + right)
  {
    hide CanonicalOf;
    var l := Canonicalize(left);
    var r := Canonicalize(right);
    out := Canonicalize(l + r);
    CanonicalTwice(out, l, left, r, right);
  }

  lemma {:induction false} MaxAppend(a: Element, b: Element, s: string, k: string)
    ensures MaxAt(a + b, s, k) == Max(MaxAt(a, s, k), MaxAt(b, s, k))
    ensures Present(a + b, s, k) <==> Present(a, s, k) || Present(b, s, k)
  {
    if b == [] {
      assert a + b == a;
    } else {
      var less, last := b[..|b| - 1], b[|b| - 1];
      assert a + b == (a + less) + [last] && b == less + [last];
      MaxAppend(a, less, s, k);
      PresentPush(a + less, last);
      PresentPush(less, last);
    }
  }

  // A canonical element has its largest values for values.
  lemma {:induction false} CanonicalMax(out: Element, e: Element, s: string, k: string)
    requires CanonicalOf(out, e)
    ensures MaxAt(out, s, k) == if s != "" && k != "" then MaxAt(e, s, k) else 0
  {
    MaxPresent(out, s, k);
    MaxPresent(e, s, k);
    if Present(out, s, k) {
      var i :| 0 <= i < |out| && At(out[i], s, k) && out[i].value == MaxAt(out, s, k);
    }
  }

  lemma CanonicalTwice(out: Element, l: Element, left: Element, r: Element, right: Element)
    requires CanonicalOf(l, left) && CanonicalOf(r, right) && CanonicalOf(out, l + r)
    ensures CanonicalOf(out, left + right)
  {
    hide CompareKey, MaxAt, Present;
    forall s, k ensures Present(out, s, k) <==> s != "" && k != "" && Present(left + right, s, k) {
      MaxAppend(left, right, s, k);
      MaxAppend(l, r, s, k);
    }
    forall i | 0 <= i < |out| ensures out[i].value == MaxAt(left + right, out[i].space, out[i].component) {
      MaxAppend(left, right, out[i].space, out[i].component);
      MaxAppend(l, r, out[i].space, out[i].component);
      CanonicalMax(l, left, out[i].space, out[i].component);
      CanonicalMax(r, right, out[i].space, out[i].component);
    }
  }

  lemma {:induction false} FirstAt(e: Element, s: string, k: string)
    ensures Present(e, s, k) ==> exists i :: 0 <= i < |e| && At(e[i], s, k) && e[i].value == ValueAt(e, s, k)
    ensures !Present(e, s, k) ==> ValueAt(e, s, k) == 0
  {
    if e != [] {
      FirstAt(e[1..], s, k);
      assert forall i :: 0 <= i < |e[1..]| ==> e[1..][i] == e[i + 1];
      if !At(e[0], s, k) && Present(e, s, k) {
        var i := PresentAt(e, s, k);
        assert At(e[1..][i - 1], s, k);
        var j :| 0 <= j < |e[1..]| && At(e[1..][j], s, k) && e[1..][j].value == ValueAt(e[1..], s, k);
        assert At(e[j + 1], s, k) && e[j + 1].value == ValueAt(e, s, k);
      }
    }
  }

  // Where no coordinate is repeated, the first value is the largest.
  lemma CanonicalValue(e: Element, s: string, k: string)
    requires IsCanonical(e)
    ensures ValueAt(e, s, k) == MaxAt(e, s, k)
  {
    hide MaxAt, ValueAt, CompareKey;
    FirstAt(e, s, k);
    MaxPresent(e, s, k);
    if Present(e, s, k) {
      var i :| 0 <= i < |e| && At(e[i], s, k) && e[i].value == ValueAt(e, s, k);
      var j :| 0 <= j < |e| && At(e[j], s, k) && e[j].value == MaxAt(e, s, k);
      KeyOrder(e[i], e[j]);
      KeyOrder(e[j], e[i]);
    }
  }

  // An element is below its join with another exactly when what it says of unnamed
  // coordinates is zero.
  lemma JoinAbove(out: Element, left: Element, right: Element)
    requires CanonicalOf(out, left + right)
    ensures Below(left, out) <==> forall i :: 0 <= i < |left| && !Named(left[i]) ==> left[i].value == 0
    ensures Below(right, out) <==> forall i :: 0 <= i < |right| && !Named(right[i]) ==> right[i].value == 0
  {
    hide CompareKey, ValueAt, MaxAt;
    forall s, k ensures ValueAt(out, s, k) == if s != "" && k != "" then Max(MaxAt(left, s, k), MaxAt(right, s, k))
      else 0 {
      CanonicalValue(out, s, k);
      CanonicalMax(out, left + right, s, k);
      MaxAppend(left, right, s, k);
    }
    forall i | 0 <= i < |left| ensures left[i].value <= MaxAt(left, left[i].space, left[i].component) {
      MaxPresent(left, left[i].space, left[i].component);
    }
    forall i | 0 <= i < |right| ensures right[i].value <= MaxAt(right, right[i].space, right[i].component) {
      MaxPresent(right, right[i].space, right[i].component);
    }
  }

  // An element that gives something to an unnamed coordinate is not below its own join.
  lemma UnnamedLost()
    ensures var e := [Coordinate("", "x", 1)];
            CanonicalOf([], e + e) && !Below(e, [])
  {
    var e := [Coordinate("", "x", 1)];
    hide MaxAt;
    assert e[0].value == 1 && ValueAt([], "", "x") == 0;
  }

  // And it is below everything both are below.
  lemma JoinLeast(out: Element, left: Element, right: Element, bound: Element)
    requires CanonicalOf(out, left + right) && Below(left, bound) && Below(right, bound)
    ensures Below(out, bound)
  {
    hide CompareKey, ValueAt, MaxAt;
    forall i | 0 <= i < |out| ensures out[i].value <= ValueAt(bound, out[i].space, out[i].component) {
      var s, k := out[i].space, out[i].component;
      assert At(out[i], s, k) && Present(out, s, k);
      MaxPresent(left + right, s, k);
      var j :| 0 <= j < |left + right| && At((left + right)[j], s, k) &&
        (left + right)[j].value == MaxAt(left + right, s, k);
      assert (left + right)[j] == if j < |left| then left[j] else right[j - |left|];
    }
  }

  // The canonical form is one: same coordinates, same values, same order.
  lemma {:induction false} CanonicalUnique(a: Element, b: Element, e: Element, f: Element)
    requires CanonicalOf(a, e) && CanonicalOf(b, f)
    requires forall s, k :: Present(e, s, k) <==> Present(f, s, k)
    requires forall s, k :: MaxAt(e, s, k) == MaxAt(f, s, k)
    ensures a == b
  {
    hide CompareKey, MaxAt;
    forall c: Coordinate ensures c in a <==> c in b {
      if c in a {
        var i :| 0 <= i < |a| && a[i] == c;
        assert At(a[i], c.space, c.component) && Present(a, c.space, c.component);
        var j := PresentAt(b, c.space, c.component);
        assert b[j] == c;
      }
      if c in b {
        var i :| 0 <= i < |b| && b[i] == c;
        assert At(b[i], c.space, c.component) && Present(b, c.space, c.component);
        var j := PresentAt(a, c.space, c.component);
        assert a[j] == c;
      }
    }
    SameOrder(a, b);
  }

  predicate Strict(e: Element) {
    forall i, j :: 0 <= i < j < |e| ==> CompareKey(e[i], e[j]) < 0
  }

  lemma {:induction false} SameOrder(a: Element, b: Element)
    requires Strict(a) && Strict(b) && forall c :: c in a <==> c in b
    ensures a == b
    decreases |a|
  {
    hide CompareKey;
    if a == [] {
      if b != [] {
        HeadsSame(b, a);
      }
    } else {
      HeadsSame(a, b);
      TailsSame(a, b);
      SameOrder(a[1..], b[1..]);
      assert a == [a[0]] + a[1..] && b == [b[0]] + b[1..];
    }
  }

  lemma HeadsSame(a: Element, b: Element)
    requires Strict(a) && Strict(b) && (forall c :: c in a <==> c in b) && a != []
    ensures b != [] && a[0] == b[0]
  {
    hide CompareKey;
    assert a[0] in b;
    var j :| 0 <= j < |b| && b[j] == a[0];
    assert b[0] in a;
    var i :| 0 <= i < |a| && a[i] == b[0];
    KeyOrder(a[0], b[0]);
  }

  lemma TailsSame(a: Element, b: Element)
    requires Strict(a) && Strict(b) && (forall c :: c in a <==> c in b) && a != [] && b != [] && a[0] == b[0]
    ensures Strict(a[1..]) && Strict(b[1..]) && forall c :: c in a[1..] <==> c in b[1..]
  {
    hide CompareKey;
    KeyOrder(a[0], a[0]);
    forall c ensures c in a[1..] <==> c in a && c != a[0] {
      assert a == [a[0]] + a[1..];
      if c in a[1..] {
        var i :| 0 <= i < |a[1..]| && a[1..][i] == c;
        assert CompareKey(a[0], a[i + 1]) < 0;
      }
    }
    forall c ensures c in b[1..] <==> c in b && c != b[0] {
      assert b == [b[0]] + b[1..];
      if c in b[1..] {
        var i :| 0 <= i < |b[1..]| && b[1..][i] == c;
        assert CompareKey(b[0], b[i + 1]) < 0;
      }
    }
  }

  // Joining in either order, or three in either grouping, gives the same element.
  lemma JoinCommutes(left: Element, right: Element, a: Element, b: Element)
    requires CanonicalOf(a, left + right) && CanonicalOf(b, right + left)
    ensures a == b
  {
    hide CanonicalOf, MaxAt, Present;
    forall s, k ensures MaxAt(left + right, s, k) == MaxAt(right + left, s, k) &&
      (Present(left + right, s, k) <==> Present(right + left, s, k)) {
      MaxAppend(left, right, s, k);
      MaxAppend(right, left, s, k);
    }
    CanonicalUnique(a, b, left + right, right + left);
  }

  lemma JoinAssociates(x: Element, y: Element, z: Element, xy: Element, yz: Element, a: Element, b: Element)
    requires CanonicalOf(xy, x + y) && CanonicalOf(yz, y + z) && CanonicalOf(a, xy + z) && CanonicalOf(b, x + yz)
    ensures a == b
  {
    hide MaxAt, Present, CompareKey;
    forall s, k | s != "" && k != "" ensures MaxAt(xy + z, s, k) == MaxAt(x + yz, s, k) &&
      (Present(xy + z, s, k) <==> Present(x + yz, s, k)) {
      MaxAppend(xy, z, s, k);
      MaxAppend(x, yz, s, k);
      MaxAppend(x, y, s, k);
      MaxAppend(y, z, s, k);
      CanonicalMax(xy, x + y, s, k);
      CanonicalMax(yz, y + z, s, k);
    }
    CanonicalNamed(a, xy + z, x + yz);
    CanonicalUnique(a, b, x + yz, x + yz);
  }

  // Only named coordinates matter to the canonical form.
  lemma CanonicalNamed(out: Element, e: Element, f: Element)
    requires CanonicalOf(out, e)
    requires forall s, k :: s != "" && k != "" ==>
               MaxAt(e, s, k) == MaxAt(f, s, k) && (Present(e, s, k) <==> Present(f, s, k))
    ensures CanonicalOf(out, f)
  {
    hide MaxAt, Present, CompareKey;
  }

  lemma JoinIdempotent(e: Element, out: Element)
    requires IsCanonical(e) && CanonicalOf(out, e + e)
    ensures out == e
  {
    hide MaxAt, CompareKey;
    forall s, k ensures MaxAt(e + e, s, k) == MaxAt(e, s, k) && (Present(e + e, s, k) <==> Present(e, s, k)) {
      MaxAppend(e, e, s, k);
    }
    CanonicalSelf(e);
    CanonicalUnique(out, e, e + e, e);
  }

  lemma CanonicalSelf(e: Element)
    requires IsCanonical(e)
    ensures CanonicalOf(e, e)
  {
    hide CompareKey;
    forall i | 0 <= i < |e| ensures e[i].value == MaxAt(e, e[i].space, e[i].component) {
      MaxPresent(e, e[i].space, e[i].component);
      assert At(e[i], e[i].space, e[i].component);
      var j :| 0 <= j < |e| && At(e[j], e[i].space, e[i].component) &&
        e[j].value == MaxAt(e, e[i].space, e[i].component);
      KeyOrder(e[i], e[j]);
      KeyOrder(e[j], e[i]);
    }
  }

  // ---- the projection

  datatype Mode = Raw | RobustZ | Quantile | Other

  datatype Term = Term(space: string, component: string, numerator: nat, denominator: nat, mode: Mode,
                       median: nat, mad: nat, q80: nat, q95: nat, q99: nat)

  function SaturatingAdd(a: nat, b: nat): nat
    requires a <= U64_MAX
  {
    if U64_MAX - a < b then U64_MAX else a + b
  }

  function SaturatingMulDiv(value: nat, numerator: nat, denominator: nat): nat {
    if denominator == 0 then U64_MAX else Min(value * numerator / denominator, U64_MAX)
  }

  // `z` is the logarithmic score of a coordinate, computed in floating point.
  function Calibrated(v: nat, term: Term, z: (Term, nat) -> nat): nat {
    match term.mode
    case Raw | Other => v
    case RobustZ => if v <= term.median then 0 else z(term, v)
    case Quantile => if v < term.q80 then 0 else if v < term.q95 then 1000 else if v < term.q99 then 2000 else 3000
  }

  function Contribution(e: Element, term: Term, z: (Term, nat) -> nat): nat {
    SaturatingMulDiv(Calibrated(ValueAt(e, term.space, term.component), term, z), term.numerator, term.denominator)
  }

  // The sum of all contributions, without saturation.
  function Total(e: Element, terms: seq<Term>, z: (Term, nat) -> nat): nat {
    if terms == [] then 0 else Total(e, terms[..|terms| - 1], z) + Contribution(e, terms[|terms| - 1], z)
  }

  // The saturating sum is the sum, capped.
  method Project(e: Element, terms: seq<Term>, z: (Term, nat) -> nat) returns (score: nat)
    ensures score == Min(Total(e, terms, z), U64_MAX)
  {
    score := 0;
    for i := 0 to |terms|
      invariant score == Min(Total(e, terms[..i], z), U64_MAX)
    {
      assert terms[..i + 1][..i] == terms[..i];
      var v := CoordinateValue(e, terms[i].space, terms[i].component);
      score := SaturatingAdd(score, SaturatingMulDiv(Calibrated(v, terms[i], z), terms[i].numerator,
        terms[i].denominator));
    }
    assert terms[..|terms|] == terms;
  }

  // The order of the terms does not matter, so neither does sorting them first.
  lemma {:induction false} TotalOrderFree(e: Element, a: seq<Term>, b: seq<Term>, z: (Term, nat) -> nat)
    requires multiset(a) == multiset(b)
    ensures Total(e, a, z) == Total(e, b, z)
    decreases |a|
  {
    if a == [] {
      assert |multiset(b)| == 0;
    } else {
      var last := a[|a| - 1];
      assert a == a[..|a| - 1] + [last];
      assert last in multiset(b);
      var i :| 0 <= i < |b| && b[i] == last;
      assert b == b[..i] + [last] + b[i + 1..];
      WithoutOne(a, b, i);
      TotalOrderFree(e, a[..|a| - 1], b[..i] + b[i + 1..], z);
      TotalWithout(e, b, i, z);
    }
  }

  lemma WithoutOne(a: seq<Term>, b: seq<Term>, i: nat)
    requires multiset(a) == multiset(b) && a != [] && i < |b| && b[i] == a[|a| - 1]
    ensures multiset(a[..|a| - 1]) == multiset(b[..i] + b[i + 1..])
  {
    var last := a[|a| - 1];
    assert a == a[..|a| - 1] + [last];
    assert b == b[..i] + [last] + b[i + 1..];
    assert multiset(a[..|a| - 1]) == multiset(a) - multiset{last};
    assert multiset(b[..i] + b[i + 1..]) == multiset(b) - multiset{last};
  }

  lemma {:induction false} TotalWithout(e: Element, b: seq<Term>, i: nat, z: (Term, nat) -> nat)
    requires i < |b|
    ensures Total(e, b, z) == Total(e, b[..i] + b[i + 1..], z) + Contribution(e, b[i], z)
  {
    var last := |b| - 1;
    if i == last {
      assert b[..i] + b[i + 1..] == b[..last];
    } else {
      TotalWithout(e, b[..last], i, z);
      assert b[..last][..i] == b[..i];
      assert (b[..i] + b[i + 1..])[..last - 1] == b[..last][..i] + b[..last][i + 1..];
      assert (b[..i] + b[i + 1..])[last - 1] == b[last];
    }
  }

  ghost predicate Monotone(z: (Term, nat) -> nat) {
    forall t, v: nat, w: nat :: v <= w ==> z(t, v) <= z(t, w)
  }

  lemma BelowValues(a: Element, b: Element, s: string, k: string)
    requires Below(a, b)
    ensures ValueAt(a, s, k) <= ValueAt(b, s, k)
  {
    FirstAt(a, s, k);
  }

  // How many quantiles in turn the value reaches, until one it does not.
  function Reached(v: nat, quantiles: seq<nat>): nat {
    if quantiles == [] || v < quantiles[0] then 0 else 1 + Reached(v, quantiles[1..])
  }

  // A raw reading is the value; a quantile reading is a thousand for each quantile reached in
  // turn; a robust one is nothing up to the median, and the logarithmic score above it.
  lemma CalibratedReads(v: nat, term: Term, z: (Term, nat) -> nat)
    ensures term.mode.Raw? || term.mode.Other? ==> Calibrated(v, term, z) == v
    ensures term.mode.Quantile? ==> Calibrated(v, term, z) == 1000 * Reached(v, [term.q80, term.q95, term.q99])
    ensures term.mode.RobustZ? && v <= term.median ==> Calibrated(v, term, z) == 0
    ensures term.mode.RobustZ? && v > term.median ==> Calibrated(v, term, z) == z(term, v)
  {
    var q, r := [term.q80, term.q95, term.q99], [term.q95, term.q99];
    assert q[1..] == r && r[1..] == [term.q99] && [term.q99][1..] == [];
    assert Reached(v, [term.q99]) == if v < term.q99 then 0 else 1;
    assert Reached(v, r) == if v < term.q95 then 0 else 1 + Reached(v, [term.q99]);
    assert Reached(v, q) == if v < term.q80 then 0 else 1 + Reached(v, r);
  }

  // Multiplying by a fraction rounds down and stops at the largest 64-bit number, which a zero
  // denominator gives at once.
  lemma MulDivExact(v: nat, numerator: nat, denominator: nat)
    ensures var r := SaturatingMulDiv(v, numerator, denominator);
            && r <= U64_MAX
            && (denominator == 0 ==> r == U64_MAX)
            && (denominator != 0 ==> r * denominator <= v * numerator)
            && (denominator != 0 && r < U64_MAX ==> v * numerator < (r + 1) * denominator)
  {
    if denominator != 0 {
      Floor(v * numerator, denominator);
      var q := v * numerator / denominator;
      if q > U64_MAX {
        MulMonotone(denominator, U64_MAX, q);
        Commute(denominator, U64_MAX);
        Commute(denominator, q);
      }
    }
  }

  lemma Floor(a: nat, d: nat)
    requires d > 0
    ensures a / d * d <= a < (a / d + 1) * d
  {
    assert a == d * (a / d) + a % d;
  }

  lemma Commute(a: nat, b: nat)
    ensures a * b == b * a
  {
  }

  // What a term contributes is its calibrated value times its fraction.
  lemma ContributionExact(e: Element, term: Term, z: (Term, nat) -> nat)
    ensures var c, v := Contribution(e, term, z), Calibrated(ValueAt(e, term.space, term.component), term, z);
            && (term.denominator != 0 ==> c * term.denominator <= v * term.numerator)
            && (term.denominator != 0 && c < U64_MAX ==> v * term.numerator < (c + 1) * term.denominator)
            && (term.denominator == 0 ==> c == U64_MAX)
  {
    hide Calibrated, ValueAt, SaturatingMulDiv;
    MulDivExact(Calibrated(ValueAt(e, term.space, term.component), term, z), term.numerator, term.denominator);
  }

  lemma CalibratedMonotone(v: nat, w: nat, term: Term, z: (Term, nat) -> nat)
    requires v <= w && Monotone(z)
    ensures Calibrated(v, term, z) <= Calibrated(w, term, z)
  {
  }

  lemma MulDivMonotone(v: nat, w: nat, numerator: nat, denominator: nat)
    requires v <= w
    ensures SaturatingMulDiv(v, numerator, denominator) <= SaturatingMulDiv(w, numerator, denominator)
  {
    if denominator != 0 {
      assert v * numerator <= w * numerator;
      DivMonotone(v * numerator, w * numerator, denominator);
    }
  }

  lemma MulMonotone(d: nat, x: nat, y: nat)
    requires x <= y
    ensures d * x <= d * y
  {
  }

  lemma DivMonotone(a: nat, b: nat, d: nat)
    requires a <= b && d > 0
    ensures a / d <= b / d
  {
    var p, q := a / d, b / d;
    assert a == d * p + a % d && b == d * q + b % d;
    if p > q {
      MulMonotone(d, q + 1, p);
    }
  }

  // A larger element never projects to a smaller score.
  lemma {:induction false} ProjectMonotone(a: Element, b: Element, terms: seq<Term>, z: (Term, nat) -> nat)
    requires Below(a, b) && Monotone(z)
    ensures Total(a, terms, z) <= Total(b, terms, z)
    ensures Min(Total(a, terms, z), U64_MAX) <= Min(Total(b, terms, z), U64_MAX)
  {
    hide Below, Monotone, ValueAt, Calibrated, SaturatingMulDiv;
    if terms != [] {
      var last := terms[|terms| - 1];
      ProjectMonotone(a, b, terms[..|terms| - 1], z);
      BelowValues(a, b, last.space, last.component);
      CalibratedMonotone(ValueAt(a, last.space, last.component), ValueAt(b, last.space, last.component), last, z);
      MulDivMonotone(Calibrated(ValueAt(a, last.space, last.component), last, z),
                     Calibrated(ValueAt(b, last.space, last.component), last, z), last.numerator, last.denominator);
    }
  }
}
