// Sorting lists by a key, a pair compared left part first: the list of distinct keys that
// ascends is unique.

module KeySort {

  type Key = (nat, nat)

  predicate Less(a: Key, b: Key) {
    a.0 < b.0 || (a.0 == b.0 && a.1 < b.1)
  }

  function Placed<T>(key: T -> Key, x: T, xs: seq<T>): seq<T> {
    if xs == [] || Less(key(x), key(xs[0])) then [x] + xs else [xs[0]] + Placed(key, x, xs[1..])
  }

  function Arranged<T>(key: T -> Key, xs: seq<T>): seq<T> {
    if xs == [] then [] else Placed(key, xs[0], Arranged(key, xs[1..]))
  }

  ghost predicate Ascending<T>(key: T -> Key, xs: seq<T>) {
    forall i, j :: 0 <= i < j < |xs| ==> Less(key(xs[i]), key(xs[j]))
  }

  ghost predicate Distinct<T>(key: T -> Key, xs: seq<T>) {
    forall i, j :: 0 <= i < j < |xs| ==> key(xs[i]) != key(xs[j])
  }

  ghost predicate SameElements<T(!new)>(a: seq<T>, b: seq<T>) {
    forall x :: x in a <==> x in b
  }

  lemma ShortAscends<T>(key: T -> Key, xs: seq<T>)
    requires |xs| <= 1
    ensures Ascending(key, xs)
  {
  }

  lemma {:induction false} PlacedIn<T(!new)>(key: T -> Key, x: T, xs: seq<T>)
    ensures SameElements(Placed(key, x, xs), xs + [x]) && |Placed(key, x, xs)| == |xs| + 1
  {
    if xs != [] {
      assert xs == [xs[0]] + xs[1..];
      PlacedIn(key, x, xs[1..]);
      assert forall y :: y in xs[1..] + [x] <==> y in Placed(key, x, xs[1..]);
    }
  }

  lemma AscendingTail<T>(key: T -> Key, xs: seq<T>)
    requires xs != [] && Ascending(key, xs)
    ensures Ascending(key, xs[1..])
    ensures forall y :: y in xs[1..] ==> Less(key(xs[0]), key(y))
  {
    assert forall i :: 0 <= i < |xs[1..]| ==> xs[1..][i] == xs[i + 1];
  }

  lemma AscendingCons<T>(key: T -> Key, x: T, xs: seq<T>)
    requires Ascending(key, xs) && forall y :: y in xs ==> Less(key(x), key(y))
    ensures Ascending(key, [x] + xs)
  {
  }

  lemma {:induction false} PlacedAscends<T(!new)>(key: T -> Key, x: T, xs: seq<T>)
    requires Ascending(key, xs) && forall y :: y in xs ==> key(y) != key(x)
    ensures Ascending(key, Placed(key, x, xs))
  {
    hide Ascending;
    if xs == [] {
      ShortAscends(key, [x]);
      assert [x] + xs == [x];
    } else if Less(key(x), key(xs[0])) {
      AscendingTail(key, xs);
      assert xs == [xs[0]] + xs[1..];
      AscendingCons(key, x, xs);
    } else {
      AscendingTail(key, xs);
      PlacedAscends(key, x, xs[1..]);
      PlacedIn(key, x, xs[1..]);
      assert forall y :: y in Placed(key, x, xs[1..]) ==> y in xs[1..] + [x];
      AscendingCons(key, xs[0], Placed(key, x, xs[1..]));
    }
  }

  // Sorting keeps the elements, and sorts those of distinct keys.
  lemma {:induction false} ArrangedSorts<T(!new)>(key: T -> Key, xs: seq<T>)
    ensures SameElements(Arranged(key, xs), xs) && |Arranged(key, xs)| == |xs|
    ensures Distinct(key, xs) ==> Ascending(key, Arranged(key, xs))
  {
    hide Ascending;
    if xs == [] {
      ShortAscends(key, Arranged(key, xs));
    } else {
      assert xs == [xs[0]] + xs[1..];
      var rest := xs[1..];
      ArrangedSorts(key, rest);
      PlacedIn(key, xs[0], Arranged(key, rest));
      assert forall y :: y in Arranged(key, rest) + [xs[0]] <==> y in xs;
      if Distinct(key, xs) {
        assert forall i :: 0 <= i < |rest| ==> rest[i] == xs[i + 1];
        PlacedAscends(key, xs[0], Arranged(key, rest));
      }
    }
  }

  lemma SomeElement<T(!new)>(xs: seq<T>)
    ensures xs == [] || exists x :: x in xs
  {
    if xs != [] {
      assert xs[0] in xs;
    }
  }

  // There is one ascending list of given elements.
  lemma {:induction false} AscendingUnique<T(!new)>(key: T -> Key, a: seq<T>, b: seq<T>)
    requires Ascending(key, a) && Ascending(key, b) && SameElements(a, b)
    ensures a == b
    decreases |a|
  {
    hide Ascending;
    if a == [] {
      SomeElement(b);
    } else {
      assert a[0] in b;
      assert b[0] in a;
      AscendingTail(key, a);
      AscendingTail(key, b);
      assert a == [a[0]] + a[1..] && b == [b[0]] + b[1..];
      assert a[0] == b[0];
      assert a[0] !in a[1..] && b[0] !in b[1..];
      forall y ensures y in a[1..] <==> y in b[1..] {
        assert y in a <==> y in b;
      }
      AscendingUnique(key, a[1..], b[1..]);
    }
  }
}
