// The order on attributes is total, so an attribute list has one sorted form.

module AttributeOrder {
  import opened Model
  import opened Attributes
  import Listings

  lemma ValueOrder(a: Value, b: Value)
    ensures CompareValue(a, b) == 0 <==> a == b
    ensures CompareValue(a, b) == -CompareValue(b, a)
  {
    match a
    case String(x) => if b.String? { StringOrder(x, b.s); }
    case _ =>
  }

  lemma ValueTrans(a: Value, b: Value, c: Value)
    requires CompareValue(a, b) <= 0 && CompareValue(b, c) <= 0
    ensures CompareValue(a, c) <= 0
  {
    hide CompareString;
    if a.String? && b.String? && c.String? {
      StringTrans(a.s, b.s, c.s);
    }
  }

  lemma Order(a: Attribute, b: Attribute)
    ensures Le(a, b) || Le(b, a)
    ensures Le(a, b) && Le(b, a) ==> a == b
  {
    hide CompareString, CompareValue;
    StringOrder(a.key, b.key);
    StringOrder(b.key, a.key);
    ValueOrder(a.value, b.value);
  }

  lemma Trans(a: Attribute, b: Attribute, c: Attribute)
    requires Le(a, b) && Le(b, c)
    ensures Le(a, c)
  {
    hide CompareString, CompareValue;
    StringOrder(a.key, b.key);
    StringOrder(b.key, c.key);
    StringOrder(a.key, c.key);
    StringOrder(b.key, a.key);
    if a.key == b.key == c.key {
      ValueTrans(a.value, b.value, c.value);
    } else {
      if a.key != b.key && b.key != c.key {
        StringTrans(a.key, b.key, c.key);
      }
    }
  }

  ghost predicate Ordered(s: seq<Attribute>) {
    forall i, j :: 0 <= i < j < |s| ==> Le(s[i], s[j])
  }

  // In order, keys ascend as texts do.
  lemma KeysAscend(s: seq<Attribute>, i: nat, j: nat)
    requires Ordered(s) && i < j < |s|
    ensures s[i].key == s[j].key || StringBelow(s[i].key, s[j].key)
  {
    assert Le(s[i], s[j]);
    StringOrder(s[i].key, s[j].key);
    StringExact(s[i].key, s[j].key);
  }

  lemma OrderedTail(s: seq<Attribute>)
    requires s != [] && Ordered(s)
    ensures Ordered(s[1..]) && forall a :: a in s[1..] ==> Le(s[0], a)
  {
    hide Le;
    assert forall i :: 0 <= i < |s[1..]| ==> s[1..][i] == s[i + 1];
  }

  lemma OneOrdered(x: Attribute)
    ensures Ordered([x])
  {
  }

  lemma {:induction false} InsertOrdered(x: Attribute, s: seq<Attribute>)
    requires Ordered(s)
    ensures Ordered(Insert(x, s))
  {
    hide Le, Ordered;
    if s == [] {
      OneOrdered(x);
    } else {
      OrderedTail(s);
      assert s == [s[0]] + s[1..];
      if Le(x, s[0]) {
        forall a | a in s ensures Le(x, a) {
          if a != s[0] {
            Trans(x, s[0], a);
          }
        }
        OrderedCons(x, s);
      } else {
        InsertOrdered(x, s[1..]);
        Listings.InsertSame(x, s[1..]);
        Order(x, s[0]);
        forall a | a in Insert(x, s[1..]) ensures Le(s[0], a) {
          assert a in multiset(Insert(x, s[1..]));
        }
        OrderedCons(s[0], Insert(x, s[1..]));
      }
    }
  }

  lemma OrderedCons(x: Attribute, s: seq<Attribute>)
    requires Ordered(s) && forall a :: a in s ==> Le(x, a)
    ensures Ordered([x] + s)
  {
    hide Le;
  }

  lemma {:induction false} SortedOrdered(s: seq<Attribute>)
    ensures Ordered(Sorted(s))
  {
    if s != [] {
      SortedOrdered(s[1..]);
      InsertOrdered(s[0], Sorted(s[1..]));
    }
  }

  lemma TailSame(s: seq<Attribute>)
    requires s != []
    ensures multiset(s[1..]) == multiset(s) - multiset{s[0]}
  {
    assert s == [s[0]] + s[1..];
  }

  lemma SameFirst(a: seq<Attribute>, b: seq<Attribute>)
    requires Ordered(a) && Ordered(b) && multiset(a) == multiset(b) && a != [] && b != []
    ensures a[0] == b[0]
  {
    hide Le, Ordered;
    assert a == [a[0]] + a[1..] && b == [b[0]] + b[1..];
    OrderedTail(a);
    OrderedTail(b);
    assert a[0] in multiset(b) && b[0] in multiset(a);
    Order(a[0], b[0]);
  }

  lemma {:induction false} OrderedUnique(a: seq<Attribute>, b: seq<Attribute>)
    requires Ordered(a) && Ordered(b) && multiset(a) == multiset(b)
    ensures a == b
    decreases |a|
  {
    hide Le, Ordered;
    assert |multiset(a)| == |a| && |multiset(b)| == |b|;
    if a != [] {
      SameFirst(a, b);
      TailSame(a);
      TailSame(b);
      OrderedTail(a);
      OrderedTail(b);
      OrderedUnique(a[1..], b[1..]);
      assert a == [a[0]] + a[1..] && b == [b[0]] + b[1..];
    }
  }

  // Two lists sort alike exactly when one rearranges the other.
  lemma SortedSame(a: seq<Attribute>, b: seq<Attribute>)
    ensures Sorted(a) == Sorted(b) <==> multiset(a) == multiset(b)
  {
    hide Ordered;
    Listings.SortedSame(a);
    Listings.SortedSame(b);
    if multiset(a) == multiset(b) {
      SortedOrdered(a);
      SortedOrdered(b);
      OrderedUnique(Sorted(a), Sorted(b));
    }
  }

  lemma SortedTwice(s: seq<Attribute>)
    ensures Sorted(Sorted(s)) == Sorted(s)
  {
    Listings.SortedSame(s);
    SortedSame(Sorted(s), s);
  }
}
