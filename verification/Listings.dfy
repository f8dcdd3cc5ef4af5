// Attribute maps and their listings: the sorted list of a map's entries, which is what a
// snapshot stores, and how keyed updates of the two correspond.

module Listings {
  import opened Wrappers
  import opened Model
  import opened Attributes

  predicate KeySorted(s: seq<Attribute>) {
    forall i, j :: 0 <= i < j < |s| ==> CompareString(s[i].key, s[j].key) < 0
  }

  predicate UniqueKeys(s: seq<Attribute>) {
    forall i, j :: 0 <= i < j < |s| ==> s[i].key != s[j].key
  }

  // The list holds exactly the entries of the map, each once.
  ghost predicate Lists(s: seq<Attribute>, m: map<string, Value>) {
    && UniqueKeys(s)
    && (forall i :: 0 <= i < |s| ==> s[i].key in m && m[s[i].key] == s[i].value)
    && (forall k :: k in m ==> HasKey(s, k))
  }

  lemma KeysUnique(s: seq<Attribute>)
    requires KeySorted(s)
    ensures UniqueKeys(s)
  {
    forall i, j | 0 <= i < j < |s| ensures s[i].key != s[j].key {
      StringOrder(s[i].key, s[j].key);
    }
  }

  lemma FirstSame(a: seq<Attribute>, b: seq<Attribute>, m: map<string, Value>)
    requires KeySorted(a) && KeySorted(b) && Lists(a, m) && Lists(b, m) && a != []
    ensures b != [] && a[0] == b[0]
  {
    hide CompareString;
    assert HasKey(b, a[0].key);
    var j :| 0 <= j < |b| && b[j].key == a[0].key;
    assert b[0].key in m;
    assert HasKey(a, b[0].key);
    var i :| 0 <= i < |a| && a[i].key == b[0].key;
    StringOrder(a[0].key, b[0].key);
  }

  // Only one sorted list holds the entries of a map.
  lemma {:induction false} ListingUnique(a: seq<Attribute>, b: seq<Attribute>, m: map<string, Value>)
    requires KeySorted(a) && KeySorted(b) && Lists(a, m) && Lists(b, m)
    ensures a == b
    decreases |a|
  {
    hide CompareString, KeySorted, Lists;
    if a != [] {
      FirstSame(a, b, m);
      RestLists(a, m);
      RestLists(b, m);
      ListingUnique(a[1..], b[1..], m - {a[0].key});
      assert a == [a[0]] + a[1..] && b == [b[0]] + b[1..];
    } else if b != [] {
      FirstSame(b, a, m);
    }
  }

  lemma RestLists(s: seq<Attribute>, m: map<string, Value>)
    requires s != [] && KeySorted(s) && Lists(s, m)
    ensures KeySorted(s[1..]) && Lists(s[1..], m - {s[0].key})
  {
    var rest, less := s[1..], m - {s[0].key};
    assert forall i :: 0 <= i < |rest| ==> rest[i] == s[i + 1];
    forall k | k in less ensures HasKey(rest, k) {
      assert HasKey(s, k);
      var i :| 0 <= i < |s| && s[i].key == k;
      assert rest[i - 1].key == k;
    }
  }

  lemma {:induction false} InsertSorted(x: Attribute, s: seq<Attribute>)
    requires KeySorted(s) && !HasKey(s, x.key)
    ensures KeySorted(Insert(x, s)) && |Insert(x, s)| == |s| + 1
    ensures forall a :: a in Insert(x, s) <==> a in s || a == x
  {
    if s != [] {
      StringOrder(x.key, s[0].key);
      assert s[0].key != x.key;
      assert s == [s[0]] + s[1..];
      if Le(x, s[0]) {
        forall j | 0 <= j < |s| ensures CompareString(x.key, s[j].key) < 0 {
          if j > 0 {
            StringTrans(x.key, s[0].key, s[j].key);
          }
        }
      } else {
        assert !HasKey(s[1..], x.key) by {
          assert forall i :: 0 <= i < |s[1..]| ==> s[1..][i] == s[i + 1];
        }
        InsertSorted(x, s[1..]);
        var rest := Insert(x, s[1..]);
        forall j | 0 <= j < |rest| ensures CompareString(s[0].key, rest[j].key) < 0 {
          assert rest[j] in rest;
          assert rest[j] == x || rest[j] in s[1..];
          StringOrder(s[0].key, x.key);
        }
      }
    }
  }

  // Sorting a list of unique keys sorts it by key.
  lemma {:induction false} SortedSorts(s: seq<Attribute>)
    requires UniqueKeys(s)
    ensures KeySorted(Sorted(s)) && forall a :: a in Sorted(s) <==> a in s
    ensures |Sorted(s)| == |s|
  {
    if s != [] {
      var rest := s[1..];
      assert forall i :: 0 <= i < |rest| ==> rest[i] == s[i + 1];
      SortedSorts(rest);
      assert forall i :: 0 <= i < |Sorted(rest)| ==> Sorted(rest)[i] in Sorted(rest);
      assert !HasKey(Sorted(rest), s[0].key);
      InsertSorted(s[0], Sorted(rest));
      assert s == [s[0]] + rest;
    }
  }

  lemma SortedLists(s: seq<Attribute>, m: map<string, Value>)
    requires Lists(s, m)
    ensures KeySorted(Sorted(s)) && Lists(Sorted(s), m)
  {
    SortedSorts(s);
    KeysUnique(Sorted(s));
    forall i | 0 <= i < |Sorted(s)| ensures Sorted(s)[i].key in m && m[Sorted(s)[i].key] == Sorted(s)[i].value {
      assert Sorted(s)[i] in s;
    }
    forall k | k in m ensures HasKey(Sorted(s), k) {
      var i :| 0 <= i < |s| && s[i].key == k;
      assert s[i] in Sorted(s);
    }
  }

  // The listing of a map.
  ghost function Listing(m: map<string, Value>): (r: seq<Attribute>)
    ensures KeySorted(r) && Lists(r, m)
    decreases m.Keys
  {
    if m == map[] then []
    else
      var k :| k in m;
      var rest := Listing(m - {k});
      ListingGrows(rest, m - {k}, k, m[k]);
      assert (m - {k})[k := m[k]] == m;
      Insert(Attribute(k, m[k]), rest)
  }

  lemma ListingGrows(s: seq<Attribute>, m: map<string, Value>, k: string, v: Value)
    requires KeySorted(s) && Lists(s, m) && k !in m
    ensures KeySorted(Insert(Attribute(k, v), s)) && Lists(Insert(Attribute(k, v), s), m[k := v])
  {
    var x := Attribute(k, v);
    InsertSorted(x, s);
    var r := Insert(x, s);
    KeysUnique(r);
    forall i | 0 <= i < |r| ensures r[i].key in m[k := v] && m[k := v][r[i].key] == r[i].value {
      assert r[i] in r;
    }
    forall j | j in m[k := v] ensures HasKey(r, j) {
      if j == k {
        assert x in r;
      } else {
        assert HasKey(s, j);
        var i :| 0 <= i < |s| && s[i].key == j;
        assert s[i] in r;
      }
    }
  }

  lemma IsListing(s: seq<Attribute>, m: map<string, Value>)
    requires KeySorted(s) && Lists(s, m)
    ensures s == Listing(m)
  {
    ListingUnique(s, Listing(m), m);
  }

  lemma ListsPush(s: seq<Attribute>, m: map<string, Value>, a: Attribute)
    requires Lists(s, m) && !HasKey(s, a.key)
    ensures Lists(s + [a], m[a.key := a.value])
  {
    var t, m' := s + [a], m[a.key := a.value];
    assert t[|s|] == a;
    assert forall i :: 0 <= i < |s| ==> t[i] == s[i];
    forall k | k in m' ensures HasKey(t, k) {
      if k != a.key {
        assert HasKey(s, k);
        var i :| 0 <= i < |s| && s[i].key == k;
        assert t[i].key == k;
      }
    }
  }

  lemma ListsPut(s: seq<Attribute>, m: map<string, Value>, i: nat, a: Attribute)
    requires Lists(s, m) && i < |s| && s[i].key == a.key
    ensures Lists(s[i := a], m[a.key := a.value])
  {
    var t, m' := s[i := a], m[a.key := a.value];
    assert forall j :: 0 <= j < |s| ==> t[j].key == s[j].key;
    forall k | k in m' ensures HasKey(t, k) {
      if k != a.key {
        assert HasKey(s, k);
        var j :| 0 <= j < |s| && s[j].key == k;
        assert t[j].key == k;
      } else {
        assert t[i].key == k;
      }
    }
  }

  // Setting a key of the list sets it in the map.
  lemma SetListing(m: map<string, Value>, a: Attribute)
    ensures SetAttribute(Listing(m), a) == Listing(m[a.key := a.value])
  {
    hide Sorted, KeySorted, Lists, Listing;
    var s, m' := Listing(m), m[a.key := a.value];
    match FindKey(s, a.key)
    case None =>
      ListsPush(s, m, a);
      SortedLists(s + [a], m');
      IsListing(Sorted(s + [a]), m');
    case Some(i) =>
      ListsPut(s, m, i, a);
      SortedLists(s[i := a], m');
      IsListing(Sorted(s[i := a]), m');
  }

  lemma {:induction false} RemoveIn(s: seq<Attribute>, key: string)
    ensures forall a :: a in RemoveAttribute(s, key) <==> a in s && a.key != key
  {
    if s != [] {
      RemoveIn(s[1..], key);
      assert s == [s[0]] + s[1..];
    }
  }

  lemma {:induction false} RemoveElems(s: seq<Attribute>, key: string)
    requires KeySorted(s)
    ensures KeySorted(RemoveAttribute(s, key))
    ensures forall a :: a in RemoveAttribute(s, key) <==> a in s && a.key != key
  {
    hide KeySorted;
    RemoveIn(s, key);
    if s != [] {
      TailSorted(s);
      RemoveElems(s[1..], key);
      RemoveIn(s[1..], key);
      if s[0].key != key {
        ConsSorted(s[0], RemoveAttribute(s[1..], key));
      }
    }
  }

  lemma TailSorted(s: seq<Attribute>)
    requires KeySorted(s) && s != []
    ensures KeySorted(s[1..]) && forall a :: a in s[1..] ==> CompareString(s[0].key, a.key) < 0
  {
    hide CompareString;
    assert forall i :: 0 <= i < |s[1..]| ==> s[1..][i] == s[i + 1];
  }

  lemma ConsSorted(x: Attribute, s: seq<Attribute>)
    requires KeySorted(s) && forall a :: a in s ==> CompareString(x.key, a.key) < 0
    ensures KeySorted([x] + s)
  {
    hide CompareString;
  }

  // Removing a key of the list removes it from the map.
  lemma RemoveListing(m: map<string, Value>, key: string)
    ensures RemoveAttribute(Listing(m), key) == Listing(m - {key})
  {
    hide CompareString, KeySorted;
    var s, m' := Listing(m), m - {key};
    var t := RemoveAttribute(s, key);
    RemoveElems(s, key);
    KeysUnique(t);
    forall i | 0 <= i < |t| ensures t[i].key in m' && m'[t[i].key] == t[i].value {
      assert t[i] in t;
    }
    forall k | k in m' ensures HasKey(t, k) {
      assert HasKey(s, k);
      var i :| 0 <= i < |s| && s[i].key == k;
      assert s[i] in t;
    }
    IsListing(t, m');
  }

  // ---- assigning a list of attributes one after the other

  function Assigned(m: map<string, Value>, s: seq<Attribute>): map<string, Value> {
    if s == [] then m
    else
      var last := s[|s| - 1];
      Assigned(m, s[..|s| - 1])[last.key := last.value]
  }

  lemma {:induction false} AssignedLists(s: seq<Attribute>)
    requires UniqueKeys(s)
    ensures Lists(s, Assigned(map[], s))
  {
    if s != [] {
      var less, last := s[..|s| - 1], s[|s| - 1];
      AssignedLists(less);
      assert !HasKey(less, last.key);
      ListsPush(less, Assigned(map[], less), last);
      assert s == less + [last];
    }
  }

  // Sorting the list agrees with assigning it to a map exactly when no key is repeated.
  lemma AssignAgrees(s: seq<Attribute>)
    ensures Sorted(s) == Listing(Assigned(map[], s)) <==> UniqueKeys(s)
  {
    var m := Assigned(map[], s);
    if UniqueKeys(s) {
      AssignedLists(s);
      SortedLists(s, m);
      IsListing(Sorted(s), m);
    } else if Sorted(s) == Listing(m) {
      SortedSame(s);
      KeysUnique(Sorted(s));
      SameKeys(s, Sorted(s));
    }
  }

  lemma {:induction false} SortedSame(s: seq<Attribute>)
    ensures multiset(Sorted(s)) == multiset(s)
  {
    if s != [] {
      SortedSame(s[1..]);
      InsertSame(s[0], Sorted(s[1..]));
      assert s == [s[0]] + s[1..];
    }
  }

  lemma {:induction false} InsertSame(x: Attribute, s: seq<Attribute>)
    ensures multiset(Insert(x, s)) == multiset(s) + multiset{x}
  {
    if s != [] {
      assert s == [s[0]] + s[1..];
      if !Le(x, s[0]) {
        InsertSame(x, s[1..]);
      }
    }
  }

  // A rearrangement of a list repeats a key when the list does.
  lemma SameKeys(s: seq<Attribute>, t: seq<Attribute>)
    requires multiset(s) == multiset(t) && UniqueKeys(t)
    ensures UniqueKeys(s)
  {
    forall i, j | 0 <= i < j < |s| ensures s[i].key != s[j].key {
      if s[i].key == s[j].key {
        assert s[i] in multiset(t) && s[j] in multiset(t);
        if s[i] == s[j] {
          Twice(s, i, j);
          Once(t, s[i]);
        }
      }
    }
  }

  lemma Twice(s: seq<Attribute>, i: nat, j: nat)
    requires i < j < |s| && s[i] == s[j]
    ensures multiset(s)[s[i]] >= 2
  {
    assert s == s[..i] + [s[i]] + s[i + 1..j] + [s[j]] + s[j + 1..];
  }

  lemma {:induction false} Once(t: seq<Attribute>, a: Attribute)
    requires UniqueKeys(t)
    ensures multiset(t)[a] <= 1
  {
    if t != [] {
      assert t == [t[0]] + t[1..];
      Once(t[1..], a);
      if a == t[0] {
        assert forall i :: 0 <= i < |t[1..]| ==> t[1..][i] == t[i + 1];
        assert a !in t[1..];
      }
    }
  }
}
