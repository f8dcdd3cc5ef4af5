// Attribute lists: the total order on attributes, sorting, and keyed update.

module Attributes {
  import opened Wrappers
  import opened Model

  // -1, 0 or 1, like std::string::compare on the characters.
  function CompareString(a: string, b: string): int {
    if a == [] && b == [] then 0
    else if a == [] then -1
    else if b == [] then 1
    else if a[0] < b[0] then -1
    else if b[0] < a[0] then 1
    else CompareString(a[1..], b[1..])
  }

  lemma {:induction false} StringOrder(a: string, b: string)
    ensures CompareString(a, b) == 0 <==> a == b
    ensures CompareString(a, b) == -CompareString(b, a) && -1 <= CompareString(a, b) <= 1
  {
    if a != [] && b != [] {
      StringOrder(a[1..], b[1..]);
      assert a == [a[0]] + a[1..] && b == [b[0]] + b[1..];
    }
  }

  lemma {:induction false} StringTrans(a: string, b: string, c: string)
    requires CompareString(a, b) <= 0 && CompareString(b, c) <= 0
    ensures CompareString(a, c) <= 0
    ensures CompareString(a, b) < 0 || CompareString(b, c) < 0 ==> CompareString(a, c) < 0
  {
    if a != [] && b != [] && c != [] && a[0] == b[0] == c[0] {
      StringTrans(a[1..], b[1..], c[1..]);
    }
  }

  // One is a proper beginning of the other, or has the smaller character where they first differ.
  ghost predicate StringBelow(a: string, b: string) {
    exists k :: 0 <= k <= |a| && k < |b| && a[..k] == b[..k] && (k == |a| || a[k] < b[k])
  }

  lemma {:induction false} StringExact(a: string, b: string)
    ensures CompareString(a, b) < 0 <==> StringBelow(a, b)
  {
    if a == [] || b == [] {
      if a == [] && b != [] {
        assert a[..0] == b[..0];
      }
    } else {
      assert a[..0] == b[..0];
      StringExact(a[1..], b[1..]);
      if a[0] == b[0] && StringBelow(a[1..], b[1..]) {
        var k :| 0 <= k <= |a[1..]| && k < |b[1..]| && a[1..][..k] == b[1..][..k] &&
          (k == |a[1..]| || a[1..][k] < b[1..][k]);
        assert a[..k + 1] == [a[0]] + a[1..][..k] && b[..k + 1] == [b[0]] + b[1..][..k];
      }
      if StringBelow(a, b) {
        var k :| 0 <= k <= |a| && k < |b| && a[..k] == b[..k] && (k == |a| || a[k] < b[k]);
        if k > 0 {
          assert a[..k][0] == a[0] && b[..k][0] == b[0];
          assert a[1..][..k - 1] == a[..k][1..] && b[1..][..k - 1] == b[..k][1..];
        }
      }
    }
  }

  function CompareInt(a: int, b: int): int {
    if a < b then -1 else if b < a then 1 else 0
  }

  function Kind(v: Value): nat {
    match v
    case Null => 0
    case Bool(_) => 1
    case Int64(_) => 2
    case UInt64(_) => 3
    case Float64(_) => 4
    case String(_) => 5
    case Hash(_) => 6
    case ObjectValue(_) => 7
  }

  function CompareValue(a: Value, b: Value): int {
    if Kind(a) != Kind(b) then CompareInt(Kind(a), Kind(b))
    else match a
      case Null => 0
      case Bool(x) => CompareInt(if x then 1 else 0, if b.b then 1 else 0)
      case Int64(x) => CompareInt(x, b.i)
      case UInt64(x) => CompareInt(x, b.u)
      case Float64(x) => CompareInt(x, b.d)
      case String(x) => CompareString(x, b.s)
      case Hash(x) => CompareInt(x, b.h)
      case ObjectValue(x) =>
        if x.index != b.id.index then CompareInt(x.index, b.id.index)
        else CompareInt(x.generation, b.id.generation)
  }

  function CompareAttribute(a: Attribute, b: Attribute): int {
    if a.key != b.key then CompareString(a.key, b.key) else CompareValue(a.value, b.value)
  }

  predicate Le(a: Attribute, b: Attribute) {
    CompareAttribute(a, b) <= 0
  }

  // ---- sort_attributes: the sorted permutation, which the order makes unique

  function Insert(x: Attribute, s: seq<Attribute>): seq<Attribute> {
    if s == [] then [x]
    else if Le(x, s[0]) then [x] + s
    else [s[0]] + Insert(x, s[1..])
  }

  function Sorted(s: seq<Attribute>): seq<Attribute> {
    if s == [] then [] else Insert(s[0], Sorted(s[1..]))
  }

  predicate HasKey(s: seq<Attribute>, key: string) {
    exists i :: 0 <= i < |s| && s[i].key == key
  }

  // The first position holding the key.
  function FindKey(s: seq<Attribute>, key: string): (r: Option<nat>)
    ensures r.Some? ==> r.value < |s| && s[r.value].key == key && forall j :: 0 <= j < r.value ==> s[j].key != key
    ensures r.None? ==> !HasKey(s, key)
  {
    if s == [] then None
    else if s[0].key == key then Some(0)
    else match FindKey(s[1..], key)
      case None => None
      case Some(i) => Some(i + 1)
  }

  // set_attribute: overwrite the first entry of that key or append, then sort.
  function SetAttribute(s: seq<Attribute>, a: Attribute): seq<Attribute> {
    match FindKey(s, a.key)
    case None => Sorted(s + [a])
    case Some(i) => Sorted(s[i := a])
  }

  // remove_attribute: drop every entry of that key.
  function RemoveAttribute(s: seq<Attribute>, key: string): seq<Attribute> {
    if s == [] then []
    else if s[0].key == key then RemoveAttribute(s[1..], key)
    else [s[0]] + RemoveAttribute(s[1..], key)
  }
}
