// The operations of one kind in a delta, in order.

module OpLists {
  import opened Model
  import opened Overlay

  // The operations of some kind, in order.
  function Those(delta: Delta, p: Op -> bool): Delta {
    if delta == [] then [] else (if p(delta[0]) then [delta[0]] else []) + Those(delta[1..], p)
  }

  lemma {:induction false} ThoseAppend(a: Delta, b: Delta, p: Op -> bool)
    ensures Those(a + b, p) == Those(a, p) + Those(b, p)
  {
    if a == [] {
      assert a + b == b;
    } else {
      assert (a + b)[1..] == a[1..] + b;
      ThoseAppend(a[1..], b, p);
    }
  }

  predicate IsEvent(op: Op) {
    op.EmitEvent?
  }

  predicate IsObjectAssertion(op: Op) {
    op.AssertObject?
  }

  predicate IsPointerAssertion(op: Op) {
    op.AssertPointer?
  }

  predicate IsFactAssertion(op: Op) {
    op.AssertFact?
  }

  // The operation refers to objects, or names one it makes.
  predicate Referring(op: Op) {
    ObjectOp(op) || op.CreateObject? || op.CreatePointer?
  }
}
