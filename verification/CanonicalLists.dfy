// Objects and pointers in canonical order: by id, each with its attributes sorted.

module CanonicalLists {
  import opened Model
  import opened Attributes
  import opened KeySort

  function ObjectKey(o: Object): Key {
    (o.id.index, o.id.generation)
  }

  function PointerKey(p: Pointer): Key {
    (p.id, 0)
  }

  function TidyObject(o: Object): Object {
    o.(attributes := Sorted(o.attributes))
  }

  function TidyPointer(p: Pointer): Pointer {
    p.(attributes := Sorted(p.attributes))
  }

  function Each<T, U>(f: T -> U, xs: seq<T>): seq<U> {
    seq(|xs|, i requires 0 <= i < |xs| => f(xs[i]))
  }

  function CanonicalObjects(objects: seq<Object>): seq<Object> {
    Each(TidyObject, Arranged(ObjectKey, objects))
  }

  function CanonicalPointers(pointers: seq<Pointer>): seq<Pointer> {
    Each(TidyPointer, Arranged(PointerKey, pointers))
  }
}
