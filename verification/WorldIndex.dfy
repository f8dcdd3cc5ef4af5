// The pointer index of a world: for every object and relation the active pointers, by id.

module WorldIndex {
  import opened Wrappers
  import opened Model
  import opened Overlay

  // ---- the scan the index must agree with

  function OutIds(pointers: seq<Pointer>, epoch: nat, id: ObjectId): (r: seq<nat>)
    ensures |r| == Outgoing(pointers, epoch, id)
  {
    if pointers == [] then []
    else
      var p, rest := pointers[|pointers| - 1], OutIds(pointers[..|pointers| - 1], epoch, id);
      if ActiveAt(p, epoch) && p.from == id then rest + [p.id] else rest
  }

  function InIds(pointers: seq<Pointer>, epoch: nat, id: ObjectId): (r: seq<nat>)
    ensures |r| == Incoming(pointers, epoch, id)
  {
    if pointers == [] then []
    else
      var p, rest := pointers[|pointers| - 1], InIds(pointers[..|pointers| - 1], epoch, id);
      if ActiveAt(p, epoch) && p.to == id then rest + [p.id] else rest
  }

  function RelationIds(pointers: seq<Pointer>, epoch: nat, relation: nat): seq<nat> {
    if pointers == [] then []
    else
      var p, rest := pointers[|pointers| - 1], RelationIds(pointers[..|pointers| - 1], epoch, relation);
      if ActiveAt(p, epoch) && p.relation == relation then rest + [p.id] else rest
  }

  // ---- ascending order

  function PlaceId(ids: seq<nat>, id: nat): seq<nat> {
    if ids == [] then [id]
    else if ids[0] < id then [ids[0]] + PlaceId(ids[1..], id)
    else [id] + ids
  }

  function Ascending(ids: seq<nat>): seq<nat> {
    if ids == [] then [] else PlaceId(Ascending(ids[..|ids| - 1]), ids[|ids| - 1])
  }

  predicate InOrder(ids: seq<nat>) {
    forall i, j :: 0 <= i < j < |ids| ==> ids[i] <= ids[j]
  }

  lemma {:induction false} PlaceSame(ids: seq<nat>, id: nat)
    ensures multiset(PlaceId(ids, id)) == multiset(ids) + multiset{id}
  {
    if ids != [] {
      assert ids == [ids[0]] + ids[1..];
      if ids[0] < id {
        PlaceSame(ids[1..], id);
      }
    }
  }

  lemma {:induction false} PlaceOrders(ids: seq<nat>, id: nat)
    requires InOrder(ids)
    ensures InOrder(PlaceId(ids, id)) && forall x :: x in PlaceId(ids, id) ==> x in ids || x == id
  {
    if ids != [] && ids[0] < id {
      PlaceOrders(ids[1..], id);
      var rest := PlaceId(ids[1..], id);
      forall j | 0 <= j < |rest| ensures ids[0] <= rest[j] {
        assert rest[j] in rest;
        assert rest[j] in ids[1..] || rest[j] == id;
      }
    }
  }

  lemma NothingOrders()
    ensures InOrder([])
  {
  }

  // The same ids, in ascending order.
  lemma {:induction false} AscendingOrders(ids: seq<nat>)
    ensures InOrder(Ascending(ids)) && multiset(Ascending(ids)) == multiset(ids) && |Ascending(ids)| == |ids|
  {
    hide InOrder;
    if ids == [] {
      NothingOrders();
    } else {
      var rest, last := ids[..|ids| - 1], ids[|ids| - 1];
      AscendingOrders(rest);
      PlaceOrders(Ascending(rest), last);
      PlaceSame(Ascending(rest), last);
      assert ids == rest + [last];
      assert |multiset(Ascending(ids))| == |multiset(ids)|;
    }
  }

  // ---- maps from a key to a list

  function Lookup<K(==)>(m: map<K, seq<nat>>, key: K): seq<nat> {
    if key in m then m[key] else []
  }

  function Pushed<K(==)>(m: map<K, seq<nat>>, key: K, id: nat): map<K, seq<nat>> {
    m[key := Lookup(m, key) + [id]]
  }

  // Sorts every list of the map.
  method SortAll<K(==)>(m: map<K, seq<nat>>) returns (r: map<K, seq<nat>>)
    ensures forall key :: Lookup(r, key) == Ascending(Lookup(m, key))
  {
    r := m;
    var keys := m.Keys;
    while keys != {}
      invariant keys <= m.Keys && r.Keys == m.Keys
      invariant forall key :: key in m ==> r[key] == if key in keys then m[key] else Ascending(m[key])
      decreases keys
    {
      var key :| key in keys;
      r := r[key := Ascending(r[key])];
      keys := keys - {key};
    }
  }

  ghost predicate OutAgrees(m: map<ObjectId, seq<nat>>, pointers: seq<Pointer>, epoch: nat) {
    forall id :: Lookup(m, id) == OutIds(pointers, epoch, id)
  }

  ghost predicate InAgrees(m: map<ObjectId, seq<nat>>, pointers: seq<Pointer>, epoch: nat) {
    forall id :: Lookup(m, id) == InIds(pointers, epoch, id)
  }

  ghost predicate RelationAgrees(m: map<nat, seq<nat>>, pointers: seq<Pointer>, epoch: nat) {
    forall r: nat :: Lookup(m, r) == RelationIds(pointers, epoch, r)
  }

  // One pointer more: pushed when it is active, and otherwise no change.
  lemma Scanned(out: map<ObjectId, seq<nat>>, into: map<ObjectId, seq<nat>>, relation: map<nat, seq<nat>>,
                pointers: seq<Pointer>, i: nat, epoch: nat)
    requires i < |pointers| && OutAgrees(out, pointers[..i], epoch) && InAgrees(into, pointers[..i], epoch)
    requires RelationAgrees(relation, pointers[..i], epoch)
    ensures var p := pointers[i];
            if ActiveAt(p, epoch)
            then OutAgrees(Pushed(out, p.from, p.id), pointers[..i + 1], epoch) &&
              InAgrees(Pushed(into, p.to, p.id), pointers[..i + 1], epoch) &&
                 RelationAgrees(Pushed(relation, p.relation, p.id), pointers[..i + 1], epoch)
            else OutAgrees(out, pointers[..i + 1], epoch) && InAgrees(into, pointers[..i + 1], epoch) &&
                 RelationAgrees(relation, pointers[..i + 1], epoch)
  {
    hide ActiveAt;
    var p, more, less := pointers[i], pointers[..i + 1], pointers[..i];
    assert |more| == i + 1 && more[..i] == less && more[i] == p;
    if ActiveAt(p, epoch) {
      forall id ensures Lookup(Pushed(out, p.from, p.id), id) == OutIds(more, epoch, id) {
        assert Lookup(out, id) == OutIds(less, epoch, id);
      }
      forall id ensures Lookup(Pushed(into, p.to, p.id), id) == InIds(more, epoch, id) {
        assert Lookup(into, id) == InIds(less, epoch, id);
      }
      forall r: nat ensures Lookup(Pushed(relation, p.relation, p.id), r) == RelationIds(more, epoch, r) {
        assert Lookup(relation, r) == RelationIds(less, epoch, r);
      }
    }
  }

  class PointerIndex {
    var outgoing: map<ObjectId, seq<nat>>
    var incoming: map<ObjectId, seq<nat>>
    var relation: map<nat, seq<nat>>

    // Every lookup is the sorted scan of the active pointers.
    ghost predicate Agrees(pointers: seq<Pointer>, epoch: nat)
      reads this
    {
      && (forall id :: Lookup(outgoing, id) == Ascending(OutIds(pointers, epoch, id)))
      && (forall id :: Lookup(incoming, id) == Ascending(InIds(pointers, epoch, id)))
      && (forall r: nat :: Lookup(relation, r) == Ascending(RelationIds(pointers, epoch, r)))
    }

    constructor ()
      ensures outgoing == incoming == map[] && relation == map[]
    {
      outgoing, incoming, relation := map[], map[], map[];
    }

    method Rebuild(snapshot: Snapshot)
      modifies this
      ensures Agrees(snapshot.pointers, snapshot.epoch)
    {
      hide Ascending, ActiveAt, Pushed, OutAgrees, InAgrees, RelationAgrees;
      outgoing, incoming, relation := map[], map[], map[];
      var pointers := snapshot.pointers;
      NothingScanned(snapshot.epoch);
      assert pointers[..0] == [];
      for i := 0 to |pointers|
        invariant OutAgrees(outgoing, pointers[..i], snapshot.epoch) &&
                  InAgrees(incoming, pointers[..i], snapshot.epoch)
        invariant RelationAgrees(relation, pointers[..i], snapshot.epoch)
      {
        Scanned(outgoing, incoming, relation, pointers, i, snapshot.epoch);
        if ActiveAt(pointers[i], snapshot.epoch) {
          outgoing := Pushed(outgoing, pointers[i].from, pointers[i].id);
          incoming := Pushed(incoming, pointers[i].to, pointers[i].id);
          relation := Pushed(relation, pointers[i].relation, pointers[i].id);
        }
      }
      assert pointers[..|pointers|] == pointers;
      AllScanned(outgoing, incoming, relation, pointers, snapshot.epoch);
      outgoing := SortAll(outgoing);
      incoming := SortAll(incoming);
      relation := SortAll(relation);
    }
  }

  lemma NothingScanned(epoch: nat)
    ensures OutAgrees(map[], [], epoch) && InAgrees(map[], [], epoch) && RelationAgrees(map[], [], epoch)
  {
  }

  lemma AllScanned(out: map<ObjectId, seq<nat>>, into: map<ObjectId, seq<nat>>, relation: map<nat, seq<nat>>,
                   pointers: seq<Pointer>, epoch: nat)
    requires OutAgrees(out, pointers, epoch) && InAgrees(into, pointers, epoch) &&
             RelationAgrees(relation, pointers, epoch)
    ensures forall id :: Lookup(out, id) == OutIds(pointers, epoch, id)
    ensures forall id :: Lookup(into, id) == InIds(pointers, epoch, id)
    ensures forall r: nat :: Lookup(relation, r) == RelationIds(pointers, epoch, r)
  {
  }
}
