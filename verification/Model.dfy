// The values the kernel works on: identifiers, attributes, objects, pointers,
// snapshots and the operations of a delta.

module Wrappers {
  datatype Option<+T> = None | Some(value: T)

  datatype Result<+R, +E> = Ok(value: R) | Err(error: E)
}

module Model {
  import opened Wrappers

  // A double, by its canonical bit pattern: the kernel copies and compares doubles,
  // and every property below treats them as opaque.
  type Double = nat

  datatype ObjectId = ObjectId(index: nat, generation: nat)

  datatype Value =
    | Null
    | Bool(b: bool)
    | Int64(i: int)
    | UInt64(u: nat)
    | Float64(d: Double)
    | String(s: string)
    | Hash(h: nat)
    | ObjectValue(id: ObjectId)

  datatype Attribute = Attribute(key: string, value: Value)

  datatype Existence = Alive | Dormant | Collapsed | Tombstoned

  datatype Role = Structural | Observational | Generative | Inhibitory | Transformative | Ancestral | Symbolic

  datatype Object = Object(
    id: ObjectId, name: string, typ: nat, existence: Existence, attributes: seq<Attribute>,
    incoming: nat, outgoing: nat)

  datatype Pointer = Pointer(
    id: nat, from: ObjectId, to: ObjectId, relation: nat, role: Role, weight: Double,
    bornAt: nat, expiresAt: Option<nat>, lawDomain: string, attributes: seq<Attribute>)

  // The `facts` of a snapshot are a function of its other fields; see Facts.
  datatype Snapshot = Snapshot(
    world: nat, worldName: string, epoch: nat, objects: seq<Object>, pointers: seq<Pointer>,
    typeNames: map<nat, string>, relationNames: map<nat, string>)

  datatype Ref = ById(id: ObjectId) | ByTemp(temp: nat)

  datatype Subject = ObjectSubject(oid: ObjectId) | PointerSubject(pid: nat)

  // A fact is content addressed: its id is an injective hash of what is kept here.
  datatype Fact =
    | ObjectFact(expired: Option<nat>, oid: ObjectId, name: string, typ: nat, existence: Existence)
    | PointerFact(pointer: nat, from: ObjectId, to: ObjectId, relation: nat, role: Role, weight: Double,
                  born: nat, expires: Option<nat>, lawDomain: string)
    | AttributeFact(subject: Subject, key: string, value: Value, since: nat, until: Option<nat>)

  datatype Event = Event(name: string, fields: map<string, string>, measurements: map<string, Double>)

  // Identifier 0 of a type, relation, temp object or pointer is the invalid one.
  datatype Op =
    | InternType(name: string, symbol: nat)
    | InternRelation(name: string, symbol: nat)
    | CreateObject(temp: nat, name: string, typ: nat, existence: Existence, attributes: seq<Attribute>)
    | SetObjectType(target: Ref, typ: nat)
    | SetObjectExistence(target: Ref, existence: Existence)
    | SetObjectAttribute(target: Ref, attribute: Attribute)
    | RemoveObjectAttribute(target: Ref, key: string)
    | CreatePointer(from: Ref, to: Ref, relation: nat, role: Role, weight: Double, lawDomain: string,
                    attributes: seq<Attribute>)
    | ExpirePointer(pointer: nat)
    | SetPointerWeight(pointer: nat, weight: Double)
    | SetPointerAttribute(pointer: nat, attribute: Attribute)
    | RemovePointerAttribute(pointer: nat, key: string)
    | EmitEvent(event: Event)
    | AssertObject(target: Ref)
    | AssertPointer(pointer: nat)
    | AssertFact(fact: Fact)

  type Delta = seq<Op>

  function Max(a: nat, b: nat): nat {
    if a < b then b else a
  }

  function Min(a: nat, b: nat): nat {
    if a < b then a else b
  }

  function Decimal(n: nat): string {
    if n < 10 then ["0123456789"[n]] else Decimal(n / 10) + ["0123456789"[n % 10]]
  }

  predicate ActiveAt(p: Pointer, epoch: nat) {
    p.bornAt <= epoch && (p.expiresAt.None? || epoch < p.expiresAt.value)
  }

  // The next free symbol of a registry: one above the largest used, at least 1.
  ghost function NextSymbol(names: map<nat, string>): (next: nat)
    ensures next >= 1 && forall k :: k in names ==> k < next
    ensures next == 1 || next - 1 in names
  {
    NextAbove(names.Keys)
  }

  ghost function NextAbove(keys: set<nat>): (next: nat)
    ensures next >= 1 && forall k :: k in keys ==> k < next
    ensures next == 1 || next - 1 in keys
  {
    if keys == {} then 1
    else
      var k :| k in keys;
      var rest := NextAbove(keys - {k});
      assert forall j :: j in keys ==> j == k || j in keys - {k};
      Max(k + 1, rest)
  }
}
