// What every accepted delta keeps: well-formedness of snapshots, the persistence of
// what already exists, and the builtin laws that follow for every run.

module Invariants {
  import opened Wrappers
  import opened Model
  import opened Attributes
  import opened Overlay

  // ---- well-formed snapshots

  ghost predicate SymbolsOk(names: map<nat, string>) {
    && 0 !in names
    && (forall k :: k in names ==> names[k] != "")
    && (forall j, k :: j in names && k in names && names[j] == names[k] ==> j == k)
  }

  ghost predicate ObjectsOk(objects: seq<Object>, typeNames: map<nat, string>) {
    && (forall i, j :: 0 <= i < j < |objects| ==> objects[i].id != objects[j].id && objects[i].name != objects[j].name)
    && (forall i :: 0 <= i < |objects| ==> objects[i].id.generation != 0 && HasSymbol(typeNames, objects[i].typ))
  }

  ghost predicate TimesOk(p: Pointer, epoch: nat) {
    p.bornAt <= epoch && (p.expiresAt.Some? ==> p.bornAt <= p.expiresAt.value <= epoch)
  }

  ghost predicate PointerOk(p: Pointer, ids: set<ObjectId>, relations: map<nat, string>, epoch: nat) {
    p.id != 0 && p.from in ids && p.to in ids && HasSymbol(relations, p.relation) && TimesOk(p, epoch)
  }

  ghost predicate PointersOk(pointers: seq<Pointer>, ids: set<ObjectId>, relations: map<nat, string>, epoch: nat) {
    && (forall i, j :: 0 <= i < j < |pointers| ==> pointers[i].id != pointers[j].id)
    && (forall i :: 0 <= i < |pointers| ==> PointerOk(pointers[i], ids, relations, epoch))
  }

  ghost predicate WellFormed(s: Snapshot) {
    && SymbolsOk(s.typeNames)
    && SymbolsOk(s.relationNames)
    && ObjectsOk(s.objects, s.typeNames)
    && PointersOk(s.pointers, IdSet(s.objects), s.relationNames, s.epoch)
  }

  ghost predicate StateOk(st: State) {
    && WellFormed(st.snap)
    && (forall t :: t in st.temps ==> t != 0 && st.temps[t] in IdSet(st.snap.objects))
  }

  // ---- what exists goes on existing

  ghost predicate Extends(a: Snapshot, b: Snapshot) {
    && ObjectsExtend(a.objects, b.objects)
    && PointersExtend(a.pointers, b.pointers)
    && NamesExtend(a.typeNames, b.typeNames)
    && NamesExtend(a.relationNames, b.relationNames)
  }

  ghost predicate ObjectsExtend(a: seq<Object>, b: seq<Object>) {
    |a| <= |b| && forall i :: 0 <= i < |a| ==> b[i].id == a[i].id && b[i].name == a[i].name
  }

  ghost predicate PointersExtend(a: seq<Pointer>, b: seq<Pointer>) {
    |a| <= |b| && forall i :: 0 <= i < |a| ==> SamePointer(a[i], b[i])
  }

  ghost predicate NamesExtend(a: map<nat, string>, b: map<nat, string>) {
    forall k :: k in a ==> k in b && b[k] == a[k]
  }

  // The fields of a pointer that no operation can change.
  ghost predicate SamePointer(a: Pointer, b: Pointer) {
    && a.id == b.id && a.from == b.from && a.to == b.to && a.relation == b.relation && a.role == b.role
    && a.bornAt == b.bornAt && a.lawDomain == b.lawDomain
  }

  lemma ExtendsTrans(a: Snapshot, b: Snapshot, c: Snapshot)
    requires Extends(a, b) && Extends(b, c)
    ensures Extends(a, c)
  {
  }

  lemma ExtendsIds(a: seq<Object>, b: seq<Object>)
    requires ObjectsExtend(a, b)
    ensures IdSet(a) <= IdSet(b)
  {
    forall id | id in IdSet(a) ensures id in IdSet(b) {
      var i :| 0 <= i < |a| && a[i].id == id;
      assert b[i].id == id;
    }
  }

  lemma NextIndexAbove(objects: seq<Object>)
    ensures forall i :: 0 <= i < |objects| ==> objects[i].id.index < NextIndex(objects)
  {
    if objects != [] {
      var rest := objects[..|objects| - 1];
      NextIndexAbove(rest);
      forall i | 0 <= i < |objects| ensures objects[i].id.index < NextIndex(objects) {
        if i < |rest| {
          assert rest[i] == objects[i];
        }
      }
    }
  }

  lemma NextPointerAbove(pointers: seq<Pointer>)
    ensures NextPointer(pointers) >= 1
    ensures forall i :: 0 <= i < |pointers| ==> pointers[i].id < NextPointer(pointers)
  {
    if pointers != [] {
      var rest := pointers[..|pointers| - 1];
      NextPointerAbove(rest);
      forall i | 0 <= i < |pointers| ensures pointers[i].id < NextPointer(pointers) {
        if i < |rest| {
          assert rest[i] == pointers[i];
        }
      }
    }
  }

  // ---- one step

  // Interning never rebinds a symbol and never gives a name two symbols.
  lemma InternKeeps(names: map<nat, string>, name: string, symbol: nat)
    requires SymbolsOk(names) && InternName(names, name, symbol).Ok?
    ensures var r := InternName(names, name, symbol).value;
            SymbolsOk(r) && name in r.Values && NamesExtend(names, r)
  {
    var r := InternName(names, name, symbol).value;
    if name !in names.Values {
      var at := if symbol != 0 then symbol else NextSymbol(names);
      assert r[at] == name;
      assert at !in names;
      forall k | k in names ensures names[k] != name {
        assert names[k] in names.Values;
      }
    }
  }

  lemma PutObjectKeeps(objects: seq<Object>, i: nat, o: Object, names: map<nat, string>)
    requires ObjectsOk(objects, names) && i < |objects|
    requires o.id == objects[i].id && o.name == objects[i].name && HasSymbol(names, o.typ)
    ensures ObjectsOk(objects[i := o], names) && ObjectsExtend(objects, objects[i := o])
    ensures IdSet(objects[i := o]) == IdSet(objects)
  {
    ExtendsIds(objects, objects[i := o]);
    ExtendsIds(objects[i := o], objects);
  }

  lemma PushObjectKeeps(objects: seq<Object>, o: Object, names: map<nat, string>)
    requires ObjectsOk(objects, names)
    requires o.id.index >= NextIndex(objects) && o.id.generation != 0 && o.name !in NameSet(objects)
    requires HasSymbol(names, o.typ)
    ensures ObjectsOk(objects + [o], names) && ObjectsExtend(objects, objects + [o])
    ensures IdSet(objects + [o]) == IdSet(objects) + {o.id}
  {
    NextIndexAbove(objects);
    ExtendsIds(objects, objects + [o]);
    assert (objects + [o])[|objects|] == o;
  }

  lemma PutPointerKeeps(pointers: seq<Pointer>, i: nat, p: Pointer, ids: set<ObjectId>, relations: map<nat, string>,
                        epoch: nat)
    requires PointersOk(pointers, ids, relations, epoch) && i < |pointers|
    requires SamePointer(pointers[i], p) && TimesOk(p, epoch)
    ensures PointersOk(pointers[i := p], ids, relations, epoch) && PointersExtend(pointers, pointers[i := p])
  {
    assert PointerOk(pointers[i], ids, relations, epoch);
  }

  lemma PushPointerKeeps(pointers: seq<Pointer>, p: Pointer, ids: set<ObjectId>, relations: map<nat, string>,
                         epoch: nat)
    requires PointersOk(pointers, ids, relations, epoch)
    requires p.id == NextPointer(pointers) && PointerOk(p, ids, relations, epoch)
    ensures PointersOk(pointers + [p], ids, relations, epoch) && PointersExtend(pointers, pointers + [p])
  {
    NextPointerAbove(pointers);
  }

  // More objects and more relations leave every pointer as good as it was.
  lemma PointersStay(pointers: seq<Pointer>, ids: set<ObjectId>, relations: map<nat, string>,
                     ids': set<ObjectId>, relations': map<nat, string>, epoch: nat, epoch': nat)
    requires PointersOk(pointers, ids, relations, epoch)
    requires ids <= ids' && NamesExtend(relations, relations') && epoch <= epoch'
    ensures PointersOk(pointers, ids', relations', epoch')
  {
    forall i | 0 <= i < |pointers| ensures PointerOk(pointers[i], ids', relations', epoch') {
      assert PointerOk(pointers[i], ids, relations, epoch);
    }
  }

  lemma StepObjectKeeps(st: State, op: Op)
    requires StateOk(st) && ObjectOp(op) && StepObject(st, op).Ok?
    ensures var next := StepObject(st, op).value;
            StateOk(next) && Extends(st.snap, next.snap) && next.snap.epoch == st.snap.epoch
  {
    var i := FindObject(st.snap.objects, Resolve(st, op.target).value).value;
    PutObjectKeeps(st.snap.objects, i, EditObject(st.snap.objects[i], op), st.snap.typeNames);
  }

  lemma StepPointerKeeps(st: State, op: Op)
    requires StateOk(st) && PointerOp(op) && StepPointer(st, op).Ok?
    ensures var next := StepPointer(st, op).value;
            StateOk(next) && Extends(st.snap, next.snap) && next.snap.epoch == st.snap.epoch
  {
    var i := FindPointer(st.snap.pointers, op.pointer).value;
    var p := EditPointer(st.snap.pointers[i], op, st.snap.epoch);
    assert PointerOk(st.snap.pointers[i], IdSet(st.snap.objects), st.snap.relationNames, st.snap.epoch);
    PutPointerKeeps(st.snap.pointers, i, p, IdSet(st.snap.objects), st.snap.relationNames, st.snap.epoch);
  }

  lemma StepCreateKeeps(st: State, op: Op)
    requires StateOk(st) && op.CreateObject? && StepCreate(st, op).Ok?
    ensures var next := StepCreate(st, op).value;
            StateOk(next) && Extends(st.snap, next.snap) && next.snap.epoch == st.snap.epoch
  {
    var s, next := st.snap, StepCreate(st, op).value.snap;
    PushObjectKeeps(s.objects, NewObject(st, op), s.typeNames);
    PointersStay(s.pointers, IdSet(s.objects), s.relationNames, IdSet(next.objects), s.relationNames, s.epoch, s.epoch);
  }

  lemma StepLinkKeeps(st: State, op: Op)
    requires StateOk(st) && op.CreatePointer? && StepLink(st, op).Ok?
    ensures var next := StepLink(st, op).value;
            StateOk(next) && Extends(st.snap, next.snap) && next.snap.epoch == st.snap.epoch
  {
    var p := NewPointer(st, op, Resolve(st, op.from).value, Resolve(st, op.to).value);
    NextPointerAbove(st.snap.pointers);
    PushPointerKeeps(st.snap.pointers, p, IdSet(st.snap.objects), st.snap.relationNames, st.snap.epoch);
  }

  lemma StepInternKeeps(st: State, op: Op)
    requires StateOk(st) && (op.InternType? || op.InternRelation?) && Step(st, op).Ok?
    ensures var next := Step(st, op).value;
            StateOk(next) && Extends(st.snap, next.snap) && next.snap.epoch == st.snap.epoch
  {
    var s, next := st.snap, Step(st, op).value.snap;
    if op.InternType? {
      InternKeeps(s.typeNames, op.name, op.symbol);
    } else {
      InternKeeps(s.relationNames, op.name, op.symbol);
    }
    PointersStay(s.pointers, IdSet(s.objects), s.relationNames, IdSet(s.objects), next.relationNames, s.epoch, s.epoch);
  }

  lemma StepKeeps(st: State, op: Op)
    requires StateOk(st) && Step(st, op).Ok?
    ensures var next := Step(st, op).value;
            StateOk(next) && Extends(st.snap, next.snap) && next.snap.epoch == st.snap.epoch
  {
    if ObjectOp(op) {
      StepObjectKeeps(st, op);
    } else if PointerOp(op) {
      StepPointerKeeps(st, op);
    } else if op.CreateObject? {
      StepCreateKeeps(st, op);
    } else if op.CreatePointer? {
      StepLinkKeeps(st, op);
    } else if op.InternType? || op.InternRelation? {
      StepInternKeeps(st, op);
    }
  }

  lemma {:induction false} RunKeeps(st: State, ops: Delta)
    requires StateOk(st) && Run(st, ops).Ok?
    ensures var next := Run(st, ops).value;
            StateOk(next) && Extends(st.snap, next.snap) && next.snap.epoch == st.snap.epoch
    decreases |ops|
  {
    if ops != [] {
      StepKeeps(st, ops[0]);
      var mid := Step(st, ops[0]).value;
      RunKeeps(mid, ops[1..]);
      ExtendsTrans(st.snap, mid.snap, Run(st, ops).value.snap);
    }
  }

  lemma StartKeeps(base: Snapshot)
    requires WellFormed(base)
    ensures StateOk(Start(base)) && Extends(base, Start(base).snap)
  {
    var ids := IdSet(base.objects);
    PointersStay(base.pointers, ids, base.relationNames, ids, base.relationNames, base.epoch, base.epoch + 1);
  }

  lemma RecountKeeps(s: Snapshot)
    requires WellFormed(s)
    ensures WellFormed(Recount(s)) && Extends(s, Recount(s))
  {
    ExtendsIds(s.objects, Recount(s).objects);
    ExtendsIds(Recount(s).objects, s.objects);
  }

  // An accepted delta takes a well-formed snapshot to a well-formed one in which all
  // that existed is still there, under the same identity.
  lemma ApplyKeeps(base: Snapshot, delta: Delta)
    requires WellFormed(base) && Apply(base, delta).Ok?
    ensures var after := Apply(base, delta).value;
            WellFormed(after) && Extends(base, after) && after.epoch == base.epoch + 1
  {
    StartKeeps(base);
    RunKeeps(Start(base), delta);
    var last := Run(Start(base), delta).value.snap;
    RecountKeeps(last);
    ExtendsTrans(base, Start(base).snap, last);
    ExtendsTrans(base, last, Recount(last));
  }
}
