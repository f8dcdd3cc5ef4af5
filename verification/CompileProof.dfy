// Compiled code runs like the delta it was compiled from: after each operation the machine's
// frame matches the overlay's state.

module CompileProof {
  import opened Wrappers
  import opened Model
  import opened Attributes
  import opened Overlay
  import opened Invariants
  import opened EpochView
  import opened Listings
  import opened Programs
  import Morphisms

  // ---- symbol slots

  // Slot k - 1 of the table holds symbol k, up to the largest; other slots are empty.
  ghost predicate SlotsOk(table: seq<string>, names: map<nat, string>) {
    && |table| + 1 == NextSymbol(names)
    && (forall k :: k in names ==> 1 <= k <= |table| && table[k - 1] == names[k])
    && (forall i :: 0 <= i < |table| && i + 1 !in names ==> table[i] == "")
  }

  lemma SlotHolds(table: seq<string>, names: map<nat, string>, s: nat)
    requires SlotsOk(table, names) && s < |table| && table[s] != ""
    ensures s + 1 in names && names[s + 1] == table[s]
  {
  }

  lemma SlotKnown(table: seq<string>, names: map<nat, string>, name: string)
    requires SlotsOk(table, names) && name != ""
    ensures name in table <==> name in names.Values
  {
    if name in table {
      var i :| 0 <= i < |table| && table[i] == name;
      SlotHolds(table, names, i);
    }
    if name in names.Values {
      var k :| k in names && names[k] == name;
      assert table[k - 1] == name;
    }
  }

  lemma NextIs(names: map<nat, string>, next: nat)
    requires next >= 1 && (forall k :: k in names ==> k < next) && (next == 1 || next - 1 in names)
    ensures NextSymbol(names) == next
  {
  }

  lemma SlotNew(table: seq<string>, names: map<nat, string>, name: string)
    requires SlotsOk(table, names) && name != ""
    ensures SlotsOk(table + [name], names[|table| + 1 := name]) && |table| + 1 !in names
  {
    var more := names[|table| + 1 := name];
    assert |table| + 1 in more;
    NextIs(more, |table| + 2);
  }

  // The machine interns a table name at its slot.
  lemma SymbolForSlot(before: map<nat, string>, after: map<nat, string>, name: string, slot: nat)
    requires NamesExtend(before, after) && SymbolsOk(after) && slot + 1 in after && after[slot + 1] == name
    ensures SymbolFor(before, NextSymbol(before), name, slot) == Some(slot + 1)
  {
    var found := Morphisms.FirstSymbol(before, name, 0, NextSymbol(before));
    if found.Some? {
      assert after[found.value] == name;
    }
  }

  // ---- the simulation

  ghost predicate ContextOk(cx: Context) {
    WellFormed(cx.before) && cx.typeBound == NextSymbol(cx.before.typeNames) &&
      cx.relationBound == NextSymbol(cx.before.relationNames)
  }

  // The overlay has run what the machine emitted.
  ghost predicate Ran(cx: Context, delta: Delta, st: State) {
    StateOk(st) && Run(Start(cx.before), delta) == Ok(st) && Extends(cx.before, st.snap)
  }

  // Temps, created names and pointers agree.
  ghost predicate Tracks(cx: Context, fr: Frame, st: State, nextTemp: nat) {
    && (forall t :: t in fr.tempObjects <==> t in st.temps)
    && (forall t :: t in fr.tempObjects ==> fr.tempObjects[t] == t)
    && NameSet(st.snap.objects) == NameSet(cx.before.objects) + fr.createdNames.Keys
    && fr.createdNames.Keys !! NameSet(cx.before.objects)
    && (forall p :: p in fr.tempPointers ==> p < nextTemp)
    && fr.nextPointer == NextPointer(st.snap.pointers)
  }

  ghost predicate Sim(cx: Context, tb: Tables, fr: Frame, st: State, nextTemp: nat) {
    && Ran(cx, fr.delta, st) && Tracks(cx, fr, st, nextTemp)
    && SlotsOk(tb.types, st.snap.typeNames) && SlotsOk(tb.relations, st.snap.relationNames)
  }

  lemma RanOne(cx: Context, delta: Delta, st: State, op: Op)
    requires Ran(cx, delta, st) && Step(st, op).Ok?
    ensures Ran(cx, delta + [op], Step(st, op).value)
  {
    hide Step, StateOk, Extends;
    RunAppend(Start(cx.before), delta, [op]);
    assert Run(st, [op]) == Step(st, op) by {
      assert [op][1..] == [];
      assert Run(Step(st, op).value, []) == Step(st, op);
    }
    StepKeeps(st, op);
    ExtendsTrans(cx.before, st.snap, Step(st, op).value.snap);
  }

  // Interning a known name changes nothing; a new one takes the next slot.
  lemma SlotIn(table: seq<string>, table': seq<string>, names: map<nat, string>, name: string, s: nat)
    returns (names': map<nat, string>)
    requires SlotsOk(table, names) && SymbolsOk(names) && name != ""
    requires table' == (if name in table then table else table + [name]) && s < |table'| && table'[s] == name
    ensures InternName(names, name, s + 1) == Ok(names') && SlotsOk(table', names')
    ensures s + 1 in names' && names'[s + 1] == name
    ensures name in names.Values ==> names' == names
    ensures name !in names.Values ==> s + 1 == NextSymbol(names) && names' == names[s + 1 := name]
  {
    SlotKnown(table, names, name);
    if name in names.Values {
      SlotHolds(table, names, s);
      names' := names;
    } else {
      SlotNew(table, names, name);
      assert s == |table|;
      names' := names[s + 1 := name];
    }
  }

  lemma ExecTypeInIs(cx: Context, tb: Tables, fr: Frame, s: nat)
    requires s < |tb.types| && SymbolFor(cx.before.typeNames, cx.typeBound, tb.types[s], s) == Some(s + 1)
    ensures Exec(cx, tb, fr, Instruction(TypeIn, [UInt64(s)])) ==
            Some(Pushed(fr.(typeSymbols := fr.typeSymbols[s := s + 1]), InternType(tb.types[s], s + 1)))
  {
    hide SymbolFor;
  }

  lemma ExecRelationInIs(cx: Context, tb: Tables, fr: Frame, s: nat)
    requires s < |tb.relations| && SymbolFor(cx.before.relationNames, cx.relationBound, tb.relations[s], s) ==
             Some(s + 1)
    ensures Exec(cx, tb, fr, Instruction(RelationIn, [UInt64(s)])) ==
            Some(Pushed(fr.(relationSymbols := fr.relationSymbols[s := s + 1]), InternRelation(tb.relations[s], s + 1)))
  {
    hide SymbolFor;
  }

  lemma StateNames(st: State)
    requires StateOk(st)
    ensures SymbolsOk(st.snap.typeNames) && SymbolsOk(st.snap.relationNames)
  {
  }

  lemma TypeInSim(cx: Context, tb: Tables, tb': Tables, fr: Frame, st: State, nextTemp: nat, name: string, s: nat)
    returns (fr': Frame, st': State)
    requires ContextOk(cx) && Sim(cx, tb, fr, st, nextTemp) && name != ""
    requires tb'.relations == tb.relations && tb'.types == (if name in tb.types then tb.types else tb.types + [name])
    requires s < |tb'.types| && tb'.types[s] == name
    ensures fr' == Pushed(fr.(typeSymbols := fr.typeSymbols[s := s + 1]), InternType(name, s + 1))
    ensures Exec(cx, tb', fr, Instruction(TypeIn, [UInt64(s)])) == Some(fr')
    ensures Step(st, InternType(name, s + 1)) == Ok(st') && Sim(cx, tb', fr', st', nextTemp)
    ensures s + 1 in st'.snap.typeNames && st'.snap.typeNames[s + 1] == name
    ensures name in st.snap.typeNames.Values ==> st' == st
    ensures name !in st.snap.typeNames.Values ==>
              s + 1 == NextSymbol(st.snap.typeNames) &&
                st' == st.(snap := st.snap.(typeNames := st.snap.typeNames[s + 1 := name]))
  {
    hide Extends, StateOk, NextSymbol, Tracks, Run, InternName, SlotsOk, Exec, SymbolFor, WellFormed, SymbolsOk;
    StateNames(st);
    var names' := SlotIn(tb.types, tb'.types, st.snap.typeNames, name, s);
    var op := InternType(name, s + 1);
    st' := st.(snap := st.snap.(typeNames := names'));
    fr' := Pushed(fr.(typeSymbols := fr.typeSymbols[s := s + 1]), op);
    RanOne(cx, fr.delta, st, op);
    ExtendNames(cx.before, st'.snap);
    StateNames(st');
    SymbolForSlot(cx.before.typeNames, names', name, s);
    ExecTypeInIs(cx, tb', fr, s);
    TracksSame(cx, fr, st, fr', st', nextTemp);
  }

  lemma RelationInSim(cx: Context, tb: Tables, tb': Tables, fr: Frame, st: State, nextTemp: nat, name: string, s: nat)
    returns (fr': Frame, st': State)
    requires ContextOk(cx) && Sim(cx, tb, fr, st, nextTemp) && name != ""
    requires tb'.types == tb.types && tb'.relations == (if name in tb.relations then tb.relations
             else tb.relations + [name])
    requires s < |tb'.relations| && tb'.relations[s] == name
    ensures fr' == Pushed(fr.(relationSymbols := fr.relationSymbols[s := s + 1]), InternRelation(name, s + 1))
    ensures Exec(cx, tb', fr, Instruction(RelationIn, [UInt64(s)])) == Some(fr')
    ensures Step(st, InternRelation(name, s + 1)) == Ok(st') && Sim(cx, tb', fr', st', nextTemp)
    ensures s + 1 in st'.snap.relationNames && st'.snap.relationNames[s + 1] == name
    ensures name in st.snap.relationNames.Values ==> st' == st
    ensures name !in st.snap.relationNames.Values ==>
              s + 1 == NextSymbol(st.snap.relationNames) &&
                st' == st.(snap := st.snap.(relationNames := st.snap.relationNames[s + 1 := name]))
  {
    hide Extends, StateOk, NextSymbol, Tracks, Run, InternName, SlotsOk, Exec, SymbolFor, WellFormed, SymbolsOk;
    StateNames(st);
    var names' := SlotIn(tb.relations, tb'.relations, st.snap.relationNames, name, s);
    var op := InternRelation(name, s + 1);
    st' := st.(snap := st.snap.(relationNames := names'));
    fr' := Pushed(fr.(relationSymbols := fr.relationSymbols[s := s + 1]), op);
    RanOne(cx, fr.delta, st, op);
    ExtendNames(cx.before, st'.snap);
    StateNames(st');
    SymbolForSlot(cx.before.relationNames, names', name, s);
    ExecRelationInIs(cx, tb', fr, s);
    TracksSame(cx, fr, st, fr', st', nextTemp);
  }

  lemma ExtendNames(a: Snapshot, b: Snapshot)
    requires Extends(a, b)
    ensures NamesExtend(a.typeNames, b.typeNames) && NamesExtend(a.relationNames, b.relationNames)
  {
  }

  lemma TracksSame(cx: Context, fr: Frame, st: State, fr': Frame, st': State, nextTemp: nat)
    requires Tracks(cx, fr, st, nextTemp)
    requires fr'.tempObjects == fr.tempObjects && fr'.createdNames == fr.createdNames &&
             fr'.tempPointers == fr.tempPointers
    requires fr'.nextPointer == fr.nextPointer && st'.temps == st.temps &&
             NameSet(st'.snap.objects) == NameSet(st.snap.objects)
    requires NextPointer(st'.snap.pointers) == NextPointer(st.snap.pointers)
    ensures Tracks(cx, fr', st', nextTemp)
  {
  }

  // ---- references

  // How a reference is written: a temp by its number, an object of the snapshot by its name.
  ghost predicate RefCode(before: Snapshot, strings: seq<string>, ref: Ref, tag: nat, value: nat) {
    match ref
    case ByTemp(t) => tag == TEMP_TAG && value == t
    case ById(id) =>
      tag == KNOWN_TAG && value < |strings| && FindObject(before.objects, id).Some? &&
      strings[value] == before.objects[FindObject(before.objects, id).value].name
  }

  lemma {:induction false} NamedUnique(objects: seq<Object>, i: nat)
    requires i < |objects| && forall j, k :: 0 <= j < k < |objects| ==> objects[j].name != objects[k].name
    ensures Morphisms.FindNamed(objects, objects[i].name) == Some(objects[i].id)
  {
    if i > 0 {
      assert objects[0].name != objects[i].name;
      NamedUnique(objects[1..], i - 1);
    }
  }

  lemma NamedIn(objects: seq<Object>, name: string)
    ensures Morphisms.FindNamed(objects, name).Some? <==> name in NameSet(objects)
  {
    if objects != [] {
      NamedIn(objects[1..], name);
      assert NameSet(objects) == NameSet(objects[1..]) + {objects[0].name} by {
        assert forall j :: 0 <= j < |objects[1..]| ==> objects[1..][j] == objects[j + 1];
        forall n | n in NameSet(objects) ensures n in NameSet(objects[1..]) + {objects[0].name} {
          var i :| 0 <= i < |objects| && objects[i].name == n;
          assert i > 0 ==> objects[1..][i - 1].name == n;
        }
        forall n | n in NameSet(objects[1..]) ensures n in NameSet(objects) {
          var i :| 0 <= i < |objects[1..]| && objects[1..][i].name == n;
          assert objects[i + 1].name == n;
        }
      }
    }
  }

  lemma NamesDiffer(s: Snapshot)
    requires WellFormed(s)
    ensures forall j, k :: 0 <= j < k < |s.objects| ==> s.objects[j].name != s.objects[k].name
  {
  }

  // The machine reads a reference back.
  lemma RefSim(cx: Context, tb: Tables, fr: Frame, st: State, nextTemp: nat, ref: Ref, args: seq<Value>, i: nat, j: nat)
    requires ContextOk(cx) && Sim(cx, tb, fr, st, nextTemp) && Resolve(st, ref).Some?
    requires i < |args| && j < |args| && args[i].UInt64? && args[j].UInt64? &&
             RefCode(cx.before, tb.strings, ref, args[i].u, args[j].u)
    ensures ObjectOperand(cx, tb, fr, args, i, j) == Some(ref)
  {
    hide Ran, SlotsOk, WellFormed, NextPointer, IdSet, Morphisms.FindNamed, FindObject;
    match ref
    case ByTemp(t) =>
    case ById(id) =>
      var at := FindObject(cx.before.objects, id).value;
      NamesDiffer(cx.before);
      NamedUnique(cx.before.objects, at);
      assert cx.before.objects[at].name in NameSet(cx.before.objects);
  }

  // ---- operations on what exists

  lemma ObjectEditKeeps(st: State, op: Op)
    requires ObjectOp(op) && Step(st, op).Ok?
    ensures var next := Step(st, op).value;
            && NameSet(next.snap.objects) == NameSet(st.snap.objects) && next.snap.pointers == st.snap.pointers
            && next.temps == st.temps && next.snap.typeNames == st.snap.typeNames &&
              next.snap.relationNames == st.snap.relationNames
  {
    hide FindObject, Resolve, HasSymbol, SetAttribute, RemoveAttribute, NameSet;
    var i := FindObject(st.snap.objects, Resolve(st, op.target).value).value;
    var o := EditObject(st.snap.objects[i], op);
    assert o.name == st.snap.objects[i].name;
    SameNames(st.snap.objects, st.snap.objects[i := o]);
  }

  lemma PointerEditKeeps(st: State, op: Op)
    requires PointerOp(op) && Step(st, op).Ok?
    ensures var next := Step(st, op).value;
            && next.snap.objects == st.snap.objects && NextPointer(next.snap.pointers) == NextPointer(st.snap.pointers)
            && next.temps == st.temps && next.snap.typeNames == st.snap.typeNames &&
              next.snap.relationNames == st.snap.relationNames
  {
    hide FindPointer, SetAttribute, RemoveAttribute, NextPointer;
    var i := FindPointer(st.snap.pointers, op.pointer).value;
    var p := EditPointer(st.snap.pointers[i], op, st.snap.epoch);
    assert p.id == st.snap.pointers[i].id;
    SamePointerIndex(st.snap.pointers, st.snap.pointers[i := p]);
  }

  lemma EditKeeps(st: State, op: Op)
    requires (ObjectOp(op) || PointerOp(op) || op.EmitEvent?) && Step(st, op).Ok?
    ensures var next := Step(st, op).value;
            && NameSet(next.snap.objects) == NameSet(st.snap.objects) &&
              NextPointer(next.snap.pointers) == NextPointer(st.snap.pointers)
            && next.temps == st.temps && next.snap.typeNames == st.snap.typeNames &&
              next.snap.relationNames == st.snap.relationNames
  {
    hide StepObject, StepPointer, NextPointer, NameSet;
    if ObjectOp(op) {
      ObjectEditKeeps(st, op);
    } else if PointerOp(op) {
      PointerEditKeeps(st, op);
    }
  }

  lemma SameNames(a: seq<Object>, b: seq<Object>)
    requires |a| == |b| && forall i :: 0 <= i < |a| ==> a[i].name == b[i].name
    ensures NameSet(a) == NameSet(b)
  {
    forall n | n in NameSet(a) ensures n in NameSet(b) {
      var i :| 0 <= i < |a| && a[i].name == n;
      assert b[i].name == n;
    }
    forall n | n in NameSet(b) ensures n in NameSet(a) {
      var i :| 0 <= i < |b| && b[i].name == n;
      assert a[i].name == n;
    }
  }

  // An instruction that stands for the operation keeps machine and overlay together.
  lemma EditSim(cx: Context, tb: Tables, fr: Frame, st: State, nextTemp: nat, op: Op)
    requires Sim(cx, tb, fr, st, nextTemp) && (ObjectOp(op) || PointerOp(op) || op.EmitEvent?) && Step(st, op).Ok?
    ensures Sim(cx, tb, Pushed(fr, op), Step(st, op).value, nextTemp)
  {
    hide Ran, SlotsOk, Tracks, Step, NextPointer;
    EditKeeps(st, op);
    RanOne(cx, fr.delta, st, op);
    TracksSame(cx, fr, st, Pushed(fr, op), Step(st, op).value, nextTemp);
  }

  // ---- creating: first the bare object or pointer, then its attributes one by one

  function Having(op: Op, attributes: seq<Attribute>): Op {
    match op
    case CreateObject(temp, name, typ, existence, _) => CreateObject(temp, name, typ, existence, attributes)
    case CreatePointer(from, to, relation, role, weight, domain, _) =>
      CreatePointer(from, to, relation, role, weight, domain, attributes)
    case _ => op
  }

  lemma PrefixSorted(attributes: seq<Attribute>, k: nat)
    requires UniqueKeys(attributes) && k < |attributes|
    ensures Sorted(attributes[..k + 1]) == SetAttribute(Sorted(attributes[..k]), attributes[k])
  {
    hide Sorted, SetAttribute, Listing;
    assert attributes[..k + 1][..k] == attributes[..k];
    AssignAgrees(attributes[..k]);
    AssignAgrees(attributes[..k + 1]);
    SetListing(Assigned(map[], attributes[..k]), attributes[k]);
  }

  // Creating with one more attribute is creating and then setting it.
  lemma CreateMore(st: State, op: Op, k: nat)
    requires op.CreateObject? && UniqueKeys(op.attributes) && k < |op.attributes|
    requires Step(st, Having(op, op.attributes[..k])).Ok?
    ensures var made := Step(st, Having(op, op.attributes[..k])).value;
            Step(made, SetObjectAttribute(ByTemp(op.temp), op.attributes[k])) ==
              Step(st, Having(op, op.attributes[..k + 1]))
  {
    hide Sorted, SetAttribute, NextIndex, HasSymbol, NameSet, UniqueKeys;
    var short, long := Having(op, op.attributes[..k]), Having(op, op.attributes[..k + 1]);
    PrefixSorted(op.attributes, k);
    var o := NewObject(st, short);
    NewLast(st.snap.objects, o);
    var made := Step(st, short).value;
    assert made.snap.objects == st.snap.objects + [o];
    assert NewObject(st, long) == EditObject(o, SetObjectAttribute(ByTemp(op.temp), op.attributes[k]));
    assert (st.snap.objects + [o])[|st.snap.objects| := NewObject(st, long)] == st.snap.objects + [NewObject(st, long)];
  }

  // A new object is found at the end.
  lemma {:induction false} NewLast(objects: seq<Object>, o: Object)
    requires o.id.index == NextIndex(objects)
    ensures FindObject(objects + [o], o.id) == Some(|objects|)
  {
    NextIndexAbove(objects);
    assert (objects + [o])[|objects|] == o;
    assert forall i :: 0 <= i < |objects| ==> (objects + [o])[i] == objects[i];
  }

  lemma LinkMore(st: State, op: Op, k: nat)
    requires op.CreatePointer? && UniqueKeys(op.attributes) && k < |op.attributes|
    requires Step(st, Having(op, op.attributes[..k])).Ok?
    ensures var made := Step(st, Having(op, op.attributes[..k])).value;
            Step(made, SetPointerAttribute(NextPointer(st.snap.pointers), op.attributes[k])) ==
              Step(st, Having(op, op.attributes[..k + 1]))
  {
    hide Sorted, SetAttribute, NextPointer, HasSymbol, Resolve, UniqueKeys;
    var short, long := Having(op, op.attributes[..k]), Having(op, op.attributes[..k + 1]);
    PrefixSorted(op.attributes, k);
    var from, to := Resolve(st, op.from).value, Resolve(st, op.to).value;
    var p := NewPointer(st, short, from, to);
    PointerLast(st.snap.pointers, p);
    assert NewPointer(st, long, from, to) == EditPointer(p, SetPointerAttribute(p.id, op.attributes[k]), st.snap.epoch);
    assert (st.snap.pointers + [p])[|st.snap.pointers| := NewPointer(st, long, from, to)] == st.snap.pointers +
           [NewPointer(st, long, from, to)];
  }

  lemma PointerLast(pointers: seq<Pointer>, p: Pointer)
    requires p.id == NextPointer(pointers)
    ensures FindPointer(pointers + [p], p.id) == Some(|pointers|)
  {
    NextPointerAbove(pointers);
    assert (pointers + [p])[|pointers|] == p;
    assert forall i :: 0 <= i < |pointers| ==> (pointers + [p])[i] == pointers[i];
  }

  // ---- new objects and pointers on the machine

  lemma CreateNames(st: State, op: Op)
    requires op.CreateObject? && Step(st, op).Ok?
    ensures var next := Step(st, op).value;
            && op.temp != 0 && op.temp !in st.temps && op.name !in NameSet(st.snap.objects)
            && next.temps.Keys == st.temps.Keys + {op.temp} &&
              NameSet(next.snap.objects) == NameSet(st.snap.objects) + {op.name}
            && next.snap.pointers == st.snap.pointers
            && next.snap.typeNames == st.snap.typeNames && next.snap.relationNames == st.snap.relationNames
  {
    hide NextIndex, Sorted, HasSymbol;
    var objects, o := st.snap.objects, NewObject(st, op);
    assert (objects + [o])[|objects|] == o;
    forall n | n in NameSet(objects) ensures n in NameSet(objects + [o]) {
      var i :| 0 <= i < |objects| && objects[i].name == n;
      assert (objects + [o])[i].name == n;
    }
  }

  ghost function CreatedFrame(fr: Frame, op: Op): Frame
    requires op.CreateObject?
  {
    Pushed(fr.(tempObjects := fr.tempObjects[op.temp := op.temp], createdNames := fr.createdNames[op.name := op.temp]),
      op)
  }

  lemma CreateSim(cx: Context, tb: Tables, fr: Frame, st: State, nextTemp: nat, op: Op, n: nat, s: nat)
    requires Sim(cx, tb, fr, st, nextTemp) && op.CreateObject? && op.attributes == [] && op.existence == Alive &&
             Step(st, op).Ok?
    requires op.temp <= MAX_TEMP && n < |tb.strings| && tb.strings[n] == op.name && s in fr.typeSymbols &&
             fr.typeSymbols[s] == op.typ
    ensures Exec(cx, tb, fr, Instruction(ObjectNew, [UInt64(op.temp), UInt64(n), UInt64(s)])) ==
            Some(CreatedFrame(fr, op))
    ensures Sim(cx, tb, CreatedFrame(fr, op), Step(st, op).value, nextTemp)
  {
    hide Ran, SlotsOk, Step, NameSet, Morphisms.FindNamed, NextPointer;
    CreateNames(st, op);
    NamedIn(cx.before.objects, op.name);
    RanOne(cx, fr.delta, st, op);
    var args := [UInt64(op.temp), UInt64(n), UInt64(s)];
    assert U64(args, 0) == Some(op.temp) && Name(tb.strings, args, 1) == Some(op.name) &&
           Bound(fr.typeSymbols, args, 2) == Some(op.typ);
    assert Tracks(cx, CreatedFrame(fr, op), Step(st, op).value, nextTemp);
  }

  ghost function LinkedFrame(fr: Frame, op: Op, temp: nat): Frame {
    Pushed(fr.(tempPointers := fr.tempPointers[temp := fr.nextPointer], nextPointer := fr.nextPointer + 1), op)
  }

  lemma LinkNames(st: State, op: Op)
    requires op.CreatePointer? && Step(st, op).Ok?
    ensures var next := Step(st, op).value;
            && next.snap.objects == st.snap.objects && NextPointer(next.snap.pointers) ==
              NextPointer(st.snap.pointers) + 1
            && next.temps == st.temps && next.snap.typeNames == st.snap.typeNames &&
              next.snap.relationNames == st.snap.relationNames
            && Resolve(st, op.from).Some? && Resolve(st, op.to).Some?
  {
    hide Resolve, HasSymbol, Sorted;
    var p := NewPointer(st, op, Resolve(st, op.from).value, Resolve(st, op.to).value);
    assert (st.snap.pointers + [p])[..|st.snap.pointers|] == st.snap.pointers;
  }

  lemma LinkSim(cx: Context, tb: Tables, fr: Frame, st: State, nextTemp: nat, op: Op, args: seq<Value>, domain: string)
    requires Sim(cx, tb, fr, st, nextTemp) && ContextOk(cx) && op.CreatePointer? && op.attributes == [] &&
             Step(st, op).Ok?
    requires |args| == 9 && args[0] == UInt64(nextTemp) && nextTemp > 0 && !RawObject(args)
    requires args[1].UInt64? && args[2].UInt64? && RefCode(cx.before, tb.strings, op.from, args[1].u, args[2].u)
    requires args[3].UInt64? && args[4].UInt64? && RefCode(cx.before, tb.strings, op.to, args[3].u, args[4].u)
    requires args[5].UInt64? && args[5].u in fr.relationSymbols && fr.relationSymbols[args[5].u] == op.relation
    requires args[6] == Float64(op.weight) && args[7] == UInt64(RoleCode(op.role))
    requires args[8].UInt64? && args[8].u < |tb.strings| && tb.strings[args[8].u] == domain &&
             op.lawDomain == (if domain == "" then "core" else domain)
    ensures Exec(cx, tb, fr, Instruction(PointerNew, args)) == Some(LinkedFrame(fr, op, nextTemp))
    ensures Sim(cx, tb, LinkedFrame(fr, op, nextTemp), Step(st, op).value, nextTemp + 1)
  {
    hide Ran, SlotsOk, Step, NameSet, NextPointer, ObjectOperand, RefCode, Resolve, ContextOk, RawObject;
    LinkNames(st, op);
    RefSim(cx, tb, fr, st, nextTemp, op.from, args, 1, 2);
    RefSim(cx, tb, fr, st, nextTemp, op.to, args, 3, 4);
    RanOne(cx, fr.delta, st, op);
    RoleBack(op.role);
    LinkExec(cx, tb, fr, op, args, domain);
    assert Tracks(cx, LinkedFrame(fr, op, nextTemp), Step(st, op).value, nextTemp + 1);
  }

  lemma LinkExec(cx: Context, tb: Tables, fr: Frame, op: Op, args: seq<Value>, domain: string)
    requires op.CreatePointer? && op.attributes == []
    requires |args| == 9 && args[0].UInt64? && args[0].u > 0 && args[0].u !in fr.tempPointers && !RawObject(args)
    requires ObjectOperand(cx, tb, fr, args, 1, 2) == Some(op.from) &&
             ObjectOperand(cx, tb, fr, args, 3, 4) == Some(op.to)
    requires args[5].UInt64? && args[5].u in fr.relationSymbols && fr.relationSymbols[args[5].u] == op.relation
    requires args[6] == Float64(op.weight) && args[7] == UInt64(RoleCode(op.role)) &&
             RoleOf(RoleCode(op.role)) == Some(op.role)
    requires args[8].UInt64? && args[8].u < |tb.strings| && tb.strings[args[8].u] == domain &&
             op.lawDomain == (if domain == "" then "core" else domain)
    ensures Exec(cx, tb, fr, Instruction(PointerNew, args)) == Some(LinkedFrame(fr, op, args[0].u))
  {
    hide ObjectOperand, RoleOf, RoleCode;
    assert Bound(fr.relationSymbols, args, 5) == Some(op.relation) && F64(cx, args, 6) == Some(op.weight);
    assert U64(args, 7) == Some(RoleCode(op.role)) && Name(tb.strings, args, 8) == Some(domain) &&
           U64(args, 0) == Some(args[0].u);
  }

  lemma RoleBack(r: Role)
    ensures RoleOf(RoleCode(r)) == Some(r)
  {
  }

  // ---- instructions that stand for an operation on what exists

  // A pointer is written by its id when the snapshot has it, or by the temp it was made under.
  ghost predicate PointerCode(before: Snapshot, fr: Frame, p: nat, tag: nat, value: nat) {
    (tag == KNOWN_TAG && value == p && FindPointer(before.pointers, p).Some?) ||
    (tag == TEMP_TAG && value in fr.tempPointers && fr.tempPointers[value] == p)
  }

  ghost predicate TargetCode(before: Snapshot, tb: Tables, fr: Frame, op: Op, tag: nat, value: nat)
    requires ObjectOp(op) || PointerOp(op)
  {
    if ObjectOp(op) then RefCode(before, tb.strings, op.target, tag, value)
      else PointerCode(before, fr, op.pointer, tag, value)
  }

  // The operands after the target.
  ghost predicate RestCode(tb: Tables, fr: Frame, op: Op, code: Opcode, rest: seq<Value>) {
    match op
    case SetObjectType(_, typ) =>
      code == ObjectType && |rest| == 1 && rest[0].UInt64? && rest[0].u in fr.typeSymbols &&
        fr.typeSymbols[rest[0].u] == typ
    case SetObjectExistence(_, e) => code == ObjectExistence && rest == [UInt64(ExistenceCode(e))]
    case SetObjectAttribute(_, a) => code == ObjectSet && AttributeCode(tb, a, rest)
    case RemoveObjectAttribute(_, key) => code == ObjectDrop && |rest| == 1 && KeyCode(tb, key, rest[0])
    case AssertObject(_) => code == CheckObject && rest == []
    case ExpirePointer(_) => code == PointerExpire && rest == []
    case SetPointerWeight(_, w) => code == PointerWeight && rest == [Float64(w)]
    case SetPointerAttribute(_, a) => code == PointerSet && AttributeCode(tb, a, rest)
    case RemovePointerAttribute(_, key) => code == PointerDrop && |rest| == 1 && KeyCode(tb, key, rest[0])
    case AssertPointer(_) => code == CheckPointer && rest == []
    case _ => false
  }

  ghost predicate KeyCode(tb: Tables, key: string, v: Value) {
    v.UInt64? && v.u < |tb.strings| && tb.strings[v.u] == key
  }

  ghost predicate AttributeCode(tb: Tables, a: Attribute, rest: seq<Value>) {
    |rest| == 2 && KeyCode(tb, a.key, rest[0]) && rest[1] == a.value && !a.value.ObjectValue?
  }

  lemma ExistenceBack(e: Existence)
    ensures ExistenceOf(ExistenceCode(e)) == Some(e)
  {
  }

  // Executing it emits the operation.
  lemma CodeExec(cx: Context, tb: Tables, fr: Frame, st: State, nextTemp: nat, op: Op, code: Opcode, tag: nat,
                 value: nat, rest: seq<Value>)
    requires ContextOk(cx) && Sim(cx, tb, fr, st, nextTemp) && (ObjectOp(op) || PointerOp(op)) && Step(st, op).Ok?
    requires TargetCode(cx.before, tb, fr, op, tag, value) && RestCode(tb, fr, op, code, rest)
    ensures Exec(cx, tb, fr, Instruction(code, [UInt64(tag), UInt64(value)] + rest)) == Some(Pushed(fr, op))
  {
    hide Sim, ContextOk, TargetCode, RestCode, Resolve, ObjectOperand, PointerOperand, Step, Edit, RawObject, Arity;
    var args := [UInt64(tag), UInt64(value)] + rest;
    assert args[0] == UInt64(tag) && args[1] == UInt64(value) && forall i :: 0 <= i < |rest| ==> args[i + 2] == rest[i];
    RestRead(cx, tb, fr, op, code, args, rest);
    TargetRead(cx, tb, fr, st, nextTemp, op, args, tag, value);
    EditRead(cx, tb, fr, op, code, args, rest);
    EditRuns(cx, tb, fr, code, args, op);
  }

  lemma TargetRead(cx: Context, tb: Tables, fr: Frame, st: State, nextTemp: nat, op: Op, args: seq<Value>, tag: nat,
                   value: nat)
    requires ContextOk(cx) && Sim(cx, tb, fr, st, nextTemp) && (ObjectOp(op) || PointerOp(op)) && Step(st, op).Ok?
    requires TargetCode(cx.before, tb, fr, op, tag, value) && |args| >= 2 && args[0] == UInt64(tag) &&
             args[1] == UInt64(value)
    ensures ObjectOp(op) ==> ObjectOperand(cx, tb, fr, args, 0, 1) == Some(op.target)
    ensures PointerOp(op) ==> PointerOperand(cx, fr, args, 0, 1) == Some(op.pointer)
  {
    hide Sim, ContextOk, RefCode, PointerCode, Resolve, FindObject, FindPointer, ObjectOperand, PointerOperand;
    if ObjectOp(op) {
      RefSim(cx, tb, fr, st, nextTemp, op.target, args, 0, 1);
    } else {
      PointerRead(cx, fr, op.pointer, args, tag, value);
    }
  }

  lemma EditRead(cx: Context, tb: Tables, fr: Frame, op: Op, code: Opcode, args: seq<Value>, rest: seq<Value>)
    requires (ObjectOp(op) || PointerOp(op)) && RestCode(tb, fr, op, code, rest) && |args| == |rest| + 2 &&
             args[0].UInt64? && args[1].UInt64?
    requires forall i :: 0 <= i < |rest| ==> args[i + 2] == rest[i]
    requires ObjectOp(op) ==> ObjectOperand(cx, tb, fr, args, 0, 1) == Some(op.target)
    requires PointerOp(op) ==> PointerOperand(cx, fr, args, 0, 1) == Some(op.pointer)
    ensures Edit(cx, tb, fr, code, args) == Some(op)
  {
    hide ObjectOperand, PointerOperand, U64, Name, Bound, F64, ExistenceCode, ExistenceOf, AttributeCode, KeyCode,
         ValueOperand;
    RestRead(cx, tb, fr, op, code, args, rest);
  }

  lemma EditRuns(cx: Context, tb: Tables, fr: Frame, code: Opcode, args: seq<Value>, op: Op)
    requires Edit(cx, tb, fr, code, args) == Some(op) && !RawObject(args) && |args| == Arity(code)
    ensures Exec(cx, tb, fr, Instruction(code, args)) == Some(Pushed(fr, op))
  {
    hide ObjectOperand, PointerOperand, U64, Name, Bound, F64, ExistenceOf, ValueOperand, RawObject, Arity;
  }

  lemma PointerRead(cx: Context, fr: Frame, p: nat, args: seq<Value>, tag: nat, value: nat)
    requires PointerCode(cx.before, fr, p, tag, value) && |args| >= 2 && args[0] == UInt64(tag) &&
             args[1] == UInt64(value)
    ensures PointerOperand(cx, fr, args, 0, 1) == Some(p)
  {
  }

  lemma RestRead(cx: Context, tb: Tables, fr: Frame, op: Op, code: Opcode, args: seq<Value>, rest: seq<Value>)
    requires RestCode(tb, fr, op, code, rest) && |args| == |rest| + 2 && args[0].UInt64? && args[1].UInt64?
    requires forall i :: 0 <= i < |rest| ==> args[i + 2] == rest[i]
    ensures |args| == Arity(code) && !RawObject(args)
    ensures op.SetObjectType? ==> Bound(fr.typeSymbols, args, 2) == Some(op.typ)
    ensures op.SetObjectExistence? ==>
              U64(args, 2) == Some(ExistenceCode(op.existence)) &&
              ExistenceOf(ExistenceCode(op.existence)) == Some(op.existence)
    ensures op.SetObjectAttribute? || op.SetPointerAttribute? ==>
              Name(tb.strings, args, 2) == Some(op.attribute.key) && ValueOperand(args, 3) == Some(op.attribute.value)
    ensures op.RemoveObjectAttribute? || op.RemovePointerAttribute? ==> Name(tb.strings, args, 2) == Some(op.key)
    ensures op.SetPointerWeight? ==> F64(cx, args, 2) == Some(op.weight)
  {
    hide ExistenceCode, ExistenceOf;
    assert |rest| > 0 ==> args[0 + 2] == rest[0];
    assert |rest| > 1 ==> args[1 + 2] == rest[1];
    assert |rest| <= 2;
    if op.SetObjectExistence? {
      ExistenceBack(op.existence);
    }
  }

  // ---- appending to the code

  lemma Emitted(cx: Context, tb: Tables, tb': Tables, code: seq<Instruction>, ins: Instruction, fr: Frame, fr': Frame)
    requires Grows(tb, tb') && ExecAll(cx, tb, EmptyFrame(cx), code) == Some(fr) && Exec(cx, tb', fr, ins) == Some(fr')
    ensures ExecAll(cx, tb', EmptyFrame(cx), code + [ins]) == Some(fr')
  {
    hide Exec, Grows, EmptyFrame, ExecAll;
    ExecAllGrows(cx, tb, tb', EmptyFrame(cx), code);
    ExecAppend(cx, tb', EmptyFrame(cx), code, [ins]);
    ExecOne(cx, tb', fr, ins);
  }

  lemma ExecOne(cx: Context, tb: Tables, fr: Frame, ins: Instruction)
    ensures ExecAll(cx, tb, fr, [ins]) == Exec(cx, tb, fr, ins)
  {
    hide Exec;
    assert [ins][0] == ins && [ins][1..] == [];
    if Exec(cx, tb, fr, ins).Some? {
      assert ExecAll(cx, tb, Exec(cx, tb, fr, ins).value, []) == Exec(cx, tb, fr, ins);
    }
  }

  lemma SimStrings(cx: Context, tb: Tables, tb': Tables, fr: Frame, st: State, nextTemp: nat)
    requires Sim(cx, tb, fr, st, nextTemp) && tb'.types == tb.types && tb'.relations == tb.relations
    ensures Sim(cx, tb', fr, st, nextTemp)
  {
  }

  lemma StartSim(cx: Context, tb: Tables)
    requires ContextOk(cx) && SlotsOk(tb.types, cx.before.typeNames) && SlotsOk(tb.relations, cx.before.relationNames)
    ensures Sim(cx, tb, EmptyFrame(cx), Start(cx.before), 1)
  {
    hide WellFormed, Extends, NextPointer;
    StartKeeps(cx.before);
    assert NameSet(cx.before.objects) == NameSet(cx.before.objects) + {};
  }

  // One edit appended: the code runs on, and machine and overlay stay together.
  lemma EditEmitted(cx: Context, tb: Tables, tb': Tables, fr: Frame, st: State, nextTemp: nat, done: seq<Instruction>,
                    op: Op, code: Opcode, tag: nat, value: nat, rest: seq<Value>)
    requires ContextOk(cx) && Sim(cx, tb, fr, st, nextTemp) && (ObjectOp(op) || PointerOp(op)) && Step(st, op).Ok?
    requires Grows(tb, tb') && tb'.types == tb.types && tb'.relations == tb.relations
    requires ExecAll(cx, tb, EmptyFrame(cx), done) == Some(fr)
    requires TargetCode(cx.before, tb', fr, op, tag, value) && RestCode(tb', fr, op, code, rest)
    ensures ExecAll(cx, tb', EmptyFrame(cx), done + [Instruction(code, [UInt64(tag), UInt64(value)] + rest)]) ==
            Some(Pushed(fr, op))
    ensures Sim(cx, tb', Pushed(fr, op), Step(st, op).value, nextTemp)
  {
    hide Sim, ContextOk, Step, Exec, ExecAll, TargetCode, RestCode, Grows, EmptyFrame;
    SimStrings(cx, tb, tb', fr, st, nextTemp);
    CodeExec(cx, tb', fr, st, nextTemp, op, code, tag, value, rest);
    EditSim(cx, tb', fr, st, nextTemp, op);
    Emitted(cx, tb, tb', done, Instruction(code, [UInt64(tag), UInt64(value)] + rest), fr, Pushed(fr, op));
  }
}
