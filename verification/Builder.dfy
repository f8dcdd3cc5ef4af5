// The program builder: compiles a delta into a program, interning names as it goes.

module Builder {
  import opened Wrappers
  import opened Model
  import opened Attributes
  import opened Overlay
  import opened Invariants
  import opened Listings
  import opened Programs
  import opened CompileProof
  import Effects
  import opened Expansion
  import Registry

  // Every symbol names its entry, and every given name has a symbol.
  ghost predicate Indexed(table: seq<string>, symbols: map<string, nat>) {
    && (forall n :: n in symbols ==> symbols[n] < |table| && table[symbols[n]] == n)
    && (forall i :: 0 <= i < |table| && table[i] != "" ==> table[i] in symbols)
  }

  lemma IndexedPush(table: seq<string>, symbols: map<string, nat>, name: string)
    requires Indexed(table, symbols)
    ensures Indexed(table + [name], symbols[name := |table|])
  {
  }

  // ---- importing the symbols of a snapshot

  ghost predicate Imported(table: seq<string>, symbols: map<string, nat>, names: map<nat, string>, left: set<nat>) {
    && Indexed(table, symbols) && "" !in symbols
    && (forall i :: 0 <= i < |table| ==> table[i] == if i + 1 in names && i + 1 !in left then names[i + 1] else "")
    && (forall k :: k in names && k !in left ==> k <= |table|)
    && (|table| == 0 || (|table| in names && |table| !in left))
  }

  lemma ImportOne(table: seq<string>, symbols: map<string, nat>, names: map<nat, string>, left: set<nat>, k: nat)
    requires SymbolsOk(names) && Imported(table, symbols, names, left) && k in left && k in names
    ensures k > 0 && names[k] != "" && names[k] !in symbols
    ensures Imported(Registry.Resized(table, k)[k - 1 := names[k]], symbols[names[k] := k - 1], names, left - {k})
  {
    var name := names[k];
    assert name !in symbols;
    assert k <= |table| ==> table[k - 1] == "";
    ImportIndexed(table, symbols, k, name);
    ImportSlots(table, names, left, k);
  }

  lemma ImportIndexed(table: seq<string>, symbols: map<string, nat>, k: nat, name: string)
    requires Indexed(table, symbols) && "" !in symbols && name !in symbols && k > 0 &&
             (k <= |table| ==> table[k - 1] == "") && name != ""
    ensures Indexed(Registry.Resized(table, k)[k - 1 := name], symbols[name := k - 1])
  {
    var more := Registry.Resized(table, k)[k - 1 := name];
    forall n | n in symbols ensures symbols[n] < |more| && more[symbols[n]] == n {
      assert table[symbols[n]] == n != "";
    }
    forall i | 0 <= i < |more| && more[i] != "" ensures more[i] in symbols[name := k - 1] {
      assert i != k - 1 ==> i < |table| && table[i] == more[i];
    }
  }

  lemma ImportSlots(table: seq<string>, names: map<nat, string>, left: set<nat>, k: nat)
    requires k in left && k in names && k > 0
    requires forall i :: 0 <= i < |table| ==> table[i] == if i + 1 in names && i + 1 !in left then names[i + 1] else ""
    requires (forall j :: j in names && j !in left ==> j <= |table|) &&
             (|table| == 0 || (|table| in names && |table| !in left))
    ensures var more := Registry.Resized(table, k)[k - 1 := names[k]];
            && (forall i :: 0 <= i < |more| ==> more[i] == if i + 1 in names && i + 1 !in left - {k} then names[i + 1]
              else "")
            && (forall j :: j in names && j !in left - {k} ==> j <= |more|)
            && (|more| == 0 || (|more| in names && |more| !in left - {k}))
  {
  }

  lemma ImportNone(names: map<nat, string>)
    ensures Imported([], map[], names, names.Keys)
  {
  }

  lemma ImportAll(table: seq<string>, symbols: map<string, nat>, names: map<nat, string>)
    requires SymbolsOk(names) && Imported(table, symbols, names, {})
    ensures Indexed(table, symbols) && SlotsOk(table, names)
  {
    NextIs(names, |table| + 1);
  }

  method ImportNames(names: map<nat, string>) returns (table: seq<string>, symbols: map<string, nat>)
    requires SymbolsOk(names)
    ensures Indexed(table, symbols) && SlotsOk(table, names)
  {
    hide Imported, SymbolsOk, SlotsOk, Indexed;
    table, symbols := [], map[];
    ImportNone(names);
    var keys := names.Keys;
    while keys != {}
      invariant keys <= names.Keys && Imported(table, symbols, names, keys)
      decreases keys
    {
      var k :| k in keys;
      ImportOne(table, symbols, names, keys, k);
      if k != 0 && names[k] != "" && names[k] !in symbols {
        table := Registry.Resized(table, k)[k - 1 := names[k]];
        symbols := symbols[names[k] := k - 1];
      }
      keys := keys - {k};
    }
    ImportAll(table, symbols, names);
  }

  class ProgramBuilder {
    var strings: seq<string>
    var typeNames: seq<string>
    var relationNames: seq<string>
    var code: seq<Instruction>
    var stringSymbols: map<string, nat>
    var typeSymbols: map<string, nat>
    var relationSymbols: map<string, nat>
    var nextTempPointer: nat

    // What the code emitted so far does: the machine's frame and the overlay's state.
    ghost var frame: Frame
    ghost var state: State

    ghost function Names(): Tables
      reads this
    {
      Tables(strings, typeNames, relationNames)
    }

    ghost predicate Valid()
      reads this
    {
      Indexed(strings, stringSymbols) && Indexed(typeNames, typeSymbols) && Indexed(relationNames, relationSymbols) &&
        nextTempPointer >= 1
    }

    ghost predicate Matches(cx: Context)
      reads this
    {
      Valid() && ContextOk(cx) && ExecAll(cx, Names(), EmptyFrame(cx), code) == Some(frame) &&
        Sim(cx, Names(), frame, state, nextTempPointer)
    }

    constructor ()
      ensures Valid() && Names() == Tables([], [], []) && code == [] && nextTempPointer == 1
    {
      strings, typeNames, relationNames, code := [], [], [], [];
      stringSymbols, typeSymbols, relationSymbols := map[], map[], map[];
      nextTempPointer := 1;
      frame := Frame([], map[], map[], map[], map[], map[], 0);
      state := State(Snapshot(0, "", 0, [], [], map[], map[]), map[]);
    }

    method ImportSymbols(snapshot: Snapshot)
      requires Valid() && typeNames == [] && relationNames == []
      requires SymbolsOk(snapshot.typeNames) && SymbolsOk(snapshot.relationNames)
      modifies `typeNames, `relationNames, `typeSymbols, `relationSymbols
      ensures Valid() && SlotsOk(typeNames, snapshot.typeNames) && SlotsOk(relationNames, snapshot.relationNames)
    {
      typeNames, typeSymbols := ImportNames(snapshot.typeNames);
      relationNames, relationSymbols := ImportNames(snapshot.relationNames);
    }

    method StringSymbol(ghost cx: Context, value: string) returns (index: nat)
      requires Matches(cx)
      modifies `strings, `stringSymbols
      ensures Matches(cx) && old(strings) <= strings && index < |strings| && strings[index] == value
    {
      hide Indexed, Sim, ExecAll, EmptyFrame, ContextOk;
      ghost var tb := Names();
      if value in stringSymbols {
        IndexedAt(strings, stringSymbols, value);
        return stringSymbols[value];
      }
      index := |strings|;
      IndexedPush(strings, stringSymbols, value);
      strings := strings + [value];
      stringSymbols := stringSymbols[value := index];
      ExecAllGrows(cx, tb, Names(), EmptyFrame(cx), code);
      SimStrings(cx, tb, Names(), frame, state, nextTempPointer);
    }

    method TypeSymbol(value: string) returns (index: nat)
      requires Valid()
      modifies `typeNames, `typeSymbols
      ensures Valid() && index < |typeNames| && typeNames[index] == value
      ensures value != "" ==> typeNames == if value in old(typeNames) then old(typeNames) else old(typeNames) + [value]
    {
      if value in typeSymbols {
        return typeSymbols[value];
      }
      index := |typeNames|;
      IndexedPush(typeNames, typeSymbols, value);
      typeNames := typeNames + [value];
      typeSymbols := typeSymbols[value := index];
    }

    method RelationSymbol(value: string) returns (index: nat)
      requires Valid()
      modifies `relationNames, `relationSymbols
      ensures Valid() && index < |relationNames| && relationNames[index] == value
      ensures value != "" ==> relationNames == if value in old(relationNames) then old(relationNames)
              else old(relationNames) + [value]
    {
      if value in relationSymbols {
        return relationSymbols[value];
      }
      index := |relationNames|;
      IndexedPush(relationNames, relationSymbols, value);
      relationNames := relationNames + [value];
      relationSymbols := relationSymbols[value := index];
    }

    method Emit(op: Opcode, args: seq<Value>)
      modifies `code
      ensures code == old(code) + [Instruction(op, args)]
    {
      code := code + [Instruction(op, args)];
    }

    // Interns a type; the machine will bind its slot to the symbol the overlay has for it.
    method InternType(ghost cx: Context, name: string) returns (ghost s: nat)
      requires Matches(cx) && name != ""
      modifies `typeNames, `typeSymbols, `code, `frame, `state
      ensures Matches(cx) && s < |typeNames| && typeNames[s] == name &&
              Step(old(state), Op.InternType(name, s + 1)) == Ok(state)
      ensures frame == Pushed(old(frame).(typeSymbols := old(frame).typeSymbols[s := s + 1]),
              Op.InternType(name, s + 1))
      ensures s + 1 in state.snap.typeNames && state.snap.typeNames[s + 1] == name
      ensures name in old(state).snap.typeNames.Values ==> state == old(state)
      ensures name !in old(state).snap.typeNames.Values ==> s + 1 == NextSymbol(old(state).snap.typeNames)
    {
      hide Indexed, Sim, ExecAll, EmptyFrame, ContextOk, Exec, Step, NextSymbol;
      ghost var tb, done := Names(), code;
      var symbol := TypeSymbol(name);
      Emit(TypeIn, [UInt64(symbol)]);
      s := symbol;
      ghost var fr, st := TypeInSim(cx, tb, Names(), frame, state, nextTempPointer, name, s);
      Emitted(cx, tb, Names(), done, Instruction(TypeIn, [UInt64(symbol)]), frame, fr);
      frame, state := fr, st;
    }

    method InternRelation(ghost cx: Context, name: string) returns (ghost s: nat)
      requires Matches(cx) && name != ""
      modifies `relationNames, `relationSymbols, `code, `frame, `state
      ensures Matches(cx) && s < |relationNames| && relationNames[s] == name &&
              Step(old(state), Op.InternRelation(name, s + 1)) == Ok(state)
      ensures frame == Pushed(old(frame).(relationSymbols := old(frame).relationSymbols[s := s + 1]),
              Op.InternRelation(name, s + 1))
      ensures s + 1 in state.snap.relationNames && state.snap.relationNames[s + 1] == name
      ensures name in old(state).snap.relationNames.Values ==> state == old(state)
      ensures name !in old(state).snap.relationNames.Values ==> s + 1 == NextSymbol(old(state).snap.relationNames)
    {
      hide Indexed, Sim, ExecAll, EmptyFrame, ContextOk, Exec, Step, NextSymbol;
      ghost var tb, done := Names(), code;
      var symbol := RelationSymbol(name);
      Emit(RelationIn, [UInt64(symbol)]);
      s := symbol;
      ghost var fr, st := RelationInSim(cx, tb, Names(), frame, state, nextTempPointer, name, s);
      Emitted(cx, tb, Names(), done, Instruction(RelationIn, [UInt64(symbol)]), frame, fr);
      frame, state := fr, st;
    }

    // A reference by temp, or by the name of an object of the snapshot; an unknown one throws.
    method RefFor(ghost cx: Context, snapshot: Snapshot, ref: Ref) returns (r: Result<(nat, nat), string>)
      requires Matches(cx)
      modifies `strings, `stringSymbols
      ensures Matches(cx) && old(strings) <= strings
      ensures r.Ok? <==> RefKnown(snapshot, ref)
      ensures r.Ok? ==> RefCode(snapshot, strings, ref, r.value.0, r.value.1)
    {
      hide Matches;
      match ref
      case ById(id) =>
        var at := FindObject(snapshot.objects, id);
        if at.None? {
          return Err("cannot compile unknown object");
        }
        var symbol := StringSymbol(cx, snapshot.objects[at.value].name);
        r := Ok((KNOWN_TAG, symbol));
      case ByTemp(temp) =>
        r := Ok((TEMP_TAG, temp));
    }

    // Interns the type of a symbol the overlay has, and gives its slot.
    method TypeSlot(ghost cx: Context, name: string, ghost typ: nat) returns (slot: nat)
      requires Matches(cx) && typ in state.snap.typeNames && state.snap.typeNames[typ] == name && name != ""
      modifies `typeNames, `typeSymbols, `code, `frame, `state
      ensures Matches(cx) && state == old(state) && slot in frame.typeSymbols && frame.typeSymbols[slot] == typ
      ensures frame.delta == old(frame).delta + [Op.InternType(name, typ)]
    {
      hide Indexed, Sim, ExecAll, EmptyFrame, ContextOk, Exec, Step, NextSymbol;
      assert name in state.snap.typeNames.Values;
      ghost var s := InternType(cx, name);
      slot := TypeSymbol(name);
      TypeOnce(cx, Names(), frame, state, nextTempPointer, s, slot, typ);
    }

    method RelationSlot(ghost cx: Context, name: string, ghost relation: nat) returns (slot: nat)
      requires Matches(cx) && relation in state.snap.relationNames && state.snap.relationNames[relation] == name &&
               name != ""
      modifies `relationNames, `relationSymbols, `code, `frame, `state
      ensures Matches(cx) && state == old(state) && slot in frame.relationSymbols &&
              frame.relationSymbols[slot] == relation
      ensures frame.delta == old(frame).delta + [Op.InternRelation(name, relation)]
    {
      hide Indexed, Sim, ExecAll, EmptyFrame, ContextOk, Exec, Step, NextSymbol;
      assert name in state.snap.relationNames.Values;
      ghost var s := InternRelation(cx, name);
      slot := RelationSymbol(name);
      RelationOnce(cx, Names(), frame, state, nextTempPointer, s, slot, relation);
    }

    // ---- operations on what exists

    method EmitEdit(ghost cx: Context, ghost op: Op, opcode: Opcode, tag: nat, value: nat, rest: seq<Value>)
      requires Matches(cx) && (ObjectOp(op) || PointerOp(op)) && Step(state, op).Ok?
      requires TargetCode(cx.before, Names(), frame, op, tag, value) && RestCode(Names(), frame, op, opcode, rest)
      modifies `code, `frame, `state
      ensures Matches(cx) && Ok(state) == Step(old(state), op) && frame == Pushed(old(frame), op)
    {
      hide Indexed, Sim, Step, ExecAll, EmptyFrame, ContextOk, TargetCode, RestCode, Exec;
      ghost var done := code;
      Emit(opcode, [UInt64(tag), UInt64(value)] + rest);
      EditEmitted(cx, Names(), Names(), frame, state, nextTempPointer, done, op, opcode, tag, value, rest);
      state := Step(state, op).value;
      frame := Pushed(frame, op);
    }

    method AppendObject(ghost cx: Context, snapshot: Snapshot, op: Op, names: map<nat, string>)
      returns (r: Result<(), string>)
      requires Matches(cx) && snapshot == cx.before && ObjectOp(op) && Step(state, op).Ok? && Plain(op)
      requires Renamed(names, snapshot.typeNames, state.snap.typeNames) && Given(state.snap.typeNames)
      modifies this
      ensures r.Ok? <==> RefKnown(snapshot, op.target)
      ensures r.Ok? ==> Matches(cx) && Ok(state) == Step(old(state), op)
      ensures r.Ok? ==> frame.delta == old(frame).delta + Out(old(state), op)
    {
      hide Matches, Step, RefCode, Exec, Renamed, Given, RefKnown, FindObject, UniqueKeys, ExistenceCode, Out;
      OutSame(state, op);
      ghost var st := state;
      var target := RefFor(cx, snapshot, op.target);
      if target.Err? {
        return Err(target.error);
      }
      var (tag, value) := target.value;
      ghost var read := strings;
      match op {
      case SetObjectType(_, typ) =>
        TypeAccepted(state, op);
        NameForIs(names, snapshot.typeNames, state.snap.typeNames, "T", typ);
        var slot := TypeSlot(cx, NameFor(names, snapshot.typeNames, "T", typ), typ);
        OutType(st, op);
        EmitEdit(cx, op, ObjectType, tag, value, [UInt64(slot)]);
      case SetObjectExistence(_, existence) =>
        EmitEdit(cx, op, ObjectExistence, tag, value, [UInt64(ExistenceCode(existence))]);
      case SetObjectAttribute(_, a) =>
        var key := StringSymbol(cx, a.key);
        RefGrows(snapshot, read, strings, op.target, tag, value);
        EmitEdit(cx, op, ObjectSet, tag, value, [UInt64(key), a.value]);
      case RemoveObjectAttribute(_, k) =>
        var key := StringSymbol(cx, k);
        RefGrows(snapshot, read, strings, op.target, tag, value);
        EmitEdit(cx, op, ObjectDrop, tag, value, [UInt64(key)]);
      case AssertObject(_) =>
        EmitEdit(cx, op, CheckObject, tag, value, []);
      case _ =>
      }
      r := Ok(());
    }

    method AppendPointer(ghost cx: Context, op: Op)
      requires Matches(cx) && PointerOp(op) && Step(state, op).Ok? && Plain(op) &&
               FindPointer(cx.before.pointers, op.pointer).Some?
      modifies this
      ensures Matches(cx) && Ok(state) == Step(old(state), op)
      ensures frame.delta == old(frame).delta + [op]
    {
      hide Matches, Step, Exec, FindPointer, UniqueKeys;
      match op {
      case ExpirePointer(p) => EmitEdit(cx, op, PointerExpire, KNOWN_TAG, p, []);
      case SetPointerWeight(p, w) => EmitEdit(cx, op, PointerWeight, KNOWN_TAG, p, [Float64(w)]);
      case SetPointerAttribute(p, a) =>
        var key := StringSymbol(cx, a.key);
        EmitEdit(cx, op, PointerSet, KNOWN_TAG, p, [UInt64(key), a.value]);
      case RemovePointerAttribute(p, k) =>
        var key := StringSymbol(cx, k);
        EmitEdit(cx, op, PointerDrop, KNOWN_TAG, p, [UInt64(key)]);
      case AssertPointer(p) => EmitEdit(cx, op, CheckPointer, KNOWN_TAG, p, []);
      case _ =>
      }
    }

    method AppendEvent(ghost cx: Context, event: Event)
      requires Matches(cx)
      modifies `code, `frame, `state
      ensures Matches(cx) && state == old(state)
      ensures frame.delta == old(frame).delta + [EmitEvent(event)]
    {
      hide Indexed, Sim, ExecAll, EmptyFrame, ContextOk;
      ghost var done := code;
      code := code + [Instruction.Emit(event)];
      EditSim(cx, Names(), frame, state, nextTempPointer, EmitEvent(event));
      Emitted(cx, Names(), Names(), done, Instruction.Emit(event), frame, Pushed(frame, EmitEvent(event)));
      frame := Pushed(frame, EmitEvent(event));
    }

    // ---- creating: the bare object or pointer, then its attributes

    method AppendCreate(ghost cx: Context, snapshot: Snapshot, op: Op, names: map<nat, string>)
      requires Matches(cx) && snapshot == cx.before && op.CreateObject? && Step(state, op).Ok? && Plain(op)
      requires Renamed(names, snapshot.typeNames, state.snap.typeNames) && Given(state.snap.typeNames)
      modifies this
      ensures Matches(cx) && Ok(state) == Step(old(state), op)
      ensures frame.delta == old(frame).delta + Out(old(state), op)
    {
      hide Matches, Step, Exec, Renamed, Given, UniqueKeys, Out;
      ghost var st, before := state, frame.delta;
      CreateBare(st, op);
      NameForIs(names, snapshot.typeNames, state.snap.typeNames, "T", op.typ);
      var slot := TypeSlot(cx, NameFor(names, snapshot.typeNames, "T", op.typ), op.typ);
      var name := StringSymbol(cx, op.name);
      EmitCreate(cx, Having(op, []), name, slot);
      OutCreateBare(st, op);
      assert op.attributes[..0] == [];
      for k := 0 to |op.attributes|
        invariant Matches(cx) && Step(st, Having(op, op.attributes[..k])) == Ok(state)
        invariant frame.delta == before + Out(st, Having(op, op.attributes[..k]))
      {
        var a := op.attributes[k];
        OutCreateMore(st, op, k);
        CreateMade(st, op, k);
        var key := StringSymbol(cx, a.key);
        EmitEdit(cx, SetObjectAttribute(ByTemp(op.temp), a), ObjectSet, TEMP_TAG, op.temp, [UInt64(key), a.value]);
      }
      assert op.attributes[..|op.attributes|] == op.attributes && Having(op, op.attributes) == op;
    }

    method EmitCreate(ghost cx: Context, op: Op, name: nat, slot: nat)
      requires Matches(cx) && op.CreateObject? && op.attributes == [] && op.existence == Alive && Step(state, op).Ok? &&
               op.temp <= MAX_TEMP
      requires name < |strings| && strings[name] == op.name && slot in frame.typeSymbols &&
               frame.typeSymbols[slot] == op.typ
      modifies `code, `frame, `state
      ensures Matches(cx) && Ok(state) == Step(old(state), op) && frame == CreatedFrame(old(frame), op)
    {
      hide Indexed, Sim, Step, ExecAll, EmptyFrame, ContextOk, Exec, CreatedFrame;
      ghost var done, fr := code, frame;
      Emit(ObjectNew, [UInt64(op.temp), UInt64(name), UInt64(slot)]);
      CreateSim(cx, Names(), frame, state, nextTempPointer, op, name, slot);
      frame := CreatedFrame(fr, op);
      Emitted(cx, Names(), Names(), done, Instruction(ObjectNew, [UInt64(op.temp), UInt64(name), UInt64(slot)]), fr,
        frame);
      state := Step(state, op).value;
    }

    method AppendLink(ghost cx: Context, snapshot: Snapshot, op: Op, names: map<nat, string>)
      returns (r: Result<(), string>)
      requires Matches(cx) && snapshot == cx.before && op.CreatePointer? && Step(state, op).Ok? && Plain(op)
      requires Renamed(names, snapshot.relationNames, state.snap.relationNames) && Given(state.snap.relationNames)
      modifies this
      ensures r.Ok? <==> RefKnown(snapshot, op.from) && RefKnown(snapshot, op.to)
      ensures r.Ok? ==> Matches(cx) && Ok(state) == Step(old(state), op)
      ensures r.Ok? ==> frame.delta == old(frame).delta + Out(old(state), op)
    {
      hide Matches, Step, Renamed, Given, UniqueKeys, RefKnown, NextPointer, Out;
      ghost var st, before := state, frame.delta;
      LinkBare(st, op);
      var made := AppendBareLink(cx, snapshot, op, names);
      if made.Err? {
        return Err(made.error);
      }
      var temp := made.value;
      assert op.attributes[..0] == [];
      for k := 0 to |op.attributes|
        invariant Matches(cx) && Step(st, Having(op, op.attributes[..k])) == Ok(state)
        invariant frame.delta == before + Out(st, Having(op, op.attributes[..k]))
        invariant temp in frame.tempPointers && frame.tempPointers[temp] == NextPointer(st.snap.pointers)
      {
        var a := op.attributes[k];
        OutLinkMore(st, op, k);
        LinkMade(st, op, k);
        var key := StringSymbol(cx, a.key);
        EmitEdit(cx, SetPointerAttribute(NextPointer(st.snap.pointers), a), PointerSet, TEMP_TAG, temp,
          [UInt64(key), a.value]);
      }
      assert op.attributes[..|op.attributes|] == op.attributes && Having(op, op.attributes) == op;
      r := Ok(());
    }

    // The pointer itself, and the temp it was made under.
    method AppendBareLink(ghost cx: Context, snapshot: Snapshot, op: Op, names: map<nat, string>)
      returns (r: Result<nat, string>)
      requires Matches(cx) && snapshot == cx.before && op.CreatePointer? && Step(state, op).Ok?
      requires Renamed(names, snapshot.relationNames, state.snap.relationNames) && Given(state.snap.relationNames)
      modifies this
      ensures r.Ok? <==> RefKnown(snapshot, op.from) && RefKnown(snapshot, op.to)
      ensures r.Ok? ==> Matches(cx) && Step(old(state), Having(op, [])) == Ok(state)
      ensures r.Ok? ==> frame.delta == old(frame).delta + Out(old(state), Having(op, []))
      ensures r.Ok? ==>
                r.value in frame.tempPointers && frame.tempPointers[r.value] == NextPointer(old(state).snap.pointers)
    {
      hide Matches, Step, Renamed, Given, RefCode, RefKnown, NextPointer;
      LinkBare(state, op);
      var from := RefFor(cx, snapshot, op.from);
      if from.Err? {
        return Err(from.error);
      }
      ghost var read := strings;
      var to := RefFor(cx, snapshot, op.to);
      if to.Err? {
        return Err(to.error);
      }
      RefGrows(snapshot, read, strings, op.from, from.value.0, from.value.1);
      NameForIs(names, snapshot.relationNames, state.snap.relationNames, "R", op.relation);
      var slot := RelationSlot(cx, NameFor(names, snapshot.relationNames, "R", op.relation), op.relation);
      read := strings;
      var domain := StringSymbol(cx, op.lawDomain);
      RefGrows(snapshot, read, strings, op.from, from.value.0, from.value.1);
      RefGrows(snapshot, read, strings, op.to, to.value.0, to.value.1);
      var temp := EmitLink(cx, Having(Domained(op), []), from.value, to.value, slot, op.weight, op.role, domain);
      r := Ok(temp);
    }

    method EmitLink(ghost cx: Context, ghost op: Op, from: (nat, nat), to: (nat, nat), slot: nat, weight: Double,
                    role: Role, domain: nat)
      returns (temp: nat)
      requires Matches(cx) && op.CreatePointer? && op.attributes == [] && Step(state, op).Ok? && op.weight == weight &&
               op.role == role
      requires RefCode(cx.before, strings, op.from, from.0, from.1) && RefCode(cx.before, strings, op.to, to.0, to.1)
      requires slot in frame.relationSymbols && frame.relationSymbols[slot] == op.relation
      requires domain < |strings| && op.lawDomain == (if strings[domain] == "" then "core" else strings[domain])
      modifies `code, `frame, `state, `nextTempPointer
      ensures Matches(cx) && Ok(state) == Step(old(state), op) && frame.delta == old(frame).delta + [op]
      ensures temp in frame.tempPointers && frame.tempPointers[temp] == NextPointer(old(state).snap.pointers)
    {
      hide Indexed, Sim, Step, ExecAll, EmptyFrame, ContextOk, Exec, LinkedFrame, RefCode, NextPointer, LinkArgs;
      ghost var done, fr, st := code, frame, state;
      temp := nextTempPointer;
      nextTempPointer := nextTempPointer + 1;
      Emit(PointerNew, LinkArgs(temp, from, to, slot, weight, role, domain));
      LinkEmitted(cx, Names(), fr, st, temp, done, op, from, to, slot, domain);
      frame := LinkedFrame(fr, op, temp);
      state := Step(st, op).value;
      LinkedAt(cx, Names(), fr, st, temp, op);
    }

    // ---- a whole delta

    method AppendTypeIn(ghost cx: Context, snapshot: Snapshot, name: string, symbol: nat, names: map<nat, string>)
      returns (r: map<nat, string>)
      requires Matches(cx) && name != "" && WellInterned(state.snap.typeNames, symbol, name)
      requires Renamed(names, snapshot.typeNames, state.snap.typeNames)
      modifies `typeNames, `typeSymbols, `code, `frame, `state
      ensures Matches(cx) && Ok(state) == Step(old(state), Op.InternType(name, symbol))
      ensures frame.delta == old(frame).delta + Out(old(state), Op.InternType(name, symbol))
      ensures Renamed(r, snapshot.typeNames, state.snap.typeNames) &&
              state.snap.relationNames == old(state).snap.relationNames
    {
      hide Matches, Step, Renamed, NextSymbol, WellInterned;
      ghost var st := state;
      r := names;
      if symbol != 0 && symbol !in names {
        r := names[symbol := name];
      }
      MatchesGiven(cx);
      ghost var s := InternType(cx, name);
      TypeInSame(st, name, symbol, s, state);
      GivenIs(st.snap.typeNames, name, symbol, s + 1);
      RenamedMore(names, snapshot.typeNames, st.snap.typeNames, state.snap.typeNames, name, symbol, s + 1);
    }

    method AppendRelationIn(ghost cx: Context, snapshot: Snapshot, name: string, symbol: nat, names: map<nat, string>)
      returns (r: map<nat, string>)
      requires Matches(cx) && name != "" && WellInterned(state.snap.relationNames, symbol, name)
      requires Renamed(names, snapshot.relationNames, state.snap.relationNames)
      modifies `relationNames, `relationSymbols, `code, `frame, `state
      ensures Matches(cx) && Ok(state) == Step(old(state), Op.InternRelation(name, symbol))
      ensures frame.delta == old(frame).delta + Out(old(state), Op.InternRelation(name, symbol))
      ensures Renamed(r, snapshot.relationNames, state.snap.relationNames) &&
              state.snap.typeNames == old(state).snap.typeNames
    {
      hide Matches, Step, Renamed, NextSymbol, WellInterned;
      ghost var st := state;
      r := names;
      if symbol != 0 && symbol !in names {
        r := names[symbol := name];
      }
      MatchesGiven(cx);
      ghost var s := InternRelation(cx, name);
      RelationInSame(st, name, symbol, s, state);
      GivenIs(st.snap.relationNames, name, symbol, s + 1);
      RenamedMore(names, snapshot.relationNames, st.snap.relationNames, state.snap.relationNames, name, symbol, s + 1);
    }

    method AppendOp(ghost cx: Context, snapshot: Snapshot, op: Op, types: map<nat, string>, relations: map<nat, string>)
      returns (r: Result<(map<nat, string>, map<nat, string>), string>)
      requires Matches(cx) && snapshot == cx.before && Step(state, op).Ok? && Compilable(snapshot, state, op)
      requires Renamed(types, snapshot.typeNames, state.snap.typeNames) &&
               Renamed(relations, snapshot.relationNames, state.snap.relationNames)
      modifies this
      ensures r.Ok? <==> RefsKnown(snapshot, op)
      ensures r.Ok? ==> Matches(cx) && Ok(state) == Step(old(state), op)
      ensures r.Ok? ==> frame.delta == old(frame).delta + Out(old(state), op)
      ensures r.Ok? ==>
                Renamed(r.value.0, snapshot.typeNames, state.snap.typeNames) &&
                Renamed(r.value.1, snapshot.relationNames, state.snap.relationNames)
    {
      hide Matches, Step, Renamed, Given, RefKnown, NextSymbol, WellInterned, FindPointer, Out, StateOk, WellFormed;
      ghost var st := state;
      MatchesGiven(cx);
      OutSame(st, op);
      TablesStay(st, op);
      var types', relations' := types, relations;
      if op.InternType? {
        GivenName(st, op);
        types' := AppendTypeIn(cx, snapshot, op.name, op.symbol, types);
      } else if op.InternRelation? {
        GivenName(st, op);
        relations' := AppendRelationIn(cx, snapshot, op.name, op.symbol, relations);
      } else if op.CreateObject? {
        AppendCreate(cx, snapshot, op, types);
      } else if op.CreatePointer? {
        var linked := AppendLink(cx, snapshot, op, relations);
        if linked.Err? {
          return Err(linked.error);
        }
      } else if op.EmitEvent? {
        EventIdle(st, op);
        AppendEvent(cx, op.event);
      } else if op.ExpirePointer? || op.SetPointerWeight? || op.SetPointerAttribute? || op.RemovePointerAttribute? ||
        op.AssertPointer? {
        AppendPointer(cx, op);
      } else {
        var done := AppendObject(cx, snapshot, op, types);
        if done.Err? {
          return Err(done.error);
        }
      }
      r := Ok((types', relations'));
    }

    lemma MatchesGiven(cx: Context)
      requires Matches(cx)
      ensures StateOk(state) && Given(state.snap.typeNames) && Given(state.snap.relationNames) && WellFormed(cx.before)
    {
      hide ExecAll, EmptyFrame, Extends, Run, Tracks, SlotsOk;
      StateNames(state);
    }

    method AppendDelta(ghost cx: Context, snapshot: Snapshot, delta: Delta) returns (r: Result<(), string>)
      requires Matches(cx) && snapshot == cx.before && state == Start(snapshot) && frame.delta == []
      requires Run(state, delta).Ok? && CompilableRun(snapshot, state, delta)
      modifies this
      ensures r.Ok? <==> forall i :: 0 <= i < |delta| ==> RefsKnown(snapshot, delta[i])
      ensures r.Ok? ==> Matches(cx) && Ok(state) == Run(old(state), delta) && frame.delta == Expanded(snapshot, delta)
    {
      hide Matches, Step, Renamed, RefsKnown, Compilable, Out, StateOk, Given, WellFormed;
      ghost var start := state;
      var types: map<nat, string> := map[];
      var relations: map<nat, string> := map[];
      RenamedNone(snapshot.typeNames);
      RenamedNone(snapshot.relationNames);
      assert delta[0..] == delta && delta[..0] == [];
      for i := 0 to |delta|
        invariant Matches(cx) && Run(start, delta) == Run(state, delta[i..]) &&
                  CompilableRun(snapshot, state, delta[i..])
        invariant Run(start, delta[..i]) == Ok(state) && frame.delta == Expanded(snapshot, delta[..i])
        invariant Renamed(types, snapshot.typeNames, state.snap.typeNames) &&
                  Renamed(relations, snapshot.relationNames, state.snap.relationNames)
        invariant forall j :: 0 <= j < i ==> RefsKnown(snapshot, delta[j])
      {
        RunHead(snapshot, state, delta, i);
        MatchesGiven(cx);
        RunOneMore(snapshot, state, delta, i);
        var done := AppendOp(cx, snapshot, delta[i], types, relations);
        if done.Err? {
          return Err(done.error);
        }
        types, relations := done.value.0, done.value.1;
      }
      assert delta[..|delta|] == delta;
      r := Ok(());
    }
  }

  // An operation written out against the tables and the next pointer of a state.
  ghost function Out(st: State, op: Op): Delta {
    WrittenOut(st.snap.typeNames, st.snap.relationNames, NextPointer(st.snap.pointers), op)
  }

  // An intern carries the symbol the name has, or none; a new name carries the next one.
  ghost predicate WellInterned(names: map<nat, string>, symbol: nat, name: string) {
    if name in names.Values then symbol == 0 || (symbol in names && names[symbol] == name)
      else symbol == NextSymbol(names)
  }

  // What the compiler takes: plain operations, regular interns, pointers of the snapshot itself.
  ghost predicate Compilable(before: Snapshot, st: State, op: Op) {
    && Plain(op) && !op.AssertFact?
    && (op.InternType? ==> WellInterned(st.snap.typeNames, op.symbol, op.name))
    && (op.InternRelation? ==> WellInterned(st.snap.relationNames, op.symbol, op.name))
    && (PointerOp(op) ==> FindPointer(before.pointers, op.pointer).Some?)
  }

  ghost predicate CompilableRun(before: Snapshot, st: State, ops: Delta)
    decreases |ops|
  {
    ops == [] || (Compilable(before, st, ops[0]) && (Step(st, ops[0]).Ok? ==>
      CompilableRun(before, Step(st, ops[0]).value, ops[1..])))
  }

  predicate RefsKnown(before: Snapshot, op: Op) {
    && (ObjectOp(op) ==> RefKnown(before, op.target))
    && (op.CreatePointer? ==> RefKnown(before, op.from) && RefKnown(before, op.to))
  }

  lemma RunHead(before: Snapshot, st: State, delta: Delta, i: nat)
    requires i < |delta| && Run(st, delta[i..]).Ok? && CompilableRun(before, st, delta[i..])
    ensures Step(st, delta[i]).Ok? && Compilable(before, st, delta[i])
    ensures Run(st, delta[i..]) == Run(Step(st, delta[i]).value, delta[i + 1..])
    ensures CompilableRun(before, Step(st, delta[i]).value, delta[i + 1..])
  {
    hide Step, Compilable;
    assert delta[i..][1..] == delta[i + 1..];
  }

  // A regular intern is written out with the symbol the machine gives it.
  lemma GivenIs(names: map<nat, string>, name: string, symbol: nat, at: nat)
    requires SymbolsOk(names) && WellInterned(names, symbol, name)
    requires if name in names.Values then at in names && names[at] == name else at == NextSymbol(names)
    ensures SymbolGiven(names, name, symbol) == at
  {
    hide NextSymbol;
  }

  lemma RunOneMore(base: Snapshot, st: State, delta: Delta, i: nat)
    requires i < |delta| && WellFormed(base) && Run(Start(base), delta[..i]) == Ok(st) && Step(st, delta[i]).Ok?
    ensures Run(Start(base), delta[..i + 1]) == Step(st, delta[i])
    ensures Expanded(base, delta[..i + 1]) == Expanded(base, delta[..i]) + Out(st, delta[i])
  {
    hide Step, WellFormed, Expanded;
    assert delta[..i + 1] == delta[..i] + [delta[i]];
    RunAppend(Start(base), delta[..i], [delta[i]]);
    assert Run(st, [delta[i]]) == Step(st, delta[i]);
    StateWritesOut(base, delta[..i], st, delta[i]);
  }

  // Most operations are written out as they are.
  lemma OutSame(st: State, op: Op)
    ensures (ObjectOp(op) && !op.SetObjectType?) || PointerOp(op) || op.EmitEvent? ==> Out(st, op) == [op]
  {
  }

  lemma OutType(st: State, op: Op)
    requires op.SetObjectType? && op.typ in st.snap.typeNames
    ensures Out(st, op) == [Op.InternType(st.snap.typeNames[op.typ], op.typ), op]
  {
  }

  lemma OutCreateBare(st: State, op: Op)
    requires op.CreateObject? && op.typ in st.snap.typeNames
    ensures Out(st, Having(op, [])) == [Op.InternType(st.snap.typeNames[op.typ], op.typ), Having(op, [])]
  {
  }

  // A create or link with one more attribute is written out with one more setting.
  lemma OutCreateMore(st: State, op: Op, k: nat)
    requires op.CreateObject? && k < |op.attributes|
    ensures Out(st, Having(op, op.attributes[..k + 1])) ==
            Out(st, Having(op, op.attributes[..k])) + [SetObjectAttribute(ByTemp(op.temp), op.attributes[k])]
  {
  }

  lemma OutLinkMore(st: State, op: Op, k: nat)
    requires op.CreatePointer? && k < |op.attributes|
    ensures Out(st, Having(op, op.attributes[..k + 1])) ==
            Out(st, Having(op, op.attributes[..k])) +
            [SetPointerAttribute(NextPointer(st.snap.pointers), op.attributes[k])]
  {
    hide NextPointer;
  }

  lemma RenamedNone(names: map<nat, string>)
    ensures Renamed(map[], names, names)
  {
  }

  // Only interns change the tables.
  lemma TablesStay(st: State, op: Op)
    requires Step(st, op).Ok?
    ensures var next := Step(st, op).value;
            && (!op.InternType? ==> next.snap.typeNames == st.snap.typeNames)
            && (!op.InternRelation? ==> next.snap.relationNames == st.snap.relationNames)
  {
    hide Sorted, NextIndex, NextPointer, NameSet, FindObject, FindPointer, Resolve, InternName;
  }

  lemma GivenName(st: State, op: Op)
    requires (op.InternType? || op.InternRelation?) && Step(st, op).Ok?
    ensures op.name != ""
  {
  }

  lemma EventIdle(st: State, op: Op)
    requires op.EmitEvent?
    ensures Step(st, op) == Ok(st)
  {
  }

  // A regular intern is the intern the machine makes.
  lemma TypeInSame(st: State, name: string, symbol: nat, s: nat, st': State)
    requires name != "" && WellInterned(st.snap.typeNames, symbol, name) && Step(st, InternType(name, s + 1)) == Ok(st')
    requires name !in st.snap.typeNames.Values ==> s + 1 == NextSymbol(st.snap.typeNames)
    ensures Step(st, InternType(name, symbol)) == Ok(st') && st'.snap.relationNames == st.snap.relationNames
    ensures NamesExtend(st.snap.typeNames, st'.snap.typeNames) && Only(st.snap.typeNames, st'.snap.typeNames, s + 1)
  {
    hide NextSymbol;
  }

  lemma RelationInSame(st: State, name: string, symbol: nat, s: nat, st': State)
    requires name != "" && WellInterned(st.snap.relationNames, symbol, name) &&
             Step(st, InternRelation(name, s + 1)) == Ok(st')
    requires name !in st.snap.relationNames.Values ==> s + 1 == NextSymbol(st.snap.relationNames)
    ensures Step(st, InternRelation(name, symbol)) == Ok(st') && st'.snap.typeNames == st.snap.typeNames
    ensures NamesExtend(st.snap.relationNames, st'.snap.relationNames) &&
            Only(st.snap.relationNames, st'.snap.relationNames, s + 1)
  {
    hide NextSymbol;
  }

  ghost predicate Only(a: map<nat, string>, b: map<nat, string>, symbol: nat) {
    forall k :: k in b && k != symbol ==> k in a
  }

  lemma RenamedMore(names: map<nat, string>, before: map<nat, string>, now: map<nat, string>, next: map<nat, string>,
                    name: string, symbol: nat, s: nat)
    requires Renamed(names, before, now) && NamesExtend(now, next) && Only(now, next, s) && s in next && next[s] == name
    requires WellInterned(now, symbol, name) && (name !in now.Values ==> s == NextSymbol(now)) &&
             (name in now.Values ==> next == now)
    ensures Renamed(if symbol != 0 && symbol !in names then names[symbol := name] else names, before, next)
  {
    hide NextSymbol;
    if name !in now.Values {
      NextAboveAll(now);
    }
  }

  lemma NextAboveAll(names: map<nat, string>)
    ensures NextSymbol(names) !in names && NextSymbol(names) > 0
  {
  }

  function LinkArgs(temp: nat, from: (nat, nat), to: (nat, nat), slot: nat, weight: Double, role: Role,
                    domain: nat): seq<Value> {
    [UInt64(temp), UInt64(from.0), UInt64(from.1), UInt64(to.0), UInt64(to.1), UInt64(slot), Float64(weight),
     UInt64(RoleCode(role)), UInt64(domain)]
  }

  lemma LinkEmitted(cx: Context, tb: Tables, fr: Frame, st: State, temp: nat, done: seq<Instruction>, op: Op,
                    from: (nat, nat), to: (nat, nat), slot: nat, domain: nat)
    requires Sim(cx, tb, fr, st, temp) && ContextOk(cx) && op.CreatePointer? && op.attributes == [] &&
             Step(st, op).Ok? && temp > 0
    requires RefCode(cx.before, tb.strings, op.from, from.0, from.1) &&
             RefCode(cx.before, tb.strings, op.to, to.0, to.1)
    requires slot in fr.relationSymbols && fr.relationSymbols[slot] == op.relation
    requires domain < |tb.strings| && op.lawDomain == (if tb.strings[domain] == "" then "core" else tb.strings[domain])
    requires ExecAll(cx, tb, EmptyFrame(cx), done) == Some(fr)
    ensures ExecAll(cx, tb, EmptyFrame(cx), done + [Instruction(PointerNew,
            LinkArgs(temp, from, to, slot, op.weight, op.role, domain))])
            == Some(LinkedFrame(fr, op, temp))
    ensures Sim(cx, tb, LinkedFrame(fr, op, temp), Step(st, op).value, temp + 1)
  {
    hide Sim, Step, ExecAll, EmptyFrame, ContextOk, Exec, LinkedFrame, RefCode, RawObject, RoleCode;
    var args := LinkArgs(temp, from, to, slot, op.weight, op.role, domain);
    NoRaw(args);
    LinkSim(cx, tb, fr, st, temp, op, args, tb.strings[domain]);
    Emitted(cx, tb, tb, done, Instruction(PointerNew, args), fr, LinkedFrame(fr, op, temp));
  }

  lemma NoRaw(args: seq<Value>)
    requires forall i :: 0 <= i < |args| ==> args[i].UInt64? || args[i].Float64?
    ensures !RawObject(args)
  {
  }

  lemma LinkedAt(cx: Context, tb: Tables, fr: Frame, st: State, temp: nat, op: Op)
    requires Sim(cx, tb, fr, st, temp)
    ensures temp in LinkedFrame(fr, op, temp).tempPointers &&
            LinkedFrame(fr, op, temp).tempPointers[temp] == NextPointer(st.snap.pointers)
    ensures LinkedFrame(fr, op, temp).delta == fr.delta + [op]
  {
    hide Ran, SlotsOk, NameSet, NextPointer;
  }

  // An accepted create is accepted without its attributes too.
  lemma CreateBare(st: State, op: Op)
    requires op.CreateObject? && Step(st, op).Ok?
    ensures Step(st, Having(op, [])).Ok? && op.typ in st.snap.typeNames
  {
    hide Sorted, NextIndex, NameSet;
  }

  lemma CreateMade(st: State, op: Op, k: nat)
    requires op.CreateObject? && k < |op.attributes| && UniqueKeys(op.attributes) &&
             Step(st, Having(op, op.attributes[..k])).Ok?
    ensures var made := Step(st, Having(op, op.attributes[..k])).value;
            Step(made, SetObjectAttribute(ByTemp(op.temp), op.attributes[k])) ==
              Step(st, Having(op, op.attributes[..k + 1])) &&
            Step(st, Having(op, op.attributes[..k + 1])).Ok?
  {
    hide Sorted, NextIndex, NameSet, UniqueKeys;
    CreateMore(st, op, k);
  }

  // The machine writes out the default law domain.
  function Domained(op: Op): Op {
    match op
    case CreatePointer(from, to, relation, role, weight, domain, attributes) =>
      CreatePointer(from, to, relation, role, weight, if domain == "" then "core" else domain, attributes)
    case _ => op
  }

  lemma LinkBare(st: State, op: Op)
    requires op.CreatePointer? && Step(st, op).Ok?
    ensures Step(st, Having(op, [])).Ok? && Step(st, Having(Domained(op), [])) == Step(st, Having(op, [])) &&
            op.relation in st.snap.relationNames
  {
    hide Sorted, NextPointer, Resolve;
  }

  lemma LinkMade(st: State, op: Op, k: nat)
    requires op.CreatePointer? && k < |op.attributes| && UniqueKeys(op.attributes) &&
             Step(st, Having(op, op.attributes[..k])).Ok?
    ensures var made := Step(st, Having(op, op.attributes[..k])).value;
            Step(made, SetPointerAttribute(NextPointer(st.snap.pointers), op.attributes[k])) ==
              Step(st, Having(op, op.attributes[..k + 1])) &&
            Step(st, Having(op, op.attributes[..k + 1])).Ok?
  {
    hide Sorted, NextPointer, Resolve, UniqueKeys;
    LinkMore(st, op, k);
  }

  lemma IndexedAt(table: seq<string>, symbols: map<string, nat>, name: string)
    requires Indexed(table, symbols) && name in symbols
    ensures symbols[name] < |table| && table[symbols[name]] == name
  {
  }

  lemma RefGrows(before: Snapshot, strings: seq<string>, more: seq<string>, ref: Ref, tag: nat, value: nat)
    requires RefCode(before, strings, ref, tag, value) && strings <= more
    ensures RefCode(before, more, ref, tag, value)
  {
  }

  // A given name has one slot, its symbol's.
  lemma TypeOnce(cx: Context, tb: Tables, fr: Frame, st: State, nextTemp: nat, a: nat, b: nat, typ: nat)
    requires Sim(cx, tb, fr, st, nextTemp) && a < |tb.types| && b < |tb.types| && tb.types[a] == tb.types[b] != ""
    requires typ in st.snap.typeNames && st.snap.typeNames[typ] == tb.types[a]
    ensures a == b && typ == a + 1
  {
    StateNames(st);
    SlotHolds(tb.types, st.snap.typeNames, a);
    SlotHolds(tb.types, st.snap.typeNames, b);
  }

  lemma RelationOnce(cx: Context, tb: Tables, fr: Frame, st: State, nextTemp: nat, a: nat, b: nat, relation: nat)
    requires Sim(cx, tb, fr, st, nextTemp) && a < |tb.relations| && b < |tb.relations| &&
             tb.relations[a] == tb.relations[b] != ""
    requires relation in st.snap.relationNames && st.snap.relationNames[relation] == tb.relations[a]
    ensures a == b && relation == a + 1
  {
    StateNames(st);
    SlotHolds(tb.relations, st.snap.relationNames, a);
    SlotHolds(tb.relations, st.snap.relationNames, b);
  }

  ghost predicate Given(names: map<nat, string>) {
    forall k :: k in names ==> names[k] != ""
  }

  lemma TypeAccepted(st: State, op: Op)
    requires ObjectOp(op) && Step(st, op).Ok? && op.SetObjectType?
    ensures op.typ in st.snap.typeNames
  {
  }

  lemma NameForIs(names: map<nat, string>, before: map<nat, string>, now: map<nat, string>, prefix: string, symbol: nat)
    requires Renamed(names, before, now) && Given(now) && symbol in now
    ensures NameFor(names, before, prefix, symbol) == now[symbol] != ""
  {
  }

  // Names the delta gave to symbols, none of them against what the overlay has.
  ghost predicate Renamed(names: map<nat, string>, before: map<nat, string>, now: map<nat, string>) {
    && (forall k :: k in names ==> k in now && now[k] == names[k])
    && (forall k :: k in now ==> k in names || (k in before && before[k] == now[k]))
  }

  function NameFor(names: map<nat, string>, table: map<nat, string>, prefix: string, symbol: nat): string {
    if symbol in names then names[symbol] else if symbol in table then table[symbol] else prefix + Decimal(symbol)
  }

  // A reference the compiler can write down: a temp, or an object of the snapshot itself.
  predicate RefKnown(snapshot: Snapshot, ref: Ref) {
    ref.ByTemp? || FindObject(snapshot.objects, ref.id).Some?
  }

  // No attribute holds an object id, which programs cannot carry; objects are created alive,
  // with each key once, under a temp id of 32 bits.
  predicate Plain(op: Op) {
    match op
    case CreateObject(temp, _, _, existence, attributes) =>
      temp <= MAX_TEMP && existence == Alive && UniqueKeys(attributes) && forall i :: 0 <= i < |attributes| ==>
        !attributes[i].value.ObjectValue?
    case CreatePointer(_, _, _, _, _, _, attributes) =>
      UniqueKeys(attributes) && forall i :: 0 <= i < |attributes| ==> !attributes[i].value.ObjectValue?
    case SetObjectAttribute(_, a) => !a.value.ObjectValue?
    case SetPointerAttribute(_, a) => !a.value.ObjectValue?
    case _ => true
  }

  // Compiling a delta against a snapshot: it fails only on a reference to an object the
  // snapshot does not have, and the program runs to a delta with the same result.
  method CompileDelta(snapshot: Snapshot, delta: Delta, ghost cx: Context) returns (r: Result<Program, string>)
    requires ContextOk(cx) && cx.before == snapshot
    requires Apply(snapshot, delta).Ok? && CompilableRun(snapshot, Start(snapshot), delta)
    ensures r.Ok? <==> forall i :: 0 <= i < |delta| ==> RefsKnown(snapshot, delta[i])
    ensures r.Ok? ==>
              Executed(cx, r.value) == Ok(Expanded(snapshot, delta)) &&
              Apply(snapshot, Expanded(snapshot, delta)) == Apply(snapshot, delta)
  {
    hide ExecAll, EmptyFrame, Run, CompilableRun, RefsKnown, SlotsOk, Sim, Indexed, ContextOk, Recount;
    var builder := new ProgramBuilder();
    ContextNames(cx);
    builder.ImportSymbols(snapshot);
    StartSim(cx, builder.Names());
    NothingRun(cx, builder.Names());
    builder.frame, builder.state := EmptyFrame(cx), Start(snapshot);
    var done := builder.AppendDelta(cx, snapshot, delta);
    if done.Err? {
      return Err(done.error);
    }
    r := Ok(Program(Tables(builder.strings, builder.typeNames, builder.relationNames), builder.code));
    MatchesRuns(cx, r.value, builder.frame, builder.state, builder.nextTempPointer);
  }

  lemma MatchesRuns(cx: Context, p: Program, fr: Frame, st: State, nextTemp: nat)
    requires ExecAll(cx, p.tables, EmptyFrame(cx), p.code) == Some(fr) && Sim(cx, p.tables, fr, st, nextTemp)
    ensures Executed(cx, p) == Ok(fr.delta) && Apply(cx.before, fr.delta) == Finish(Ok(st))
  {
    hide StateOk, Extends, Tracks, SlotsOk, ExecAll, Recount;
  }

  lemma ContextNames(cx: Context)
    requires ContextOk(cx)
    ensures SymbolsOk(cx.before.typeNames) && SymbolsOk(cx.before.relationNames)
  {
  }

  lemma NothingRun(cx: Context, tb: Tables)
    ensures ExecAll(cx, tb, EmptyFrame(cx), []) == Some(EmptyFrame(cx)) && EmptyFrame(cx).delta == []
  {
  }
}
