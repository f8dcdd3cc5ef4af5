// What the overlay makes of the delta a program emits: whatever program the machine runs
// through, the delta is accepted exactly when no empty name is interned and every symbol used
// is interned from the first slot of its name.

module MachineProof {
  import opened Wrappers
  import opened Model
  import opened Attributes
  import opened Overlay
  import opened Invariants
  import opened Programs
  import opened CompileProof
  import Morphisms

  // ---- slots

  // The slot from which each name is first interned.
  function Firsts(code: seq<Instruction>, op: Opcode, table: seq<string>): map<string, nat> {
    if code == [] then map[]
    else Interning(Firsts(code[..|code| - 1], op, table), op, table, code[|code| - 1])
  }

  function Interning(firsts: map<string, nat>, op: Opcode, table: seq<string>, ins: Instruction): map<string, nat> {
    if ins.Instruction? && ins.op == op && Name(table, ins.args, 0).Some? &&
       Name(table, ins.args, 0).value !in firsts
    then firsts[Name(table, ins.args, 0).value := U64(ins.args, 0).value]
    else firsts
  }

  // The snapshot has the name of the slot, or it is interned from there first.
  ghost predicate Firm(firsts: map<string, nat>, table: seq<string>, before: map<nat, string>, s: nat) {
    s < |table| && (table[s] in before.Values || (table[s] in firsts && firsts[table[s]] == s))
  }

  ghost predicate FirmAt(code: seq<Instruction>, op: Opcode, table: seq<string>, before: map<nat, string>,
                         args: seq<Value>, i: nat) {
    match U64(args, i) case None => false case Some(s) => Firm(Firsts(code, op, table), table, before, s)
  }

  // After the code so far, the instruction names nothing empty and uses no slot that is not firm.
  ghost predicate Sound(cx: Context, tb: Tables, code: seq<Instruction>, ins: Instruction) {
    ins.Emit? ||
    match ins.op
    case TypeIn => Name(tb.types, ins.args, 0) != Some("")
    case RelationIn => Name(tb.relations, ins.args, 0) != Some("")
    case ObjectNew => FirmAt(code, TypeIn, tb.types, cx.before.typeNames, ins.args, 2)
    case ObjectType => FirmAt(code, TypeIn, tb.types, cx.before.typeNames, ins.args, 2)
    case PointerNew => FirmAt(code, RelationIn, tb.relations, cx.before.relationNames, ins.args, 5)
    case _ => true
  }

  ghost predicate SoundCode(cx: Context, tb: Tables, code: seq<Instruction>) {
    forall k :: 0 <= k < |code| ==> Sound(cx, tb, code[..k], code[k])
  }

  // ---- a table of the machine against one of the overlay

  ghost predicate SlotsAgree(firsts: map<string, nat>, table: seq<string>, bound: map<nat, nat>,
                             before: map<nat, string>, now: map<nat, string>) {
    && NamesExtend(before, now)
    && (forall s :: s in bound ==> s < |table| && SlotAgrees(firsts, table, before, now, s, bound[s]))
    && (forall k :: k in now ==> k in before || NewSymbol(firsts, table, now, k))
    && (forall name :: name in firsts ==> FirstKept(table, before, now, name, firsts[name]))
  }

  ghost predicate SlotAgrees(firsts: map<string, nat>, table: seq<string>, before: map<nat, string>,
                             now: map<nat, string>, s: nat, id: nat)
    requires s < |table|
  {
    && table[s] in firsts
    && if Firm(firsts, table, before, s) then id in now && now[id] == table[s] else id == s + 1 && id !in now
  }

  ghost predicate NewSymbol(firsts: map<string, nat>, table: seq<string>, now: map<nat, string>, k: nat)
    requires k in now
  {
    1 <= k <= |table| && now[k] == table[k - 1] && now[k] in firsts && firsts[now[k]] == k - 1
  }

  ghost predicate FirstKept(table: seq<string>, before: map<nat, string>, now: map<nat, string>, name: string, s: nat) {
    s < |table| && table[s] == name && (name in before.Values || (s + 1 in now && now[s + 1] == name))
  }

  lemma KnownSymbol(before: map<nat, string>, now: map<nat, string>, name: string, s: nat, id: nat)
    requires NamesExtend(before, now) && SymbolFor(before, NextSymbol(before), name, s) == Some(id)
    ensures if name in before.Values then id in before && before[id] == name
            else id == s + 1 && s + 1 !in before
  {
    if name in before.Values {
      var k :| k in before && before[k] == name;
      assert k < NextSymbol(before);
    }
  }

  // Interning a name the snapshot has, a new one, and one already interned.
  lemma KnownAgain(firsts: map<string, nat>, table: seq<string>, bound: map<nat, nat>, before: map<nat, string>,
                   now: map<nat, string>, s: nat, id: nat)
    requires SlotsAgree(firsts, table, bound, before, now) && s < |table|
    requires id in before && before[id] == table[s]
    ensures SlotsAgree(if table[s] in firsts then firsts else firsts[table[s] := s], table, bound[s := id], before, now)
  {
    var more, bound' := if table[s] in firsts then firsts else firsts[table[s] := s], bound[s := id];
    assert before[id] in before.Values;
    forall k | k in now ensures k in before || NewSymbol(more, table, now, k) {
      assert k in before || NewSymbol(firsts, table, now, k);
    }
    forall t | t in bound' ensures t < |table| && SlotAgrees(more, table, before, now, t, bound'[t]) {
      assert t != s ==> SlotAgrees(firsts, table, before, now, t, bound[t]);
    }
    forall name | name in more ensures FirstKept(table, before, now, name, more[name]) {
      assert name in firsts ==> FirstKept(table, before, now, name, firsts[name]);
    }
  }

  lemma FirstTime(firsts: map<string, nat>, table: seq<string>, bound: map<nat, nat>, before: map<nat, string>,
                  now: map<nat, string>, s: nat)
    requires SlotsAgree(firsts, table, bound, before, now) && s < |table|
    requires table[s] !in before.Values && table[s] !in firsts && s + 1 !in before
    ensures s + 1 !in now && table[s] !in now.Values
    ensures SlotsAgree(firsts[table[s] := s], table, bound[s := s + 1], before, now[s + 1 := table[s]])
  {
    var name, more, next, bound' := table[s], firsts[table[s] := s], now[s + 1 := table[s]], bound[s := s + 1];
    forall k | k in now ensures now[k] != name && k != s + 1 {
      if k in before {
        assert before[k] in before.Values;
      } else {
        assert NewSymbol(firsts, table, now, k);
      }
    }
    forall k | k in next ensures k in before || NewSymbol(more, table, next, k) {
      assert k == s + 1 || k in before || NewSymbol(firsts, table, now, k);
    }
    forall t | t in bound' ensures t < |table| && SlotAgrees(more, table, before, next, t, bound'[t]) {
      assert t != s ==> SlotAgrees(firsts, table, before, now, t, bound[t]);
    }
    forall n | n in more ensures FirstKept(table, before, next, n, more[n]) {
      assert n in firsts ==> FirstKept(table, before, now, n, firsts[n]);
    }
  }

  lemma InternedAgain(firsts: map<string, nat>, table: seq<string>, bound: map<nat, nat>, before: map<nat, string>,
                      now: map<nat, string>, s: nat)
    requires SlotsAgree(firsts, table, bound, before, now) && s < |table|
    requires table[s] !in before.Values && table[s] in firsts && s + 1 !in before
    ensures table[s] in now.Values
    ensures SlotsAgree(firsts, table, bound[s := s + 1], before, now)
  {
    assert FirstKept(table, before, now, table[s], firsts[table[s]]);
    assert now[firsts[table[s]] + 1] in now.Values;
    assert s + 1 in now ==> NewSymbol(firsts, table, now, s + 1);
  }

  // An intern accepted by the machine is accepted by the overlay unless the name is empty, and
  // the tables go on agreeing.
  lemma SlotsIntern(firsts: map<string, nat>, table: seq<string>, bound: map<nat, nat>, before: map<nat, string>,
                    now: map<nat, string>, s: nat, id: nat)
    requires SlotsAgree(firsts, table, bound, before, now) && s < |table|
    requires SymbolFor(before, NextSymbol(before), table[s], s) == Some(id)
    ensures InternName(now, table[s], id).Ok? <==> table[s] != ""
    ensures table[s] != "" ==>
              SlotsAgree(if table[s] in firsts then firsts else firsts[table[s] := s], table, bound[s := id], before,
                         InternName(now, table[s], id).value)
  {
    hide SymbolFor, NextSymbol, SlotsAgree;
    ExtendsOf(firsts, table, bound, before, now);
    KnownSymbol(before, now, table[s], s, id);
    if table[s] in before.Values {
      KnownAgain(firsts, table, bound, before, now, s, id);
      assert now[id] in now.Values;
    } else if table[s] in firsts {
      InternedAgain(firsts, table, bound, before, now, s);
    } else {
      FirstTime(firsts, table, bound, before, now, s);
    }
  }

  lemma ExtendsOf(firsts: map<string, nat>, table: seq<string>, bound: map<nat, nat>, before: map<nat, string>,
                  now: map<nat, string>)
    requires SlotsAgree(firsts, table, bound, before, now)
    ensures NamesExtend(before, now)
  {
  }

  // A bound slot stands for a symbol of the overlay exactly when it is firm.
  lemma SlotUsed(firsts: map<string, nat>, table: seq<string>, bound: map<nat, nat>, before: map<nat, string>,
                 now: map<nat, string>, s: nat)
    requires SlotsAgree(firsts, table, bound, before, now) && SymbolsOk(now) && s in bound
    ensures HasSymbol(now, bound[s]) <==> Firm(firsts, table, before, s)
  {
    assert SlotAgrees(firsts, table, before, now, s, bound[s]);
  }

  // ---- machine and overlay

  ghost predicate Agrees(cx: Context, tb: Tables, code: seq<Instruction>, fr: Frame, st: State) {
    && Ran(cx, fr.delta, st) && TempsAgree(cx, fr, st)
    && SlotsAgree(Firsts(code, TypeIn, tb.types), tb.types, fr.typeSymbols, cx.before.typeNames, st.snap.typeNames)
    && SlotsAgree(Firsts(code, RelationIn, tb.relations), tb.relations, fr.relationSymbols, cx.before.relationNames,
                  st.snap.relationNames)
  }

  ghost predicate TempsAgree(cx: Context, fr: Frame, st: State) {
    && (forall t :: t in fr.tempObjects <==> t in st.temps)
    && (forall t :: t in fr.tempObjects ==> fr.tempObjects[t] == t != 0)
    && NameSet(st.snap.objects) == NameSet(cx.before.objects) + fr.createdNames.Keys
    && (forall n :: n in fr.createdNames ==> fr.createdNames[n] in fr.tempObjects)
    && fr.nextPointer == NextPointer(st.snap.pointers)
    && (forall t :: t in fr.tempPointers ==> FindPointer(st.snap.pointers, fr.tempPointers[t]).Some?)
  }

  // The operation an instruction emits.
  function Emits(fr: Frame, fr': Frame): Op
    requires fr'.delta != []
  {
    fr'.delta[|fr'.delta| - 1]
  }

  // What an instruction does to the two, once it is known to be accepted by the machine.
  ghost predicate Goes(cx: Context, tb: Tables, code: seq<Instruction>, fr: Frame, st: State, ins: Instruction,
                       fr': Frame, op: Op) {
    && fr'.delta == fr.delta + [op]
    && (Step(st, op).Ok? <==> Sound(cx, tb, code, ins))
    && (Step(st, op).Ok? ==> Agrees(cx, tb, code + [ins], fr', Step(st, op).value))
  }

  lemma FirstsPush(code: seq<Instruction>, op: Opcode, table: seq<string>, ins: Instruction)
    ensures Firsts(code + [ins], op, table) == Interning(Firsts(code, op, table), op, table, ins)
  {
    assert (code + [ins])[..|code|] == code;
  }

  lemma OtherFirsts(code: seq<Instruction>, op: Opcode, table: seq<string>, ins: Instruction)
    requires ins.Emit? || ins.op != op
    ensures Firsts(code + [ins], op, table) == Firsts(code, op, table)
  {
    FirstsPush(code, op, table, ins);
  }

  lemma TypeInGoes(cx: Context, tb: Tables, code: seq<Instruction>, fr: Frame, st: State, ins: Instruction)
    requires ContextOk(cx) && Agrees(cx, tb, code, fr, st) && ins.Instruction? && ins.op == TypeIn
    requires ExecTypeIn(cx, tb, fr, ins.args).Some?
    ensures var fr' := ExecTypeIn(cx, tb, fr, ins.args).value;
            fr'.delta != [] && Goes(cx, tb, code, fr, st, ins, fr', Emits(fr, fr'))
  {
    hide Firsts, Ran, SlotsAgree, SymbolFor, NextSymbol, NameSet, FindPointer, InternName;
    var s, fr' := U64(ins.args, 0).value, ExecTypeIn(cx, tb, fr, ins.args).value;
    var name := tb.types[s];
    var id := SymbolFor(cx.before.typeNames, cx.typeBound, name, s).value;
    var firsts := Firsts(code, TypeIn, tb.types);
    SlotsIntern(firsts, tb.types, fr.typeSymbols, cx.before.typeNames, st.snap.typeNames, s, id);
    FirstsPush(code, TypeIn, tb.types, ins);
    OtherFirsts(code, RelationIn, tb.relations, ins);
    if name != "" {
      RanOne(cx, fr.delta, st, InternType(name, id));
    }
  }

  lemma RelationInGoes(cx: Context, tb: Tables, code: seq<Instruction>, fr: Frame, st: State, ins: Instruction)
    requires ContextOk(cx) && Agrees(cx, tb, code, fr, st) && ins.Instruction? && ins.op == RelationIn
    requires ExecRelationIn(cx, tb, fr, ins.args).Some?
    ensures var fr' := ExecRelationIn(cx, tb, fr, ins.args).value;
            fr'.delta != [] && Goes(cx, tb, code, fr, st, ins, fr', Emits(fr, fr'))
  {
    hide Firsts, Ran, SlotsAgree, SymbolFor, NextSymbol, NameSet, FindPointer, InternName;
    var s, fr' := U64(ins.args, 0).value, ExecRelationIn(cx, tb, fr, ins.args).value;
    var name := tb.relations[s];
    var id := SymbolFor(cx.before.relationNames, cx.relationBound, name, s).value;
    var firsts := Firsts(code, RelationIn, tb.relations);
    SlotsIntern(firsts, tb.relations, fr.relationSymbols, cx.before.relationNames, st.snap.relationNames, s, id);
    FirstsPush(code, RelationIn, tb.relations, ins);
    OtherFirsts(code, TypeIn, tb.types, ins);
    if name != "" {
      RanOne(cx, fr.delta, st, InternRelation(name, id));
    }
  }

  lemma ObjectNewGoes(cx: Context, tb: Tables, code: seq<Instruction>, fr: Frame, st: State, ins: Instruction)
    requires ContextOk(cx) && Agrees(cx, tb, code, fr, st) && ins.Instruction? && ins.op == ObjectNew
    requires ExecObjectNew(cx, tb, fr, ins.args).Some?
    ensures var fr' := ExecObjectNew(cx, tb, fr, ins.args).value;
            fr'.delta != [] && Goes(cx, tb, code, fr, st, ins, fr', Emits(fr, fr'))
  {
    hide Firsts, Ran, SlotsAgree, NextSymbol, NameSet, FindPointer, NextPointer, ContextOk, Firm, Step, StateOk,
         Extends, SymbolsOk, Morphisms.FindNamed, HasSymbol, TempsAgree;
    var fr' := ExecObjectNew(cx, tb, fr, ins.args).value;
    var op, s := Emits(fr, fr'), U64(ins.args, 2).value;
    RanTables(cx, fr.delta, st);
    SlotUsed(Firsts(code, TypeIn, tb.types), tb.types, fr.typeSymbols, cx.before.typeNames, st.snap.typeNames, s);
    NewName(cx, fr, st, op.temp, op.name);
    CreateAccepted(st, op);
    OtherFirsts(code, TypeIn, tb.types, ins);
    OtherFirsts(code, RelationIn, tb.relations, ins);
    if Step(st, op).Ok? {
      CreateNames(st, op);
      CreateTemps(cx, fr, st, op, fr', Step(st, op).value);
      RanOne(cx, fr.delta, st, op);
    }
  }

  lemma NewName(cx: Context, fr: Frame, st: State, temp: nat, name: string)
    requires TempsAgree(cx, fr, st) && temp !in fr.tempObjects && name !in fr.createdNames
    requires Morphisms.FindNamed(cx.before.objects, name).None?
    ensures temp !in st.temps && name !in NameSet(st.snap.objects)
  {
    hide Morphisms.FindNamed, NextPointer, FindPointer, NameSet;
    NamedIn(cx.before.objects, name);
  }

  lemma CreateTemps(cx: Context, fr: Frame, st: State, op: Op, fr': Frame, next: State)
    requires TempsAgree(cx, fr, st) && op.CreateObject? && op.temp != 0
    requires next.snap.pointers == st.snap.pointers && next.temps.Keys == st.temps.Keys + {op.temp}
    requires NameSet(next.snap.objects) == NameSet(st.snap.objects) + {op.name}
    requires fr' == Pushed(fr.(tempObjects := fr.tempObjects[op.temp := op.temp],
                               createdNames := fr.createdNames[op.name := op.temp]), op)
    ensures TempsAgree(cx, fr', next)
  {
    hide NameSet, NextPointer, FindPointer;
    assert fr'.createdNames.Keys == fr.createdNames.Keys + {op.name};
    forall t ensures t in fr'.tempObjects <==> t in next.temps {
      assert t in next.temps <==> t in next.temps.Keys;
    }
  }

  lemma RanTables(cx: Context, delta: Delta, st: State)
    requires Ran(cx, delta, st)
    ensures SymbolsOk(st.snap.typeNames) && SymbolsOk(st.snap.relationNames)
    ensures StateOk(st) && Extends(cx.before, st.snap)
  {
  }

  lemma CreateAccepted(st: State, op: Op)
    requires op.CreateObject? && op.temp != 0 && op.temp !in st.temps && op.name !in NameSet(st.snap.objects)
    ensures Step(st, op).Ok? <==> HasSymbol(st.snap.typeNames, op.typ)
  {
    hide HasSymbol, NameSet, Sorted, NextIndex;
  }

  // What an operand names, the overlay finds.
  lemma OperandFound(cx: Context, tb: Tables, fr: Frame, st: State, args: seq<Value>, i: nat, j: nat)
    requires StateOk(st) && Extends(cx.before, st.snap) && TempsAgree(cx, fr, st)
    requires ObjectOperand(cx, tb, fr, args, i, j).Some?
    ensures var ref := ObjectOperand(cx, tb, fr, args, i, j).value;
            Resolve(st, ref).Some? && FindObject(st.snap.objects, Resolve(st, ref).value).Some?
  {
    hide WellFormed, NameSet, FindPointer, NextPointer, FindId;
    var ref := ObjectOperand(cx, tb, fr, args, i, j).value;
    if ref.ById? {
      ExtendsIds(cx.before.objects, st.snap.objects);
    }
    Found(st, Resolve(st, ref).value);
  }

  lemma Found(st: State, id: ObjectId)
    requires id in IdSet(st.snap.objects)
    ensures FindObject(st.snap.objects, id).Some?
  {
    hide FindId;
    var i :| 0 <= i < |st.snap.objects| && st.snap.objects[i].id == id;
  }

  lemma PointerFound(cx: Context, fr: Frame, st: State, args: seq<Value>, i: nat, j: nat)
    requires Extends(cx.before, st.snap) && TempsAgree(cx, fr, st)
    requires PointerOperand(cx, fr, args, i, j).Some?
    ensures FindPointer(st.snap.pointers, PointerOperand(cx, fr, args, i, j).value).Some?
  {
    hide NameSet, NextPointer;
    var p := PointerOperand(cx, fr, args, i, j).value;
    if FindPointer(cx.before.pointers, p).Some? {
      var k := FindPointer(cx.before.pointers, p).value;
      assert SamePointer(cx.before.pointers[k], st.snap.pointers[k]);
    }
  }

  lemma PointerNewGoes(cx: Context, tb: Tables, code: seq<Instruction>, fr: Frame, st: State, ins: Instruction)
    requires ContextOk(cx) && Agrees(cx, tb, code, fr, st) && ins.Instruction? && ins.op == PointerNew
    requires ExecPointerNew(cx, tb, fr, ins.args).Some?
    ensures var fr' := ExecPointerNew(cx, tb, fr, ins.args).value;
            fr'.delta != [] && Goes(cx, tb, code, fr, st, ins, fr', Emits(fr, fr'))
  {
    hide Firsts, Ran, SlotsAgree, NextSymbol, NameSet, FindPointer, NextPointer, ContextOk, Firm, Step, StateOk,
         Extends, ObjectOperand, RoleOf, F64, HasSymbol, Resolve, FindObject;
    var fr' := ExecPointerNew(cx, tb, fr, ins.args).value;
    var op, s := Emits(fr, fr'), U64(ins.args, 5).value;
    RanTables(cx, fr.delta, st);
    OperandFound(cx, tb, fr, st, ins.args, 1, 2);
    OperandFound(cx, tb, fr, st, ins.args, 3, 4);
    SlotUsed(Firsts(code, RelationIn, tb.relations), tb.relations, fr.relationSymbols, cx.before.relationNames,
      st.snap.relationNames, s);
    LinkAccepted(st, op);
    OtherFirsts(code, TypeIn, tb.types, ins);
    OtherFirsts(code, RelationIn, tb.relations, ins);
    if Step(st, op).Ok? {
      LinkNames(st, op);
      LinkFinds(st, op);
      RanOne(cx, fr.delta, st, op);
    }
  }

  lemma LinkAccepted(st: State, op: Op)
    requires op.CreatePointer? && Resolve(st, op.from).Some? && Resolve(st, op.to).Some?
    ensures Step(st, op).Ok? <==> HasSymbol(st.snap.relationNames, op.relation)
  {
    hide HasSymbol, Resolve, Sorted, NextPointer;
  }

  // A new pointer is found, and the others still are.
  lemma LinkFinds(st: State, op: Op)
    requires op.CreatePointer? && Step(st, op).Ok?
    ensures var next := Step(st, op).value.snap.pointers;
            && FindPointer(next, NextPointer(st.snap.pointers)).Some?
            && forall p :: FindPointer(st.snap.pointers, p).Some? ==> FindPointer(next, p).Some?
  {
    hide Resolve, HasSymbol, Sorted, NextPointer;
    var pointers, next := st.snap.pointers, Step(st, op).value.snap.pointers;
    assert next[|pointers|].id == NextPointer(pointers);
    forall p | FindPointer(pointers, p).Some? ensures FindPointer(next, p).Some? {
      assert next[FindPointer(pointers, p).value].id == p;
    }
  }

  lemma EditAccepted(cx: Context, tb: Tables, fr: Frame, st: State, code: Opcode, args: seq<Value>, op: Op)
    requires StateOk(st) && Extends(cx.before, st.snap) && TempsAgree(cx, fr, st)
    requires Edit(cx, tb, fr, code, args) == Some(op)
    ensures ObjectOp(op) || PointerOp(op)
    ensures op.SetObjectType? <==> code == ObjectType
    ensures !op.SetObjectType? ==> Step(st, op).Ok?
    ensures op.SetObjectType? ==> (Step(st, op).Ok? <==> HasSymbol(st.snap.typeNames, op.typ))
  {
    hide StateOk, Extends, TempsAgree, ObjectOperand, PointerOperand, FindObject, FindPointer, Resolve, HasSymbol,
         EditObject, EditPointer, F64, Name, ValueOperand, ExistenceOf;
    if ObjectOp(op) {
      OperandFound(cx, tb, fr, st, args, 0, 1);
    } else {
      PointerFound(cx, fr, st, args, 0, 1);
    }
  }

  lemma EditFinds(st: State, op: Op)
    requires (ObjectOp(op) || PointerOp(op) || op.EmitEvent?) && Step(st, op).Ok?
    ensures var next := Step(st, op).value.snap.pointers;
            forall p :: FindPointer(st.snap.pointers, p).Some? ==> FindPointer(next, p).Some?
  {
    hide StepObject, FindObject, EditObject, Resolve, HasSymbol, Attributes.SetAttribute, Attributes.RemoveAttribute;
    var pointers := st.snap.pointers;
    if ObjectOp(op) {
      ObjectEditKeeps(st, op);
    } else if PointerOp(op) {
      var i := FindPointer(pointers, op.pointer).value;
      var next := pointers[i := EditPointer(pointers[i], op, st.snap.epoch)];
      forall p | FindPointer(pointers, p).Some? ensures FindPointer(next, p).Some? {
        assert next[FindPointer(pointers, p).value].id == p;
      }
    }
  }

  // An instruction that stands for an edit or an event.
  lemma EditGoes(cx: Context, tb: Tables, code: seq<Instruction>, fr: Frame, st: State, ins: Instruction, op: Op)
    requires ContextOk(cx) && Agrees(cx, tb, code, fr, st)
    requires if ins.Emit? then op == EmitEvent(ins.event)
             else ins.op !in {TypeIn, RelationIn, ObjectNew, PointerNew} &&
                  Edit(cx, tb, fr, ins.op, ins.args) == Some(op)
    ensures Goes(cx, tb, code, fr, st, ins, Pushed(fr, op), op)
  {
    hide Firsts, Ran, SlotsAgree, NextSymbol, NameSet, FindPointer, NextPointer, ContextOk, Firm, Step, StateOk,
         Extends, HasSymbol, TempsAgree;
    RanTables(cx, fr.delta, st);
    OtherFirsts(code, TypeIn, tb.types, ins);
    OtherFirsts(code, RelationIn, tb.relations, ins);
    if ins.Instruction? {
      EditAccepted(cx, tb, fr, st, ins.op, ins.args, op);
      if ins.op == ObjectType {
        TypeOperand(cx, tb, fr, ins.args, op);
        SlotUsed(Firsts(code, TypeIn, tb.types), tb.types, fr.typeSymbols, cx.before.typeNames, st.snap.typeNames,
          U64(ins.args, 2).value);
      }
    } else {
      EventAccepted(st, op);
    }
    if Step(st, op).Ok? {
      EditKeeps(st, op);
      EditFinds(st, op);
      RanOne(cx, fr.delta, st, op);
      TempsStay(cx, fr, st, op);
    }
  }

  lemma TypeOperand(cx: Context, tb: Tables, fr: Frame, args: seq<Value>, op: Op)
    requires Edit(cx, tb, fr, ObjectType, args) == Some(op)
    ensures op.SetObjectType? && U64(args, 2).Some? && U64(args, 2).value in fr.typeSymbols
    ensures op.typ == fr.typeSymbols[U64(args, 2).value]
  {
    hide ObjectOperand;
  }

  lemma EventAccepted(st: State, op: Op)
    requires op.EmitEvent?
    ensures Step(st, op) == Ok(st)
  {
  }

  lemma TempsStay(cx: Context, fr: Frame, st: State, op: Op)
    requires TempsAgree(cx, fr, st) && Step(st, op).Ok?
    requires var next := Step(st, op).value;
             && NameSet(next.snap.objects) == NameSet(st.snap.objects)
             && NextPointer(next.snap.pointers) == NextPointer(st.snap.pointers) && next.temps == st.temps
             && forall p :: FindPointer(st.snap.pointers, p).Some? ==> FindPointer(next.snap.pointers, p).Some?
    ensures TempsAgree(cx, Pushed(fr, op), Step(st, op).value)
  {
    hide Step, NameSet, NextPointer, FindPointer;
  }

  lemma ExecGoes(cx: Context, tb: Tables, code: seq<Instruction>, fr: Frame, st: State, ins: Instruction)
    requires ContextOk(cx) && Agrees(cx, tb, code, fr, st) && Exec(cx, tb, fr, ins).Some?
    ensures var fr' := Exec(cx, tb, fr, ins).value;
            fr'.delta != [] && Goes(cx, tb, code, fr, st, ins, fr', Emits(fr, fr'))
  {
    hide ContextOk, Agrees, Goes, ExecTypeIn, ExecRelationIn, ExecObjectNew, ExecPointerNew, Edit, RawObject, Arity;
    if ins.Emit? {
      EditGoes(cx, tb, code, fr, st, ins, EmitEvent(ins.event));
    } else if ins.op == TypeIn {
      TypeInGoes(cx, tb, code, fr, st, ins);
    } else if ins.op == RelationIn {
      RelationInGoes(cx, tb, code, fr, st, ins);
    } else if ins.op == ObjectNew {
      ObjectNewGoes(cx, tb, code, fr, st, ins);
    } else if ins.op == PointerNew {
      PointerNewGoes(cx, tb, code, fr, st, ins);
    } else {
      EditGoes(cx, tb, code, fr, st, ins, Edit(cx, tb, fr, ins.op, ins.args).value);
    }
  }

  // ---- whole programs

  lemma SoundPush(cx: Context, tb: Tables, code: seq<Instruction>)
    requires code != []
    ensures SoundCode(cx, tb, code) <==>
            SoundCode(cx, tb, code[..|code| - 1]) && Sound(cx, tb, code[..|code| - 1], code[|code| - 1])
  {
    hide Sound;
    var init := code[..|code| - 1];
    assert forall k :: 0 <= k < |init| ==> init[..k] == code[..k] && init[k] == code[k];
  }

  lemma AgreesAtStart(cx: Context, tb: Tables)
    requires ContextOk(cx)
    ensures Agrees(cx, tb, [], EmptyFrame(cx), Start(cx.before))
  {
    hide WellFormed, NextPointer;
    StartKeeps(cx.before);
    assert NameSet(cx.before.objects) == NameSet(cx.before.objects) + {};
  }

  lemma {:induction false} CodeGoes(cx: Context, tb: Tables, code: seq<Instruction>)
    requires ContextOk(cx) && ExecAll(cx, tb, EmptyFrame(cx), code).Some?
    ensures var fr := ExecAll(cx, tb, EmptyFrame(cx), code).value;
            var r := Run(Start(cx.before), fr.delta);
            && (r.Ok? <==> SoundCode(cx, tb, code))
            && (r.Ok? ==> Agrees(cx, tb, code, fr, r.value))
    decreases |code|
  {
    hide ContextOk, Agrees, Exec, Sound, EmptyFrame, Step, SoundCode;
    if code == [] {
      AgreesAtStart(cx, tb);
      NothingSound(cx, tb);
    } else {
      var init, last := code[..|code| - 1], code[|code| - 1];
      assert code == init + [last];
      ExecAppend(cx, tb, EmptyFrame(cx), init, [last]);
      CodeGoes(cx, tb, init);
      SoundPush(cx, tb, code);
      var fr := ExecAll(cx, tb, EmptyFrame(cx), init).value;
      ExecOne(cx, tb, fr, last);
      DeltaGrows(cx, tb, fr, last);
      var op := Emits(fr, Exec(cx, tb, fr, last).value);
      RunAppend(Start(cx.before), fr.delta, [op]);
      var r := Run(Start(cx.before), fr.delta);
      if r.Ok? {
        ExecGoes(cx, tb, init, fr, r.value, last);
        assert Run(r.value, [op]) == Step(r.value, op);
      }
    }
  }

  lemma NothingSound(cx: Context, tb: Tables)
    ensures SoundCode(cx, tb, []) && EmptyFrame(cx).delta == []
  {
  }

  lemma DeltaGrows(cx: Context, tb: Tables, fr: Frame, ins: Instruction)
    requires Exec(cx, tb, fr, ins).Some?
    ensures var fr' := Exec(cx, tb, fr, ins).value;
            fr'.delta != [] && fr'.delta == fr.delta + [Emits(fr, fr')]
  {
    hide ExecTypeIn, ExecRelationIn, ExecObjectNew, ExecPointerNew, Edit, RawObject, Arity;
    if ins.Instruction? {
      NewGrows(cx, tb, fr, ins.args);
    }
  }

  lemma NewGrows(cx: Context, tb: Tables, fr: Frame, args: seq<Value>)
    ensures ExecTypeIn(cx, tb, fr, args).Some? ==> Longer(fr, ExecTypeIn(cx, tb, fr, args).value)
    ensures ExecRelationIn(cx, tb, fr, args).Some? ==> Longer(fr, ExecRelationIn(cx, tb, fr, args).value)
    ensures ExecObjectNew(cx, tb, fr, args).Some? ==> Longer(fr, ExecObjectNew(cx, tb, fr, args).value)
    ensures ExecPointerNew(cx, tb, fr, args).Some? ==> Longer(fr, ExecPointerNew(cx, tb, fr, args).value)
  {
    hide ObjectOperand, SymbolFor, Morphisms.FindNamed, F64, RoleOf, U64, Name, Bound;
  }

  predicate Longer(fr: Frame, fr': Frame) {
    fr'.delta != [] && fr'.delta == fr.delta + [Emits(fr, fr')]
  }

  // A program that the machine runs through is rejected by the overlay exactly when it interns
  // an empty name or uses a slot whose name was interned from another slot first.
  lemma RunsThrough(cx: Context, p: Program)
    requires ContextOk(cx) && ExecAll(cx, p.tables, EmptyFrame(cx), p.code).Some?
    ensures Executed(cx, p).Ok? <==> SoundCode(cx, p.tables, p.code)
  {
    hide ContextOk, Agrees, Exec, Sound, EmptyFrame, Run, ExecAll;
    CodeGoes(cx, p.tables, p.code);
  }

  // A program that interns an empty name: the machine runs through it, the overlay does not.
  lemma EmptyName(cx: Context)
    requires ContextOk(cx) && cx.before == Snapshot(0, "w", 0, [], [], map[], map[])
    ensures var p := Program(Tables([], [""], []), [Instruction(TypeIn, [UInt64(0)])]);
            ExecAll(cx, p.tables, EmptyFrame(cx), p.code).Some? && !Executed(cx, p).Ok?
  {
    hide NextPointer, Run, Apply;
    var tb, ins := Tables([], [""], []), Instruction(TypeIn, [UInt64(0)]);
    var p := Program(tb, [ins]);
    assert p.code[0] == ins && p.code[..0] == [];
    assert Name(tb.types, ins.args, 0) == Some("");
    assert !Sound(cx, tb, p.code[..0], p.code[0]);
    NoSymbol(cx);
    assert Exec(cx, tb, EmptyFrame(cx), ins).Some?;
    ExecOne(cx, tb, EmptyFrame(cx), ins);
    RunsThrough(cx, p);
  }

  lemma NoSymbol(cx: Context)
    requires ContextOk(cx) && cx.before.typeNames == map[]
    ensures SymbolFor(cx.before.typeNames, cx.typeBound, "", 0) == Some(1)
  {
  }

  // ---- what a completed run has used once

  // The temp an instruction of that kind gives out.
  ghost predicate Gives(ins: Instruction, op: Opcode, temp: nat) {
    ins.Instruction? && ins.op == op && U64(ins.args, 0) == Some(temp)
  }

  ghost predicate GivenTemps(code: seq<Instruction>, fr: Frame) {
    && (forall k, t: nat :: 0 <= k < |code| && Gives(code[k], ObjectNew, t) ==> t in fr.tempObjects)
    && (forall k, t: nat :: 0 <= k < |code| && Gives(code[k], PointerNew, t) ==> t in fr.tempPointers)
    && (forall t :: t in fr.tempObjects ==> 0 < t <= MAX_TEMP)
    && (forall t :: t in fr.tempPointers ==> 0 < t)
  }

  ghost predicate TempsOnce(code: seq<Instruction>) {
    forall i, j, t: nat :: 0 <= i < j < |code| ==>
      !(Gives(code[i], ObjectNew, t) && Gives(code[j], ObjectNew, t)) &&
      !(Gives(code[i], PointerNew, t) && Gives(code[j], PointerNew, t))
  }

  ghost predicate Shaped(ins: Instruction) {
    ins.Instruction? ==> |ins.args| == Arity(ins.op) && forall i :: 0 <= i < |ins.args| ==> !ins.args[i].ObjectValue?
  }

  // The temps an instruction leaves, new ones given by it and fit.
  ghost predicate GivesOnce(fr: Frame, ins: Instruction, fr': Frame) {
    && (forall t :: t in fr.tempObjects ==> t in fr'.tempObjects)
    && (forall t :: t in fr.tempPointers ==> t in fr'.tempPointers)
    && (forall t: nat :: Gives(ins, ObjectNew, t) ==> t !in fr.tempObjects && t in fr'.tempObjects)
    && (forall t: nat :: Gives(ins, PointerNew, t) ==> t !in fr.tempPointers && t in fr'.tempPointers)
    && (forall t :: t in fr'.tempObjects && t !in fr.tempObjects ==> 0 < t <= MAX_TEMP)
    && (forall t :: t in fr'.tempPointers && t !in fr.tempPointers ==> 0 < t)
  }

  lemma ObjectGives(cx: Context, tb: Tables, fr: Frame, ins: Instruction)
    requires ins.Instruction? && ins.op == ObjectNew && ExecObjectNew(cx, tb, fr, ins.args).Some?
    ensures GivesOnce(fr, ins, ExecObjectNew(cx, tb, fr, ins.args).value)
  {
    hide Morphisms.FindNamed, Name, Bound, U64;
  }

  lemma PointerGives(cx: Context, tb: Tables, fr: Frame, ins: Instruction)
    requires ins.Instruction? && ins.op == PointerNew && ExecPointerNew(cx, tb, fr, ins.args).Some?
    ensures GivesOnce(fr, ins, ExecPointerNew(cx, tb, fr, ins.args).value)
  {
    hide ObjectOperand, F64, RoleOf, Name, Bound, U64;
  }

  lemma OthersGive(fr: Frame, ins: Instruction, fr': Frame)
    requires fr'.tempObjects == fr.tempObjects && fr'.tempPointers == fr.tempPointers
    requires ins.Instruction? ==> ins.op != ObjectNew && ins.op != PointerNew
    ensures GivesOnce(fr, ins, fr')
  {
  }

  lemma ExecShaped(cx: Context, tb: Tables, fr: Frame, ins: Instruction)
    requires Exec(cx, tb, fr, ins).Some?
    ensures Shaped(ins)
  {
    hide ExecTypeIn, ExecRelationIn, ExecObjectNew, ExecPointerNew, Edit, Arity;
  }

  lemma ExecGives(cx: Context, tb: Tables, fr: Frame, ins: Instruction)
    requires Exec(cx, tb, fr, ins).Some?
    ensures GivesOnce(fr, ins, Exec(cx, tb, fr, ins).value)
  {
    hide GivesOnce, ExecObjectNew, ExecPointerNew, SymbolFor, Edit, Arity, RawObject, Name, U64;
    var fr' := Exec(cx, tb, fr, ins).value;
    if ins.Instruction? && ins.op == ObjectNew {
      ObjectGives(cx, tb, fr, ins);
    } else if ins.Instruction? && ins.op == PointerNew {
      PointerGives(cx, tb, fr, ins);
    } else {
      OthersGive(fr, ins, fr');
    }
  }

  // In a run the machine completes, every object temp is given once and fits 32 bits, every
  // pointer temp is given once, and every instruction has its operands, none an object id.
  lemma {:induction false} RunsOnce(cx: Context, tb: Tables, code: seq<Instruction>)
    requires ExecAll(cx, tb, EmptyFrame(cx), code).Some?
    ensures GivenTemps(code, ExecAll(cx, tb, EmptyFrame(cx), code).value) && TempsOnce(code)
    ensures forall k :: 0 <= k < |code| ==> Shaped(code[k])
    decreases |code|
  {
    hide Exec, Gives, Shaped;
    if code != [] {
      hide EmptyFrame;
      var init, last := code[..|code| - 1], code[|code| - 1];
      assert code == init + [last];
      ExecAppend(cx, tb, EmptyFrame(cx), init, [last]);
      RunsOnce(cx, tb, init);
      var fr := ExecAll(cx, tb, EmptyFrame(cx), init).value;
      ExecOne(cx, tb, fr, last);
      ExecGives(cx, tb, fr, last);
      ExecShaped(cx, tb, fr, last);
      assert forall k :: 0 <= k < |init| ==> init[k] == code[k];
    }
  }
}
