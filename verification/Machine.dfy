// The kernel machine: a frame updated instruction by instruction, and a run that ends with
// the overlay taking or refusing what was emitted.

module Machine {
  import opened Wrappers
  import opened Model
  import opened Overlay
  import opened OverlayApply
  import opened Programs
  import Morphisms

  class VmFrame {
    const before: Snapshot
    const program: Program
    const cast: int -> Double
    const typeBound: nat
    const relationBound: nat
    var delta: Delta
    var diagnostics: seq<nat>
    var typeSymbols: map<nat, nat>
    var relationSymbols: map<nat, nat>
    var tempObjects: map<nat, nat>
    var createdNames: map<string, nat>
    var tempPointers: map<nat, nat>
    var nextPointer: nat

    ghost function View(): Frame
      reads this
    {
      Frame(delta, typeSymbols, relationSymbols, tempObjects, createdNames, tempPointers, nextPointer)
    }

    function Cx(): Context {
      Context(before, typeBound, relationBound, cast)
    }

    constructor (cx: Context, p: Program)
      ensures Cx() == cx && program == p && View() == EmptyFrame(cx) && diagnostics == []
    {
      before, program, cast, typeBound, relationBound := cx.before, p, cx.cast, cx.typeBound, cx.relationBound;
      delta, diagnostics := [], [];
      typeSymbols, relationSymbols, tempObjects, createdNames, tempPointers := map[], map[], map[], map[], map[];
      nextPointer := NextPointer(cx.before.pointers);
    }

    function Operand(args: seq<Value>, tag: nat, value: nat): Option<Ref>
      reads this
    {
      ObjectOperand(Cx(), program.tables, Frame(delta, typeSymbols, relationSymbols, tempObjects, createdNames,
        tempPointers, nextPointer),
                    args, tag, value)
    }

    function PointerAt(args: seq<Value>): Option<nat>
      reads this
    {
      PointerOperand(Cx(), Frame(delta, typeSymbols, relationSymbols, tempObjects, createdNames, tempPointers,
        nextPointer), args, 0, 1)
    }

    // Interns a table name, unless its slot belongs to another name of the snapshot.
    method RunTypeIn(args: seq<Value>) returns (ok: bool)
      modifies this
      ensures ok <==> ExecTypeIn(Cx(), program.tables, old(View()), args).Some?
      ensures diagnostics == old(diagnostics) && (ok ==>
              Some(View()) == ExecTypeIn(Cx(), program.tables, old(View()), args))
    {
      hide U64, Name, Morphisms.FirstSymbol;
      var symbol, name := U64(args, 0), Name(program.tables.types, args, 0);
      if symbol.None? || name.None? {
        return false;
      }
      var id := Morphisms.FirstSymbol(before.typeNames, name.value, 0, typeBound);
      if id.None? {
        var desired := symbol.value + 1;
        if desired in before.typeNames && before.typeNames[desired] != name.value {
          return false;
        }
        id := Some(desired);
      }
      typeSymbols := typeSymbols[symbol.value := id.value];
      delta := delta + [InternType(name.value, id.value)];
      ok := true;
    }

    method RunRelationIn(args: seq<Value>) returns (ok: bool)
      modifies this
      ensures ok <==> ExecRelationIn(Cx(), program.tables, old(View()), args).Some?
      ensures diagnostics == old(diagnostics) && (ok ==>
              Some(View()) == ExecRelationIn(Cx(), program.tables, old(View()), args))
    {
      hide U64, Name, Morphisms.FirstSymbol;
      var symbol, name := U64(args, 0), Name(program.tables.relations, args, 0);
      if symbol.None? || name.None? {
        return false;
      }
      var id := Morphisms.FirstSymbol(before.relationNames, name.value, 0, relationBound);
      if id.None? {
        var desired := symbol.value + 1;
        if desired in before.relationNames && before.relationNames[desired] != name.value {
          return false;
        }
        id := Some(desired);
      }
      relationSymbols := relationSymbols[symbol.value := id.value];
      delta := delta + [InternRelation(name.value, id.value)];
      ok := true;
    }

    method RunObjectNew(args: seq<Value>) returns (ok: bool)
      modifies this
      ensures ok <==> ExecObjectNew(Cx(), program.tables, old(View()), args).Some?
      ensures diagnostics == old(diagnostics) && (ok ==>
              Some(View()) == ExecObjectNew(Cx(), program.tables, old(View()), args))
    {
      hide U64, Name, Bound, Morphisms.FindNamed;
      var temp, name, typ := U64(args, 0), Name(program.tables.strings, args, 1), Bound(typeSymbols, args, 2);
      if temp.None? || name.None? || typ.None? {
        return false;
      }
      if temp.value == 0 || temp.value > MAX_TEMP {
        return false;
      }
      if temp.value in tempObjects || name.value in createdNames ||
        Morphisms.FindNamed(before.objects, name.value).Some? {
        return false;
      }
      tempObjects := tempObjects[temp.value := temp.value];
      createdNames := createdNames[name.value := temp.value];
      delta := delta + [CreateObject(temp.value, name.value, typ.value, Alive, [])];
      ok := true;
    }

    // The new pointer's id is predicted, for later instructions to refer to.
    method RunPointerNew(args: seq<Value>) returns (ok: bool)
      modifies this
      ensures ok <==> ExecPointerNew(Cx(), program.tables, old(View()), args).Some?
      ensures diagnostics == old(diagnostics) && (ok ==>
              Some(View()) == ExecPointerNew(Cx(), program.tables, old(View()), args))
    {
      hide U64, Name, Bound, F64, ObjectOperand, RoleOf;
      var temp, from, to := U64(args, 0), Operand(args, 1, 2), Operand(args, 3, 4);
      var relation, weight := Bound(relationSymbols, args, 5), F64(Cx(), args, 6);
      var code, domain := U64(args, 7), Name(program.tables.strings, args, 8);
      if temp.None? || from.None? || to.None? || relation.None? || weight.None? || code.None? || domain.None? {
        return false;
      }
      var role := RoleOf(code.value);
      if temp.value == 0 || role.None? || temp.value in tempPointers {
        return false;
      }
      tempPointers := tempPointers[temp.value := nextPointer];
      nextPointer := nextPointer + 1;
      delta := delta + [CreatePointer(from.value, to.value, relation.value, role.value, weight.value,
                                      if domain.value == "" then "core" else domain.value, [])];
      ok := true;
    }

    method RunEdit(op: Opcode, args: seq<Value>) returns (ok: bool)
      modifies this
      ensures ok <==> Edit(Cx(), program.tables, old(View()), op, args).Some?
      ensures diagnostics == old(diagnostics)
      ensures ok ==> View() == Pushed(old(View()), Edit(Cx(), program.tables, old(View()), op, args).value)
    {
      hide U64, Name, Bound, F64, ObjectOperand, PointerOperand, ExistenceOf, ValueOperand;
      var made: Option<Op> := None;
      var ref, pointer := Operand(args, 0, 1), PointerAt(args);
      var key, value := Name(program.tables.strings, args, 2), ValueOperand(args, 3);
      match op {
      case ObjectType =>
        var typ := Bound(typeSymbols, args, 2);
        if ref.Some? && typ.Some? {
          made := Some(SetObjectType(ref.value, typ.value));
        }
      case ObjectExistence =>
        var code := U64(args, 2);
        if ref.Some? && code.Some? && ExistenceOf(code.value).Some? {
          made := Some(SetObjectExistence(ref.value, ExistenceOf(code.value).value));
        }
      case ObjectSet =>
        if ref.Some? && key.Some? && value.Some? {
          made := Some(SetObjectAttribute(ref.value, Attribute(key.value, value.value)));
        }
      case ObjectDrop =>
        if ref.Some? && key.Some? {
          made := Some(RemoveObjectAttribute(ref.value, key.value));
        }
      case CheckObject =>
        if ref.Some? {
          made := Some(AssertObject(ref.value));
        }
      case PointerWeight =>
        var weight := F64(Cx(), args, 2);
        if pointer.Some? && weight.Some? {
          made := Some(SetPointerWeight(pointer.value, weight.value));
        }
      case PointerSet =>
        if pointer.Some? && key.Some? && value.Some? {
          made := Some(SetPointerAttribute(pointer.value, Attribute(key.value, value.value)));
        }
      case PointerDrop =>
        if pointer.Some? && key.Some? {
          made := Some(RemovePointerAttribute(pointer.value, key.value));
        }
      case PointerExpire =>
        if pointer.Some? {
          made := Some(ExpirePointer(pointer.value));
        }
      case CheckPointer =>
        if pointer.Some? {
          made := Some(AssertPointer(pointer.value));
        }
      case _ =>
      }
      if made.None? {
        return false;
      }
      delta := delta + [made.value];
      ok := true;
    }

    method ExecuteInstruction(position: nat, ins: Instruction) returns (ok: bool)
      modifies this
      ensures ok <==> Exec(Cx(), program.tables, old(View()), ins).Some?
      ensures ok ==> Some(View()) == Exec(Cx(), program.tables, old(View()), ins) && diagnostics == old(diagnostics)
      ensures !ok ==> diagnostics == old(diagnostics) + [position]
    {
      hide Edit, ExecTypeIn, ExecRelationIn, ExecObjectNew, ExecPointerNew, RawObject, Arity;
      if ins.Emit? {
        delta := delta + [EmitEvent(ins.event)];
        return true;
      }
      if RawObject(ins.args) || |ins.args| != Arity(ins.op) {
        ok := false;
      } else if ins.op.TypeIn? {
        ok := RunTypeIn(ins.args);
      } else if ins.op.RelationIn? {
        ok := RunRelationIn(ins.args);
      } else if ins.op.ObjectNew? {
        ok := RunObjectNew(ins.args);
      } else if ins.op.PointerNew? {
        ok := RunPointerNew(ins.args);
      } else {
        ok := RunEdit(ins.op, ins.args);
      }
      if !ok {
        diagnostics := diagnostics + [position];
      }
    }
  }

  // Runs a program: it stops at the first refused instruction, and at the end asks the overlay.
  method Execute(snapshot: Snapshot, program: Program, cast: int -> Double)
    returns (r: Result<Delta, Refusal>, diagnostics: seq<nat>)
    ensures r == Executed(Context(snapshot, NextSymbol(snapshot.typeNames), NextSymbol(snapshot.relationNames), cast),
            program)
    ensures r.Ok? <==> diagnostics == []
  {
    hide Exec, NextSymbol, Apply;
    var typeBound := NextSymbolOf(snapshot.typeNames);
    var relationBound := NextSymbolOf(snapshot.relationNames);
    var cx := Context(snapshot, typeBound, relationBound, cast);
    var frame := new VmFrame(cx, program);
    var code := program.code;
    assert code[0..] == code;
    for i := 0 to |code|
      invariant frame.Cx() == cx && frame.program == program && frame.diagnostics == []
      invariant ExecAll(cx, program.tables, EmptyFrame(cx), code) ==
                ExecAll(cx, program.tables, frame.View(), code[i..])
      invariant ExecAll(cx, program.tables, EmptyFrame(cx), code).None? ==>
                  Refused(cx, program.tables, EmptyFrame(cx), code) == i +
                    Refused(cx, program.tables, frame.View(), code[i..])
    {
      assert code[i..][1..] == code[i + 1..];
      var ok := frame.ExecuteInstruction(i, code[i]);
      if !ok {
        return Err(Diagnosed(i)), frame.diagnostics;
      }
    }
    var after := ApplyDelta(snapshot, frame.delta);
    if after.Err? {
      return Err(OverlayRejected(after.error)), [if code == [] then 0 else |code| - 1];
    }
    r, diagnostics := Ok(frame.delta), [];
  }
}
