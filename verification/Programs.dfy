// Programs: instructions over symbol tables, and what executing them does to the frame of
// the kernel machine.

module Programs {
  import opened Wrappers
  import opened Model
  import opened Overlay
  import Morphisms

  datatype Opcode =
    | TypeIn | RelationIn
    | ObjectNew | ObjectType | ObjectExistence | ObjectSet | ObjectDrop
    | PointerNew | PointerWeight | PointerSet | PointerDrop | PointerExpire
    | CheckObject | CheckPointer

  // An event keeps its payload as one value.
  datatype Instruction = Instruction(op: Opcode, args: seq<Value>) | Emit(event: Event)

  datatype Tables = Tables(strings: seq<string>, types: seq<string>, relations: seq<string>)

  datatype Program = Program(tables: Tables, code: seq<Instruction>)

  // What a run reads besides the program: the snapshot, the bounds of its symbols, and the
  // conversion of integers to doubles.
  datatype Context = Context(before: Snapshot, typeBound: nat, relationBound: nat, cast: int -> Double)

  datatype Frame = Frame(
    delta: Delta, typeSymbols: map<nat, nat>, relationSymbols: map<nat, nat>, tempObjects: map<nat, nat>,
    createdNames: map<string, nat>, tempPointers: map<nat, nat>, nextPointer: nat)

  const TEMP_TAG: nat := 0
  const KNOWN_TAG: nat := 1
  const MAX_TEMP: nat := 0xFFFF_FFFF

  function Arity(op: Opcode): nat {
    match op
    case TypeIn | RelationIn => 1
    case ObjectNew | ObjectType | ObjectExistence | ObjectDrop | PointerWeight | PointerDrop => 3
    case ObjectSet | PointerSet => 4
    case PointerNew => 9
    case PointerExpire | CheckObject | CheckPointer => 2
  }

  function ExistenceCode(e: Existence): nat {
    match e case Alive => 0 case Dormant => 1 case Collapsed => 2 case Tombstoned => 3
  }

  function ExistenceOf(code: nat): Option<Existence> {
    match code case 0 => Some(Alive) case 1 => Some(Dormant) case 2 => Some(Collapsed) case 3 =>
      Some(Tombstoned) case _ => None
  }

  function RoleCode(r: Role): nat {
    match r
    case Structural => 0 case Observational => 1 case Generative => 2 case Inhibitory => 3
    case Transformative => 4 case Ancestral => 5 case Symbolic => 6
  }

  function RoleOf(code: nat): Option<Role> {
    match code
    case 0 => Some(Structural) case 1 => Some(Observational) case 2 => Some(Generative) case 3 => Some(Inhibitory)
    case 4 => Some(Transformative) case 5 => Some(Ancestral) case 6 => Some(Symbolic) case _ => None
  }

  // ---- operands

  predicate RawObject(args: seq<Value>) {
    exists i :: 0 <= i < |args| && args[i].ObjectValue?
  }

  function U64(args: seq<Value>, i: nat): Option<nat> {
    if i >= |args| then None
    else match args[i]
      case UInt64(u) => Some(u)
      case Int64(n) => if n >= 0 then Some(n) else None
      case _ => None
  }

  function F64(cx: Context, args: seq<Value>, i: nat): Option<Double> {
    if i >= |args| then None
    else match args[i]
      case Float64(d) => Some(d)
      case UInt64(u) => Some(cx.cast(u))
      case Int64(n) => Some(cx.cast(n))
      case _ => None
  }

  // The name a symbol operand stands for in a table.
  function Name(table: seq<string>, args: seq<Value>, i: nat): Option<string> {
    match U64(args, i)
    case None => None
    case Some(s) => if s < |table| then Some(table[s]) else None
  }

  function Bound(symbols: map<nat, nat>, args: seq<Value>, i: nat): Option<nat> {
    match U64(args, i)
    case None => None
    case Some(s) => if s in symbols then Some(symbols[s]) else None
  }

  function ObjectOperand(cx: Context, tb: Tables, fr: Frame, args: seq<Value>, tag: nat, value: nat): Option<Ref> {
    match (U64(args, tag), U64(args, value))
    case (Some(t), Some(v)) =>
      if t == TEMP_TAG then (if v in fr.tempObjects then Some(ByTemp(fr.tempObjects[v])) else None)
      else if t != KNOWN_TAG || v >= |tb.strings| then None
      else if tb.strings[v] in fr.createdNames then Some(ByTemp(fr.createdNames[tb.strings[v]]))
      else (match Morphisms.FindNamed(cx.before.objects, tb.strings[v])
            case Some(id) => Some(ById(id))
            case None => None)
    case _ => None
  }

  function PointerOperand(cx: Context, fr: Frame, args: seq<Value>, tag: nat, value: nat): Option<nat> {
    match (U64(args, tag), U64(args, value))
    case (Some(t), Some(v)) =>
      if t == TEMP_TAG then (if v in fr.tempPointers then Some(fr.tempPointers[v]) else None)
      else if t != KNOWN_TAG || FindPointer(cx.before.pointers, v).None? then None
      else Some(v)
    case _ => None
  }

  function ValueOperand(args: seq<Value>, i: nat): Option<Value> {
    if i >= |args| || args[i].ObjectValue? then None else Some(args[i])
  }

  // ---- one instruction

  function Pushed(fr: Frame, op: Op): Frame {
    fr.(delta := fr.delta + [op])
  }

  // The symbol a table name is interned at: the one it has, or the one its slot asks for.
  function SymbolFor(names: map<nat, string>, bound: nat, name: string, slot: nat): Option<nat> {
    match Morphisms.FirstSymbol(names, name, 0, bound)
    case Some(id) => Some(id)
    case None => if slot + 1 in names && names[slot + 1] != name then None else Some(slot + 1)
  }

  function ExecTypeIn(cx: Context, tb: Tables, fr: Frame, args: seq<Value>): Option<Frame> {
    match (U64(args, 0), Name(tb.types, args, 0))
    case (Some(s), Some(name)) =>
      (match SymbolFor(cx.before.typeNames, cx.typeBound, name, s)
       case Some(id) => Some(Pushed(fr.(typeSymbols := fr.typeSymbols[s := id]), InternType(name, id)))
       case None => None)
    case _ => None
  }

  function ExecRelationIn(cx: Context, tb: Tables, fr: Frame, args: seq<Value>): Option<Frame> {
    match (U64(args, 0), Name(tb.relations, args, 0))
    case (Some(s), Some(name)) =>
      (match SymbolFor(cx.before.relationNames, cx.relationBound, name, s)
       case Some(id) => Some(Pushed(fr.(relationSymbols := fr.relationSymbols[s := id]), InternRelation(name, id)))
       case None => None)
    case _ => None
  }

  function ExecObjectNew(cx: Context, tb: Tables, fr: Frame, args: seq<Value>): Option<Frame> {
    match (U64(args, 0), Name(tb.strings, args, 1), Bound(fr.typeSymbols, args, 2))
    case (Some(temp), Some(name), Some(typ)) =>
      if temp == 0 || temp > MAX_TEMP || temp in fr.tempObjects || name in fr.createdNames ||
         Morphisms.FindNamed(cx.before.objects, name).Some? then None
      else Some(Pushed(fr.(tempObjects := fr.tempObjects[temp := temp], createdNames := fr.createdNames[name := temp]),
                       CreateObject(temp, name, typ, Alive, [])))
    case _ => None
  }

  function ExecPointerNew(cx: Context, tb: Tables, fr: Frame, args: seq<Value>): Option<Frame> {
    match (U64(args, 0), ObjectOperand(cx, tb, fr, args, 1, 2), ObjectOperand(cx, tb, fr, args, 3, 4),
           Bound(fr.relationSymbols, args, 5), F64(cx, args, 6), U64(args, 7), Name(tb.strings, args, 8))
    case (Some(temp), Some(from), Some(to), Some(relation), Some(weight), Some(role), Some(domain)) =>
      if temp == 0 || RoleOf(role).None? || temp in fr.tempPointers then None
      else Some(Pushed(fr.(tempPointers := fr.tempPointers[temp := fr.nextPointer], nextPointer := fr.nextPointer + 1),
                       CreatePointer(from, to, relation, RoleOf(role).value, weight, if domain == "" then "core"
                         else domain, [])))
    case _ => None
  }

  // The operation of an instruction on an existing object or pointer.
  function Edit(cx: Context, tb: Tables, fr: Frame, op: Opcode, args: seq<Value>): Option<Op> {
    match op
    case ObjectType =>
      (match (ObjectOperand(cx, tb, fr, args, 0, 1), Bound(fr.typeSymbols, args, 2))
       case (Some(ref), Some(typ)) => Some(SetObjectType(ref, typ)) case _ => None)
    case ObjectExistence =>
      (match (ObjectOperand(cx, tb, fr, args, 0, 1), U64(args, 2))
       case (Some(ref), Some(code)) => if ExistenceOf(code).Some?
         then Some(SetObjectExistence(ref, ExistenceOf(code).value)) else None
       case _ => None)
    case ObjectSet =>
      (match (ObjectOperand(cx, tb, fr, args, 0, 1), Name(tb.strings, args, 2), ValueOperand(args, 3))
       case (Some(ref), Some(key), Some(v)) => Some(SetObjectAttribute(ref, Attribute(key, v))) case _ => None)
    case ObjectDrop =>
      (match (ObjectOperand(cx, tb, fr, args, 0, 1), Name(tb.strings, args, 2))
       case (Some(ref), Some(key)) => Some(RemoveObjectAttribute(ref, key)) case _ => None)
    case CheckObject =>
      (match ObjectOperand(cx, tb, fr, args, 0, 1) case Some(ref) => Some(AssertObject(ref)) case _ => None)
    case PointerWeight =>
      (match (PointerOperand(cx, fr, args, 0, 1), F64(cx, args, 2))
       case (Some(p), Some(w)) => Some(SetPointerWeight(p, w)) case _ => None)
    case PointerSet =>
      (match (PointerOperand(cx, fr, args, 0, 1), Name(tb.strings, args, 2), ValueOperand(args, 3))
       case (Some(p), Some(key), Some(v)) => Some(SetPointerAttribute(p, Attribute(key, v))) case _ => None)
    case PointerDrop =>
      (match (PointerOperand(cx, fr, args, 0, 1), Name(tb.strings, args, 2))
       case (Some(p), Some(key)) => Some(RemovePointerAttribute(p, key)) case _ => None)
    case PointerExpire =>
      (match PointerOperand(cx, fr, args, 0, 1) case Some(p) => Some(ExpirePointer(p)) case _ => None)
    case CheckPointer =>
      (match PointerOperand(cx, fr, args, 0, 1) case Some(p) => Some(AssertPointer(p)) case _ => None)
    case _ => None
  }

  // What an instruction leaves of the frame, unless it is refused.
  function Exec(cx: Context, tb: Tables, fr: Frame, ins: Instruction): Option<Frame> {
    if ins.Emit? then Some(Pushed(fr, EmitEvent(ins.event)))
    else if RawObject(ins.args) || |ins.args| != Arity(ins.op) then None
    else match ins.op
      case TypeIn => ExecTypeIn(cx, tb, fr, ins.args)
      case RelationIn => ExecRelationIn(cx, tb, fr, ins.args)
      case ObjectNew => ExecObjectNew(cx, tb, fr, ins.args)
      case PointerNew => ExecPointerNew(cx, tb, fr, ins.args)
      case _ => match Edit(cx, tb, fr, ins.op, ins.args)
                case Some(op) => Some(Pushed(fr, op))
                case None => None
  }

  function ExecAll(cx: Context, tb: Tables, fr: Frame, code: seq<Instruction>): Option<Frame>
    decreases |code|
  {
    if code == [] then Some(fr)
    else match Exec(cx, tb, fr, code[0])
      case None => None
      case Some(next) => ExecAll(cx, tb, next, code[1..])
  }

  // The frame a run starts from.
  function EmptyFrame(cx: Context): Frame {
    Frame([], map[], map[], map[], map[], map[], NextPointer(cx.before.pointers))
  }

  datatype Refusal = Diagnosed(instruction: nat) | OverlayRejected(error: OverlayError)

  // A run of the machine: the delta its instructions emit, if none is refused and the
  // overlay takes it.
  ghost function Executed(cx: Context, p: Program): Result<Delta, Refusal> {
    match ExecAll(cx, p.tables, EmptyFrame(cx), p.code)
    case None => Err(Diagnosed(Refused(cx, p.tables, EmptyFrame(cx), p.code)))
    case Some(fr) =>
      match Apply(cx.before, fr.delta)
      case Err(e) => Err(OverlayRejected(e))
      case Ok(_) => Ok(fr.delta)
  }

  // The position of the first refused instruction.
  function Refused(cx: Context, tb: Tables, fr: Frame, code: seq<Instruction>): nat
    decreases |code|
  {
    if code == [] then 0
    else match Exec(cx, tb, fr, code[0])
      case None => 0
      case Some(next) => 1 + Refused(cx, tb, next, code[1..])
  }

  lemma {:induction false} ExecAppend(cx: Context, tb: Tables, fr: Frame, a: seq<Instruction>, b: seq<Instruction>)
    ensures ExecAll(cx, tb, fr, a + b) ==
            match ExecAll(cx, tb, fr, a) case None => None case Some(mid) => ExecAll(cx, tb, mid, b)
    decreases |a|
  {
    hide Exec;
    if a == [] {
      assert a + b == b;
    } else {
      assert (a + b)[1..] == a[1..] + b;
      if Exec(cx, tb, fr, a[0]).Some? {
        ExecAppend(cx, tb, Exec(cx, tb, fr, a[0]).value, a[1..], b);
      }
    }
  }

  predicate Grows(a: Tables, b: Tables) {
    a.strings <= b.strings && a.types <= b.types && a.relations <= b.relations
  }

  lemma NameGrows(a: seq<string>, b: seq<string>, args: seq<Value>, i: nat)
    requires a <= b && Name(a, args, i).Some?
    ensures Name(b, args, i) == Name(a, args, i)
  {
  }

  lemma OperandGrows(cx: Context, a: Tables, b: Tables, fr: Frame, args: seq<Value>, tag: nat, value: nat)
    requires Grows(a, b) && ObjectOperand(cx, a, fr, args, tag, value).Some?
    ensures ObjectOperand(cx, b, fr, args, tag, value) == ObjectOperand(cx, a, fr, args, tag, value)
  {
  }

  lemma EditGrows(cx: Context, a: Tables, b: Tables, fr: Frame, op: Opcode, args: seq<Value>)
    requires Grows(a, b) && Edit(cx, a, fr, op, args).Some?
    ensures Edit(cx, b, fr, op, args) == Edit(cx, a, fr, op, args)
  {
    hide ObjectOperand, PointerOperand, Name, U64, F64, Bound, ValueOperand, ExistenceOf;
    if ObjectOperand(cx, a, fr, args, 0, 1).Some? {
      OperandGrows(cx, a, b, fr, args, 0, 1);
    }
    if Name(a.strings, args, 2).Some? {
      NameGrows(a.strings, b.strings, args, 2);
    }
  }

  // Longer tables do not change what already ran.
  lemma ExecGrows(cx: Context, a: Tables, b: Tables, fr: Frame, ins: Instruction)
    requires Grows(a, b) && Exec(cx, a, fr, ins).Some?
    ensures Exec(cx, b, fr, ins) == Exec(cx, a, fr, ins)
  {
    hide ObjectOperand, PointerOperand, Name, U64, F64, Bound, SymbolFor, RoleOf, Edit, Morphisms.FindNamed, Arity;
    if ins.Instruction? {
      match ins.op
      case TypeIn => NameGrows(a.types, b.types, ins.args, 0);
      case RelationIn => NameGrows(a.relations, b.relations, ins.args, 0);
      case ObjectNew => NameGrows(a.strings, b.strings, ins.args, 1);
      case PointerNew =>
        OperandGrows(cx, a, b, fr, ins.args, 1, 2);
        OperandGrows(cx, a, b, fr, ins.args, 3, 4);
        NameGrows(a.strings, b.strings, ins.args, 8);
      case _ => EditGrows(cx, a, b, fr, ins.op, ins.args);
    }
  }

  lemma {:induction false} ExecAllGrows(cx: Context, a: Tables, b: Tables, fr: Frame, code: seq<Instruction>)
    requires Grows(a, b) && ExecAll(cx, a, fr, code).Some?
    ensures ExecAll(cx, b, fr, code) == ExecAll(cx, a, fr, code)
    decreases |code|
  {
    hide Exec;
    if code != [] {
      ExecGrows(cx, a, b, fr, code[0]);
      ExecAllGrows(cx, a, b, Exec(cx, a, fr, code[0]).value, code[1..]);
    }
  }
}
