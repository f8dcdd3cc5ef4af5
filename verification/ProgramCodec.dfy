// Programs as bytes: the symbol tables, then the instructions with their operands.

module ProgramCodec {
  import opened Wrappers
  import opened Model
  import opened Programs
  import opened Codec

  // An event as the operands of the instruction that emits it.
  datatype Operands = Operands(of: Event -> seq<Value>, event: seq<Value> -> Option<Event>)

  function OpcodeByte(op: Opcode): nat {
    match op
    case TypeIn => 0 case RelationIn => 1
    case ObjectNew => 2 case ObjectType => 3 case ObjectExistence => 4 case ObjectSet => 5 case ObjectDrop => 6
    case PointerNew => 7 case PointerWeight => 8 case PointerSet => 9 case PointerDrop => 10 case PointerExpire => 11
    case CheckObject => 12 case CheckPointer => 13
  }

  function OpcodeOf(code: nat): Option<Opcode> {
    match code
    case 0 => Some(TypeIn) case 1 => Some(RelationIn)
    case 2 => Some(ObjectNew) case 3 => Some(ObjectType) case 4 => Some(ObjectExistence) case 5 =>
      Some(ObjectSet) case 6 => Some(ObjectDrop)
    case 7 => Some(PointerNew) case 8 => Some(PointerWeight) case 9 => Some(PointerSet) case 10 => Some(PointerDrop)
    case 11 => Some(PointerExpire) case 12 => Some(CheckObject) case 13 => Some(CheckPointer)
    case _ => None
  }

  const EMIT_BYTE: nat := 15

  function Byte(i: Instruction): nat {
    match i case Instruction(op, _) => OpcodeByte(op) case Emit(_) => EMIT_BYTE
  }

  function Args(c: Operands, i: Instruction): seq<Value> {
    match i case Instruction(_, args) => args case Emit(event) => c.of(event)
  }

  function Decoded(c: Operands, code: nat, args: seq<Value>): Option<Instruction> {
    if code == EMIT_BYTE then
      match c.event(args)
      case None => None
      case Some(event) => Some(Emit(event))
    else if OpcodeOf(code).Some? then Some(Instruction(OpcodeOf(code).value, args))
    else None
  }

  const INSTRUCTION_TAG: string := "Instruction:v1"

  const TABLES_TAG: string := "ProgramSymbolTable:v1"

  const PROGRAM_TAG: string := "Program:v1"

  lemma TagsFit()
    ensures ByteText(INSTRUCTION_TAG) && ByteText(TABLES_TAG) && ByteText(PROGRAM_TAG)
  {
  }

  lemma ByteFits(i: Instruction)
    ensures Byte(i) < Size(1)
  {
  }

  // ---- instructions

  function WrittenInstruction(c: Operands, i: Instruction): Bytes {
    Text(INSTRUCTION_TAG) + (Number(1, Byte(i)) + Counted(WrittenValue, Args(c, i)))
  }

  function ReadInstruction(c: Operands, b: Bytes): Got<Instruction> {
    match ReadText(b)
    case Failed => Failed
    case Got(tag, b1) =>
      if tag != INSTRUCTION_TAG then Failed
      else match ReadNumber(1, b1)
        case Failed => Failed
        case Got(code, b2) =>
          match ReadCounted(ReadValue, b2)
          case Failed => Failed
          case Got(args, rest) => if Decoded(c, code, args).Some? then Got(Decoded(c, code, args).value, rest)
            else Failed
  }

  // The widths of the fields, and that events are the operands they are read from.
  predicate InstructionFits(c: Operands, i: Instruction) {
    && |Args(c, i)| < Size(8)
    && (forall v :: v in Args(c, i) ==> ValueFits(v))
    && (i.Emit? ==> c.event(c.of(i.event)) == Some(i.event))
  }

  lemma ValuesRead(args: seq<Value>, rest: Bytes)
    requires |args| < Size(8) && forall v :: v in args ==> ValueFits(v)
    ensures ReadCounted(ReadValue, Counted(WrittenValue, args) + rest) == Got(args, rest)
  {
    hide ValueFits, ReadValue, WrittenValue, Counted, ReadCounted, Size;
    forall v | v in args ensures Reads(WrittenValue, ReadValue, v) {
      forall more: Bytes ensures ReadValue(WrittenValue(v) + more) == Got(v, more) {
        ValueRead(v, more);
      }
    }
    CountedRead(WrittenValue, ReadValue, args, rest);
  }

  lemma InstructionRead(c: Operands, i: Instruction, rest: Bytes)
    requires InstructionFits(c, i)
    ensures ReadInstruction(c, WrittenInstruction(c, i) + rest) == Got(i, rest)
  {
    TagsFit();
    ByteFits(i);
    hide Number, ReadNumber, Text, ReadText, Counted, ReadCounted, ValueFits, Size;
    var n1 := Counted(WrittenValue, Args(c, i)) + rest;
    var n0 := Number(1, Byte(i)) + n1;
    assert WrittenInstruction(c, i) + rest == Text(INSTRUCTION_TAG) + n0;
    TextRead(INSTRUCTION_TAG, n0);
    NumberRead(1, Byte(i), n1);
    ValuesRead(Args(c, i), rest);
  }

  // ---- symbol tables

  function WrittenTables(t: Tables): Bytes {
    Text(TABLES_TAG) + (Counted(Text, t.strings) + (Counted(Text, t.types) + Counted(Text, t.relations)))
  }

  function ReadTables(b: Bytes): Got<Tables> {
    match ReadText(b)
    case Failed => Failed
    case Got(tag, b1) =>
      if tag != TABLES_TAG then Failed
      else match ReadCounted(ReadText, b1)
        case Failed => Failed
        case Got(strings, b2) =>
          match ReadCounted(ReadText, b2)
          case Failed => Failed
          case Got(types, b3) => Mapped(ReadCounted(ReadText, b3), relations => Tables(strings, types, relations))
  }

  predicate TextsFit(texts: seq<string>) {
    |texts| < Size(8) && forall s :: s in texts ==> ByteText(s)
  }

  lemma TextsRead(texts: seq<string>, rest: Bytes)
    requires TextsFit(texts)
    ensures ReadCounted(ReadText, Counted(Text, texts) + rest) == Got(texts, rest)
  {
    hide ByteText, ReadText, Text, Counted, ReadCounted, Size;
    forall s | s in texts ensures Reads(Text, ReadText, s) {
      forall more: Bytes ensures ReadText(Text(s) + more) == Got(s, more) {
        TextRead(s, more);
      }
    }
    CountedRead(Text, ReadText, texts, rest);
  }

  lemma TablesRead(t: Tables, rest: Bytes)
    requires TextsFit(t.strings) && TextsFit(t.types) && TextsFit(t.relations)
    ensures ReadTables(WrittenTables(t) + rest) == Got(t, rest)
  {
    TagsFit();
    hide Text, ReadText, Counted, ReadCounted, TextsFit, Size;
    var n2 := Counted(Text, t.relations) + rest;
    var n1 := Counted(Text, t.types) + n2;
    var n0 := Counted(Text, t.strings) + n1;
    assert WrittenTables(t) + rest == Text(TABLES_TAG) + n0;
    TextRead(TABLES_TAG, n0);
    TextsRead(t.strings, n1);
    TextsRead(t.types, n2);
    TextsRead(t.relations, rest);
  }

  // ---- programs

  function WrittenCode(c: Operands, code: seq<Instruction>): Bytes {
    Counted(i => WrittenInstruction(c, i), code)
  }

  function ReadCode(c: Operands, b: Bytes): Got<seq<Instruction>> {
    ReadCounted(b' => ReadInstruction(c, b'), b)
  }

  function Written(c: Operands, p: Program): Bytes {
    Text(PROGRAM_TAG) + (WrittenTables(p.tables) + WrittenCode(c, p.code))
  }

  function ReadProgram(c: Operands, b: Bytes): Got<Program> {
    match ReadText(b)
    case Failed => Failed
    case Got(tag, b1) =>
      if tag != PROGRAM_TAG then Failed
      else match ReadTables(b1)
        case Failed => Failed
        case Got(tables, b2) => Mapped(ReadCode(c, b2), code => Program(tables, code))
  }

  predicate Fits(c: Operands, p: Program) {
    && TextsFit(p.tables.strings) && TextsFit(p.tables.types) && TextsFit(p.tables.relations)
    && |p.code| < Size(8) && forall i :: i in p.code ==> InstructionFits(c, i)
  }

  lemma CodeRead(c: Operands, code: seq<Instruction>, rest: Bytes)
    requires |code| < Size(8) && forall i :: i in code ==> InstructionFits(c, i)
    ensures ReadCode(c, WrittenCode(c, code) + rest) == Got(code, rest)
  {
    hide InstructionFits, ReadInstruction, WrittenInstruction, Counted, ReadCounted, Size;
    var f, r := i => WrittenInstruction(c, i), b => ReadInstruction(c, b);
    forall i | i in code ensures Reads(f, r, i) {
      forall more: Bytes ensures r(f(i) + more) == Got(i, more) {
        InstructionRead(c, i, more);
      }
    }
    CountedRead(f, r, code, rest);
  }

  // Reading back what was written gives the program, and nothing of what follows.
  lemma ProgramRead(c: Operands, p: Program, rest: Bytes)
    requires Fits(c, p)
    ensures ReadProgram(c, Written(c, p) + rest) == Got(p, rest)
  {
    TagsFit();
    hide Text, ReadText, WrittenTables, ReadTables, WrittenCode, ReadCode, TextsFit, InstructionFits, Size;
    var n1 := WrittenCode(c, p.code) + rest;
    var n0 := WrittenTables(p.tables) + n1;
    assert Written(c, p) + rest == Text(PROGRAM_TAG) + n0;
    TextRead(PROGRAM_TAG, n0);
    TablesRead(p.tables, n1);
    CodeRead(c, p.code, rest);
  }

  // No program's bytes begin with another's.
  lemma WrittenApart(c: Operands, p: Program, q: Program, rest: Bytes, more: Bytes)
    requires Fits(c, p) && Fits(c, q)
    ensures Written(c, p) + rest == Written(c, q) + more <==> p == q && rest == more
  {
    hide Written, ReadProgram, Fits;
    ProgramRead(c, p, rest);
    ProgramRead(c, q, more);
  }
}
