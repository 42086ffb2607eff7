/**
  How the assembler compiles the debug positions of a function into a line number program: it walks
  instructions and built bytes side by side and emits an operation only where something changes.
 */
module LineCompiler {
  import opened Bytes
  import opened Isa
  import opened Assembly
  import opened LineProgram

  /** A variable lives from instruction `start` up to instruction `start + length`. */
  datatype Local = Local(reg: int, start: nat, length: nat, name: nat, typ: nat, sig: Option<nat>, isParameter: bool)

  /**
    Where a function comes from: the name and text of its own source file, the source file of its
    record (empty if it has no record), and the offsets of the string items for the first two.
   */
  datatype Source = Source(file: string, text: string, recordFile: string, fileId: nat, textId: nat)

  datatype Function = Function(ins: seq<Ins>, locals: seq<Local>, ecmascript: bool, source: Source)

  /** Operations so far, bytes walked since the last address step, and the last line and column noted. */
  datatype Gen = Gen(ops: seq<Op>, pcInc: nat, prevLine: int, prevColumn: int)

  function Flush(g: Gen): Gen {
    if g.pcInc != 0 then g.(ops := g.ops + [AdvancePc(g.pcInc)], pcInc := 0) else g
  }

  function StartOp(v: Local): Op {
    match v.sig
    case None => StartLocal(v.reg, v.name, v.typ)
    case Some(s) => StartLocalExtended(v.reg, v.name, v.typ, s)
  }

  function AddOp(g: Gen, op: Op): Gen {
    g.(ops := g.ops + [op])
  }

  function GenStart(v: Local, i: nat, g: Gen): Gen {
    if !v.isParameter && i == v.start then AddOp(Flush(g), StartOp(v)) else g
  }

  function GenEnd(v: Local, i: nat, g: Gen): Gen {
    if !v.isParameter && i == v.start + v.length then AddOp(Flush(g), EndLocal(v.reg)) else g
  }

  function GenLocals(locals: seq<Local>, k: nat, i: nat, g: Gen): Gen
    requires k <= |locals|
  {
    if k == 0 then g
    else
      var v := locals[k - 1];
      GenEnd(v, i, GenStart(v, i, GenLocals(locals, k - 1, i, g)))
  }

  /** The operations that step address and line and add a row: one if possible, else two or three. */
  function NumberOps(pcInc: nat, lineInc: int): seq<Op> {
    if SpecialOpcode(pcInc, lineInc) != -1 then [Special(SpecialOpcode(pcInc, lineInc))]
    else
      (if pcInc != 0 then [AdvancePc(pcInc)] else [])
      + if pcInc != 0 && SpecialOpcode(0, lineInc) != -1 then [Special(SpecialOpcode(0, lineInc))]
        else [AdvanceLine(lineInc), Special(SpecialOpcode(0, 0))]
  }

  function GenLine(line: int, g: Gen): Gen {
    if line == g.prevLine then g
    else g.(ops := g.ops + NumberOps(g.pcInc, line - g.prevLine), pcInc := 0, prevLine := line)
  }

  function GenColumn(column: int, g: Gen): Gen {
    if column == g.prevColumn then g
    else AddOp(Flush(g), SetColumn(column % 0x1_0000_0000)).(prevColumn := column)
  }

  /** Whether the line of an instruction is noted. */
  predicate Noted(ins: Ins, emitDebug: bool) {
    ins.code.Some? && (emitDebug || ins.canThrow)
  }

  /** What one turn of the loop does, for an instruction of the given size. */
  function GenIns(f: Function, emitDebug: bool, size: nat, i: nat, g: Gen): Gen
    requires i < |f.ins|
  {
    var ins := f.ins[i];
    var g1 := if emitDebug then GenLocals(f.locals, |f.locals|, i, g) else g;
    if ins.code.None? then g1
    else
      var g2 := if Noted(ins, emitDebug) then GenLine(ins.line, g1) else g1;
      var g3 := if f.ecmascript && emitDebug then GenColumn(ins.column, g2) else g2;
      g3.(pcInc := g3.pcInc + size)
  }

  function StartGen(f: Function): Gen
    requires f.ins != []
  {
    Gen([], 0, f.ins[0].line, -1)
  }

  /** The state of the compiler after k instructions. */
  function GenAll(f: Function, emitDebug: bool, length: seq<byte> -> nat, code: seq<byte>, k: nat): Gen
    requires f.ins != [] && k <= |f.ins|
  {
    if k == 0 then StartGen(f)
    else
      var p := Walk(length, code, Opcodes(f.ins, k - 1));
      GenIns(f, emitDebug, InsnSize(length, code, p), k - 1, GenAll(f, emitDebug, length, code, k - 1))
  }

  /** The operations for the instructions. */
  function CompileBody(f: Function, emitDebug: bool, length: seq<byte> -> nat, code: seq<byte>): seq<Op> {
    if f.ins == [] then [] else GenAll(f, emitDebug, length, code, |f.ins|).ops
  }

  /** Whether a function needs to name its source file, rather than take that of its record. */
  predicate OwnFile(s: Source) {
    s.file != "" && s.file != s.recordFile
  }

  /** The operations that name it. */
  function Prefix(s: Source): seq<Op> {
    if OwnFile(s) then (if s.text != "" then [SetSourceCode(s.textId)] else []) + [SetFile(s.fileId)] else []
  }

  function Compile(f: Function, emitDebug: bool, length: seq<byte> -> nat, code: seq<byte>): seq<Op> {
    Prefix(f.source) + CompileBody(f, emitDebug, length, code)
  }

  // ---------- what was emitted before does not matter ----------

  function Prepend(p: seq<Op>, g: Gen): Gen {
    g.(ops := p + g.ops)
  }

  lemma {:induction false} AddOpPrepend(p: seq<Op>, g: Gen, op: Op)
    ensures Flush(Prepend(p, g)) == Prepend(p, Flush(g))
    ensures AddOp(Prepend(p, g), op) == Prepend(p, AddOp(g, op))
  {
    assert p + (g.ops + [AdvancePc(g.pcInc)]) == (p + g.ops) + [AdvancePc(g.pcInc)];
    assert p + (g.ops + [op]) == (p + g.ops) + [op];
  }

  lemma {:induction false} LocalsPrepend(p: seq<Op>, locals: seq<Local>, k: nat, i: nat, g: Gen)
    requires k <= |locals|
    ensures GenLocals(locals, k, i, Prepend(p, g)) == Prepend(p, GenLocals(locals, k, i, g))
  {
    hide Flush, AddOp, Prepend, StartOp;
    if k > 0 {
      LocalsPrepend(p, locals, k - 1, i, g);
      var v, g1 := locals[k - 1], GenLocals(locals, k - 1, i, g);
      AddOpPrepend(p, g1, StartOp(v));
      AddOpPrepend(p, Flush(g1), StartOp(v));
      var g2 := GenStart(v, i, g1);
      AddOpPrepend(p, g2, EndLocal(v.reg));
      AddOpPrepend(p, Flush(g2), EndLocal(v.reg));
    }
  }

  lemma {:induction false} NumbersPrepend(p: seq<Op>, line: int, column: int, g: Gen)
    ensures GenLine(line, Prepend(p, g)) == Prepend(p, GenLine(line, g))
    ensures GenColumn(column, Prepend(p, g)) == Prepend(p, GenColumn(column, g))
  {
    hide NumberOps;
    var ops := NumberOps(g.pcInc, line - g.prevLine);
    assert p + (g.ops + ops) == (p + g.ops) + ops;
    AddOpPrepend(p, g, SetColumn(column % 0x1_0000_0000));
    AddOpPrepend(p, Flush(g), SetColumn(column % 0x1_0000_0000));
  }

  lemma {:induction false} InsPrepend(p: seq<Op>, f: Function, emitDebug: bool, size: nat, i: nat, g: Gen)
    requires i < |f.ins|
    ensures GenIns(f, emitDebug, size, i, Prepend(p, g)) == Prepend(p, GenIns(f, emitDebug, size, i, g))
  {
    hide GenLocals, GenLine, GenColumn;
    var ins := f.ins[i];
    LocalsPrepend(p, f.locals, |f.locals|, i, g);
    var g1 := if emitDebug then GenLocals(f.locals, |f.locals|, i, g) else g;
    NumbersPrepend(p, ins.line, ins.column, g1);
    var g2 := if Noted(ins, emitDebug) then GenLine(ins.line, g1) else g1;
    NumbersPrepend(p, ins.line, ins.column, g2);
  }

  // ---------- the compiler ----------

  method TryEmitPc(program: LineNumberProgram, pcInc: nat, ghost g: Gen)
    requires program.Valid() && g.ops == program.ops && g.pcInc == pcInc
    modifies program
    ensures program.Valid() && Flush(g) == g.(ops := program.ops, pcInc := 0)
  {
    hide LineNumberProgram.Valid;
    if pcInc != 0 {
      program.EmitAdvancePc(pcInc);
    }
  }

  method EmitOneLocal(program: LineNumberProgram, v: Local, pcInc: nat, i: nat, ghost g: Gen) returns (pcInc': nat)
    requires program.Valid() && g.ops == program.ops && g.pcInc == pcInc
    modifies program
    ensures program.Valid()
    ensures GenEnd(v, i, GenStart(v, i, g)) == g.(ops := program.ops, pcInc := pcInc')
  {
    hide LineNumberProgram.Valid, Flush;
    pcInc' := pcInc;
    if v.isParameter {
      return;
    }
    if i == v.start {
      TryEmitPc(program, pcInc, g);
      pcInc' := 0;
      match v.sig {
        case None => program.EmitStartLocal(v.reg, v.name, v.typ);
        case Some(s) => program.EmitStartLocalExtended(v.reg, v.name, v.typ, s);
      }
    }
    ghost var g' := GenStart(v, i, g);
    assert g' == g.(ops := program.ops, pcInc := pcInc');
    if i == v.start + v.length {
      TryEmitPc(program, pcInc', g');
      pcInc' := 0;
      program.EmitEndLocal(v.reg);
    }
  }

  method EmitLocalVariable(program: LineNumberProgram, locals: seq<Local>, pcInc: nat, i: nat, ghost g: Gen)
    returns (pcInc': nat)
    requires program.Valid() && g.ops == program.ops && g.pcInc == pcInc
    modifies program
    ensures program.Valid()
    ensures GenLocals(locals, |locals|, i, g) == g.(ops := program.ops, pcInc := pcInc')
  {
    hide LineNumberProgram.Valid, GenStart, GenEnd;
    pcInc' := pcInc;
    for k := 0 to |locals|
      invariant program.Valid()
      invariant GenLocals(locals, k, i, g) == g.(ops := program.ops, pcInc := pcInc')
    {
      pcInc' := EmitOneLocal(program, locals[k], pcInc', i, GenLocals(locals, k, i, g));
    }
  }

  method EmitNumber(program: LineNumberProgram, pcInc: nat, lineInc: int)
    requires program.Valid()
    modifies program
    ensures program.Valid() && program.ops == old(program.ops) + NumberOps(pcInc, lineInc)
  {
    hide LineNumberProgram.Valid, SpecialOpcode;
    SpecialZero(lineInc);
    var done := program.EmitSpecialOpcode(pcInc, lineInc);
    if !done {
      if pcInc != 0 {
        program.EmitAdvancePc(pcInc);
        done := program.EmitSpecialOpcode(0, lineInc);
        if !done {
          program.EmitAdvanceLine(lineInc);
          done := program.EmitSpecialOpcode(0, 0);
        }
      } else {
        program.EmitAdvanceLine(lineInc);
        done := program.EmitSpecialOpcode(0, 0);
      }
    }
  }

  method EmitLineNumber(program: LineNumberProgram, line: int, prevLine: int, pcInc: nat, ghost g: Gen)
    returns (prevLine': int, pcInc': nat)
    requires program.Valid() && g.ops == program.ops && g.pcInc == pcInc && g.prevLine == prevLine
    modifies program
    ensures program.Valid()
    ensures GenLine(line, g) == g.(ops := program.ops, pcInc := pcInc', prevLine := prevLine')
  {
    hide LineNumberProgram.Valid, NumberOps;
    prevLine', pcInc' := prevLine, pcInc;
    var lineInc := line - prevLine;
    if lineInc != 0 {
      prevLine' := line;
      EmitNumber(program, pcInc, lineInc);
      pcInc' := 0;
    }
  }

  method EmitColumnNumber(program: LineNumberProgram, column: int, prevColumn: int, pcInc: nat, ghost g: Gen)
    returns (prevColumn': int, pcInc': nat)
    requires program.Valid() && g.ops == program.ops && g.pcInc == pcInc && g.prevColumn == prevColumn
    modifies program
    ensures program.Valid()
    ensures GenColumn(column, g) == g.(ops := program.ops, pcInc := pcInc', prevColumn := prevColumn')
  {
    hide LineNumberProgram.Valid;
    prevColumn', pcInc' := prevColumn, pcInc;
    if column != prevColumn {
      program.EmitColumn(pcInc, column % 0x1_0000_0000);
      pcInc' := 0;
      prevColumn' := column;
    }
  }

  /** One turn of the loop, up to stepping over the bytes of the instruction. */
  method EmitIns(program: LineNumberProgram, f: Function, emitDebug: bool, i: nat,
                 pcInc: nat, prevLine: int, prevColumn: int)
    returns (pcInc': nat, prevLine': int, prevColumn': int)
    requires program.Valid() && i < |f.ins|
    modifies program
    ensures program.Valid()
    ensures GenIns(f, emitDebug, 0, i, Gen(old(program.ops), pcInc, prevLine, prevColumn))
         == Gen(program.ops, pcInc', prevLine', prevColumn')
  {
    hide LineNumberProgram.Valid, GenLocals, GenLine, GenColumn;
    ghost var g := Gen(program.ops, pcInc, prevLine, prevColumn);
    pcInc', prevLine', prevColumn' := pcInc, prevLine, prevColumn;
    if emitDebug {
      pcInc' := EmitLocalVariable(program, f.locals, pcInc, i, g);
    }
    if f.ins[i].code.None? {
      return;
    }
    g := g.(ops := program.ops, pcInc := pcInc');
    if emitDebug || f.ins[i].canThrow {
      prevLine', pcInc' := EmitLineNumber(program, f.ins[i].line, prevLine, pcInc', g);
    }
    g := g.(ops := program.ops, pcInc := pcInc', prevLine := prevLine');
    if f.ecmascript && emitDebug {
      prevColumn', pcInc' := EmitColumnNumber(program, f.ins[i].column, prevColumn, pcInc', g);
    }
  }

  lemma {:induction false} GenInsSize(f: Function, emitDebug: bool, size: nat, i: nat, g: Gen)
    requires i < |f.ins|
    ensures var g' := GenIns(f, emitDebug, 0, i, g);
            GenIns(f, emitDebug, size, i, g) == if f.ins[i].code.Some? then g'.(pcInc := g'.pcInc + size) else g'
  {
    hide GenLocals, GenLine, GenColumn;
  }

  lemma {:induction false} GenStep(f: Function, emitDebug: bool, length: seq<byte> -> nat, code: seq<byte>, k: nat)
    requires k < |f.ins|
    ensures GenAll(f, emitDebug, length, code, 0) == StartGen(f)
    ensures var p := Walk(length, code, Opcodes(f.ins, k));
            GenAll(f, emitDebug, length, code, k + 1)
            == GenIns(f, emitDebug, InsnSize(length, code, p), k, GenAll(f, emitDebug, length, code, k))
  {
    hide GenIns, Walk, InsnSize, Opcodes;
  }

  /**
    Appends the operations for the instructions to a program and its constant pool, and closes it; the
    first line goes into the debug info itself.
   */
  method BuildLineNumberProgram(
    program: LineNumberProgram, f: Function, length: seq<byte> -> nat, bytecode: seq<byte>, emitDebug: bool)
    returns (firstLine: int)
    requires program.Valid()
    modifies program
    ensures program.ops == old(program.ops) + CompileBody(f, emitDebug, length, bytecode)
    ensures ValidOps(program.ops)
    ensures program.data == DataOf(program.ops) + [0x00] && program.pool == PoolOf(program.ops)
    ensures f.ins != [] ==> firstLine == f.ins[0].line
  {
    hide Walk, InsnSize, GenAll, GenIns, DataOf, PoolOf, ValidOps;
    if f.ins == [] {
      program.EmitEnd();
      return 0;
    }
    ghost var prefix := program.ops;
    WalkSteps(length, bytecode, 0);
    GenStep(f, emitDebug, length, bytecode, 0);
    var pcInc: nat, prevLine: int, prevColumn: int, at: nat := 0, f.ins[0].line, -1, 0;
    firstLine := prevLine;
    for i := 0 to |f.ins|
      invariant program.Valid()
      invariant at == Walk(length, bytecode, Opcodes(f.ins, i))
      invariant Prepend(prefix, GenAll(f, emitDebug, length, bytecode, i))
        == Gen(program.ops, pcInc, prevLine, prevColumn)
    {
      ghost var g := Gen(program.ops, pcInc, prevLine, prevColumn);
      GenStep(f, emitDebug, length, bytecode, i);
      InsPrepend(prefix, f, emitDebug, InsnSize(length, bytecode, at), i, GenAll(f, emitDebug, length, bytecode, i));
      GenInsSize(f, emitDebug, InsnSize(length, bytecode, at), i, g);
      WalkSteps(length, bytecode, Opcodes(f.ins, i));
      pcInc, prevLine, prevColumn := EmitIns(program, f, emitDebug, i, pcInc, prevLine, prevColumn);
      if f.ins[i].code.Some? {
        var size := InsnSize(length, bytecode, at);
        pcInc := pcInc + size;
        at := at + size;
      }
    }
    program.EmitEnd();
  }

  /** The whole program of a function: its source file first, if it has its own. */
  method EmitDebugInfo(
    program: LineNumberProgram, f: Function, length: seq<byte> -> nat, bytecode: seq<byte>, emitDebug: bool)
    returns (firstLine: int)
    requires program.Valid() && program.ops == []
    modifies program
    ensures program.ops == Compile(f, emitDebug, length, bytecode)
    ensures ValidOps(program.ops)
    ensures program.data == DataOf(program.ops) + [0x00] && program.pool == PoolOf(program.ops)
    ensures f.ins != [] ==> firstLine == f.ins[0].line
  {
    hide LineNumberProgram.Valid, CompileBody;
    if f.source.file != "" && f.source.file != f.source.recordFile {
      if f.source.text != "" {
        program.EmitSetSourceCode(f.source.textId);
      }
      program.EmitSetFile(f.source.fileId);
    }
    assert program.ops == Prefix(f.source);
    firstLine := BuildLineNumberProgram(program, f, length, bytecode, emitDebug);
  }
}
