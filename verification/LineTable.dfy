/**
  Line tables end to end. Running the compiled program gives, for every instruction whose line was
  noted, a table whose last row at or before the instruction's offset carries its line, except that
  a program which starts by setting a column stops there. A program that names a source file first
  never does.
 */
module LineTable {
  import opened Bytes
  import opened Isa
  import opened Layout
  import opened Fits
  import opened LabelOffsets
  import opened Assembly
  import opened LineProgram
  import opened LineProcessor
  import opened LineCompiler

  lemma {:induction false} ExecConcat(a: seq<Op>, b: seq<Op>, st: State)
    requires ValidOps(a) && ValidOps(b)
    ensures ValidOps(a + b) && ExecAll(a + b, st) == ExecAll(b, ExecAll(a, st))
  {
    if b == [] {
      assert a + b == a;
    } else {
      var c := b[..|b| - 1];
      ExecConcat(a, c, st);
      assert (a + b)[..|a + b| - 1] == a + c;
    }
  }

  /** The state reached by the operations generated so far. */
  ghost function Reached(g: Gen, start: State): State
    requires ValidOps(g.ops)
  {
    ExecAll(g.ops, start)
  }

  /** Everything the line table depends on is the same, except for bytes moved from pcInc to the address. */
  ghost predicate SameLines(g: Gen, g': Gen, start: State) {
    && ValidOps(g.ops) && ValidOps(g'.ops)
    && g'.prevLine == g.prevLine
    && Reached(g', start).lines == Reached(g, start).lines
    && Reached(g', start).line == Reached(g, start).line
    && Reached(g', start).address + g'.pcInc == Reached(g, start).address + g.pcInc
    && Reached(g', start).address >= Reached(g, start).address
  }

  lemma {:induction false} FlushMeaning(g: Gen, start: State)
    requires ValidOps(g.ops)
    ensures SameLines(g, Flush(g), start) && Flush(g).pcInc == 0
    ensures Reached(Flush(g), start) == Reached(g, start).(address := Reached(g, start).address + g.pcInc)
  {
    if g.pcInc != 0 {
      ExecAppend(g.ops, AdvancePc(g.pcInc), start);
    }
  }

  /** Operations other than address and line steps leave the line table alone. */
  lemma {:induction false} AddOpMeaning(g: Gen, op: Op, start: State)
    requires ValidOps(g.ops) && !op.AdvancePc? && !op.AdvanceLine? && !op.Special?
    ensures SameLines(g, AddOp(g, op), start)
    ensures Reached(AddOp(g, op), start) == Exec(op, Reached(g, start))
  {
    ExecAppend(g.ops, op, start);
  }

  lemma {:induction false} LocalMeaning(v: Local, i: nat, g: Gen, start: State)
    requires ValidOps(g.ops)
    ensures SameLines(g, GenEnd(v, i, GenStart(v, i, g)), start)
  {
    hide ExecAll, Exec;
    FlushMeaning(g, start);
    AddOpMeaning(Flush(g), StartOp(v), start);
    var g1 := GenStart(v, i, g);
    FlushMeaning(g1, start);
    AddOpMeaning(Flush(g1), EndLocal(v.reg), start);
  }

  lemma {:induction false} LocalsMeaning(locals: seq<Local>, k: nat, i: nat, g: Gen, start: State)
    requires k <= |locals| && ValidOps(g.ops)
    ensures SameLines(g, GenLocals(locals, k, i, g), start)
  {
    hide ExecAll, Exec, GenStart, GenEnd;
    if k > 0 {
      LocalsMeaning(locals, k - 1, i, g, start);
      LocalMeaning(locals[k - 1], i, GenLocals(locals, k - 1, i, g), start);
    }
  }

  lemma {:induction false} ColumnMeaning(column: int, g: Gen, start: State)
    requires ValidOps(g.ops)
    ensures SameLines(g, GenColumn(column, g), start)
  {
    hide ExecAll, Exec;
    FlushMeaning(g, start);
    AddOpMeaning(Flush(g), SetColumn(column % 0x1_0000_0000), start);
  }

  lemma {:induction false} OneOp(op: Op, st: State)
    requires ValidOp(op)
    ensures ValidOps([op]) && ExecAll([op], st) == Exec(op, st)
  {
    hide Exec;
    ExecAppend([], op, st);
    assert [] + [op] == [op];
  }

  lemma {:induction false} TwoOps(a: Op, b: Op, st: State)
    requires ValidOp(a) && ValidOp(b)
    ensures ValidOps([a, b]) && ExecAll([a, b], st) == Exec(b, Exec(a, st))
  {
    OneOp(a, st);
    ExecAppend([a], b, st);
    assert [a] + [b] == [a, b];
  }

  function Stepped(st: State, pcInc: nat, lineInc: int): State {
    var a, l := st.address + pcInc, st.line + lineInc;
    st.(address := a, line := l, lines := st.lines + [Row(a, l)])
  }

  lemma {:induction false} SpecialMeaning(pcInc: nat, lineInc: int, st: State)
    requires pcInc * LINE_RANGE < 0x1_0000_0000 && SpecialOpcode(pcInc, lineInc) != -1
    ensures ValidOp(Special(SpecialOpcode(pcInc, lineInc)))
    ensures Exec(Special(SpecialOpcode(pcInc, lineInc)), st) == Stepped(st, pcInc, lineInc)
  {
    hide SpecialOpcode, SpecialPc, SpecialLine;
    SpecialRoundTrip(pcInc, lineInc);
  }

  /** However the steps are encoded, they move address and line and add one row. */
  lemma {:induction false} NumberMeaning(pcInc: nat, lineInc: int, st: State)
    requires pcInc * LINE_RANGE < 0x1_0000_0000
    ensures ValidOps(NumberOps(pcInc, lineInc))
    ensures ExecAll(NumberOps(pcInc, lineInc), st) == Stepped(st, pcInc, lineInc)
  {
    SpecialZero(lineInc);
    hide SpecialOpcode, ExecAll;
    if SpecialOpcode(pcInc, lineInc) != -1 {
      SpecialMeaning(pcInc, lineInc, st);
      OneOp(Special(SpecialOpcode(pcInc, lineInc)), st);
    } else {
      var st1 := if pcInc != 0 then Exec(AdvancePc(pcInc), st) else st;
      if pcInc != 0 && SpecialOpcode(0, lineInc) != -1 {
        SpecialMeaning(0, lineInc, st1);
        TwoOps(AdvancePc(pcInc), Special(SpecialOpcode(0, lineInc)), st);
        assert NumberOps(pcInc, lineInc) == [AdvancePc(pcInc), Special(SpecialOpcode(0, lineInc))];
      } else {
        var tail := [AdvanceLine(lineInc), Special(SpecialOpcode(0, 0))];
        SpecialMeaning(0, 0, Exec(AdvanceLine(lineInc), st1));
        TwoOps(AdvanceLine(lineInc), Special(SpecialOpcode(0, 0)), st1);
        if pcInc != 0 {
          OneOp(AdvancePc(pcInc), st);
          ExecConcat([AdvancePc(pcInc)], tail, st);
        } else {
          assert NumberOps(pcInc, lineInc) == tail;
        }
      }
    }
  }

  lemma {:induction false} LineMeaning(line: int, g: Gen, start: State)
    requires ValidOps(g.ops) && g.pcInc * LINE_RANGE < 0x1_0000_0000 && line != g.prevLine
    ensures var g' := GenLine(line, g);
      && ValidOps(g'.ops) && g'.pcInc == 0 && g'.prevLine == line && g'.prevColumn == g.prevColumn
      && Reached(g', start) == Stepped(Reached(g, start), g.pcInc, line - g.prevLine)
  {
    hide NumberOps, ExecAll;
    NumberMeaning(g.pcInc, line - g.prevLine, Reached(g, start));
    ExecConcat(g.ops, NumberOps(g.pcInc, line - g.prevLine), start);
  }

  // ---------- the invariant of the compiler ----------

  /** Generated operations bring the address up to `off`, and the last row has the last line noted. */
  ghost predicate InStep(g: Gen, start: State, off: nat) {
    && ValidOps(g.ops)
    && var st := Reached(g, start);
    && st.address + g.pcInc == off
    && st.line == g.prevLine
    && |st.lines| > 0
    && st.lines[|st.lines| - 1].line == g.prevLine
    && st.lines[|st.lines| - 1].address <= st.address
  }

  /** One turn of the loop at offset `off`: at most one row is added, at that offset and with the noted line. */
  lemma {:induction false} TurnMeaning(f: Function, emitDebug: bool, size: nat, i: nat, g: Gen, start: State, off: nat)
    requires i < |f.ins| && InStep(g, start, off) && off * LINE_RANGE < 0x1_0000_0000
    ensures
      var g', ins := GenIns(f, emitDebug, size, i, g), f.ins[i];
      && InStep(g', start, off + if ins.code.Some? then size else 0)
      && var before, after := Reached(g, start).lines, Reached(g', start).lines;
      && (after == before || after == before + [Row(off, ins.line)])
      && (after != before ==> ins.code.Some?)
      && (Noted(ins, emitDebug) ==> after[|after| - 1].line == ins.line)
      && after[|after| - 1].address <= off
  {
    hide ExecAll, GenLocals, GenLine, GenColumn, ValidOps;
    var ins := f.ins[i];
    LocalsMeaning(f.locals, |f.locals|, i, g, start);
    var g1 := if emitDebug then GenLocals(f.locals, |f.locals|, i, g) else g;
    assert InStep(g1, start, off);
    if ins.code.Some? {
      var g2 := if Noted(ins, emitDebug) then GenLine(ins.line, g1) else g1;
      if Noted(ins, emitDebug) && ins.line != g1.prevLine {
        LineMeaning(ins.line, g1, start);
      } else {
        SameLine(ins.line, g1);
      }
      assert InStep(g2, start, off);
      ColumnMeaning(ins.column, g2, start);
      var g3 := if f.ecmascript && emitDebug then GenColumn(ins.column, g2) else g2;
      assert InStep(g3, start, off);
    }
  }

  lemma {:induction false} SameLine(line: int, g: Gen)
    ensures line == g.prevLine ==> GenLine(line, g) == g
  {
  }

  // ---------- whole functions ----------

  /** The line of the last row at or before an offset. */
  function LineAt(lines: seq<Row>, off: nat): int {
    if lines == [] then -1
    else if lines[|lines| - 1].address <= off then lines[|lines| - 1].line
    else LineAt(lines[..|lines| - 1], off)
  }

  /** The offset of instruction k, as the walk over the bytes finds it. */
  function Off(f: Function, length: seq<byte> -> nat, code: seq<byte>, k: nat): nat
    requires k <= |f.ins|
  {
    Walk(length, code, Opcodes(f.ins, k))
  }

  /** Every instruction the walk passes has a size, and the product in the special opcodes cannot wrap. */
  ghost predicate Walkable(f: Function, length: seq<byte> -> nat, code: seq<byte>) {
    && (forall j :: 0 <= j < Opcodes(f.ins, |f.ins|) ==> InsnSize(length, code, Walk(length, code, j)) > 0)
    && (forall k :: 0 <= k <= |f.ins| ==> Off(f, length, code, k) * LINE_RANGE < 0x1_0000_0000)
  }

  lemma {:induction false} OpcodesMonotone(ins: seq<Ins>, j: nat, k: nat)
    requires j <= k <= |ins|
    ensures Opcodes(ins, j) <= Opcodes(ins, k)
    decreases k
  {
    if j < k {
      OpcodesMonotone(ins, j, k - 1);
    }
  }

  /** Offsets grow by the size of each instruction with an opcode. */
  lemma {:induction false} OffStep(f: Function, length: seq<byte> -> nat, code: seq<byte>, k: nat)
    requires k < |f.ins| && Walkable(f, length, code)
    ensures
      var off := Off(f, length, code, k);
      Off(f, length, code, k + 1)
      == off + (if f.ins[k].code.Some? then InsnSize(length, code, off) else 0)
    ensures f.ins[k].code.Some? ==> Off(f, length, code, k) < Off(f, length, code, k + 1)
  {
    hide InsnSize, Walk;
    WalkSteps(length, code, Opcodes(f.ins, k));
    OpcodesMonotone(f.ins, k + 1, |f.ins|);
  }

  lemma {:induction false} OffMonotone(f: Function, length: seq<byte> -> nat, code: seq<byte>, j: nat, k: nat)
    requires j <= k <= |f.ins| && Walkable(f, length, code)
    ensures Off(f, length, code, j) <= Off(f, length, code, k)
    decreases k
  {
    hide InsnSize, Walk, Opcodes, Walkable, Off;
    if j < k {
      OffMonotone(f, length, code, j, k - 1);
      OffStep(f, length, code, k - 1);
    }
  }

  ghost predicate RowsFor(
    f: Function, emitDebug: bool, length: seq<byte> -> nat, code: seq<byte>, k: nat, lines: seq<Row>)
    requires k <= |f.ins|
  {
    forall j :: 0 <= j < k && Noted(f.ins[j], emitDebug) ==> LineAt(lines, Off(f, length, code, j)) == f.ins[j].line
  }

  /** The state after the source file has been named. */
  ghost function Start(f: Function, file: nat): State
    requires f.ins != []
  {
    var st := Begin(Initial(file, f.ins[0].line));
    if !OwnFile(f.source) then st
    else st.(file := f.source.fileId, source := if f.source.text != "" then f.source.textId else st.source)
  }

  lemma {:induction false} PrefixMeaning(f: Function, file: nat)
    requires f.ins != []
    ensures ValidOps(Prefix(f.source))
    ensures ExecAll(Prefix(f.source), Begin(Initial(file, f.ins[0].line))) == Start(f, file)
  {
    var st := Begin(Initial(file, f.ins[0].line));
    hide ExecAll;
    NoOps(st);
    OneOp(SetFile(f.source.fileId), st);
    TwoOps(SetSourceCode(f.source.textId), SetFile(f.source.fileId), st);
    if OwnFile(f.source) {
      assert Prefix(f.source) == if f.source.text != "" then [SetSourceCode(f.source.textId), SetFile(f.source.fileId)]
                                 else [SetFile(f.source.fileId)];
    }
  }

  /** Running the whole program is running the operations for the instructions from there. */
  lemma {:induction false} WholeProgram(
    f: Function, file: nat, emitDebug: bool, length: seq<byte> -> nat, code: seq<byte>)
    requires f.ins != [] && ValidOps(CompileBody(f, emitDebug, length, code))
    ensures var ops := Compile(f, emitDebug, length, code);
      && ValidOps(ops)
      && ExecAll(ops, Begin(Initial(file, f.ins[0].line)))
         == ExecAll(CompileBody(f, emitDebug, length, code), Start(f, file))
  {
    hide CompileBody, Prefix, ExecAll, ValidOps;
    PrefixMeaning(f, file);
    ExecConcat(Prefix(f.source), CompileBody(f, emitDebug, length, code), Begin(Initial(file, f.ins[0].line)));
  }

  /** The invariant of the compiler over the whole function. */
  lemma {:induction false} RowsAfter(
    f: Function, file: nat, emitDebug: bool, length: seq<byte> -> nat, code: seq<byte>, k: nat)
    requires f.ins != [] && k <= |f.ins| && Walkable(f, length, code)
    ensures
      var g := GenAll(f, emitDebug, length, code, k);
      && InStep(g, Start(f, file), Off(f, length, code, k))
      && RowsFor(f, emitDebug, length, code, k, Reached(g, Start(f, file)).lines)
  {
    hide InsnSize, Walk, Opcodes, GenIns, GenAll, ExecAll, ValidOps, LineAt, Walkable;
    if k == 0 {
      RowsAtStart(f, file, emitDebug, length, code);
    } else {
      var off, start := Off(f, length, code, k - 1), Start(f, file);
      var g := GenAll(f, emitDebug, length, code, k - 1);
      RowsAfter(f, file, emitDebug, length, code, k - 1);
      GenStep(f, emitDebug, length, code, k - 1);
      NoWrap(f, length, code, k - 1);
      TurnMeaning(f, emitDebug, InsnSize(length, code, off), k - 1, g, start, off);
      OffStep(f, length, code, k - 1);
      var g' := GenAll(f, emitDebug, length, code, k);
      RowsExtended(f, emitDebug, length, code, k - 1, Reached(g, start).lines, Reached(g', start).lines);
    }
  }

  lemma {:induction false} NoWrap(f: Function, length: seq<byte> -> nat, code: seq<byte>, k: nat)
    requires k <= |f.ins| && Walkable(f, length, code)
    ensures Off(f, length, code, k) * LINE_RANGE < 0x1_0000_0000
  {
  }

  lemma {:induction false} RowsAtStart(
    f: Function, file: nat, emitDebug: bool, length: seq<byte> -> nat, code: seq<byte>)
    requires f.ins != []
    ensures InStep(GenAll(f, emitDebug, length, code, 0), Start(f, file), Off(f, length, code, 0))
  {
    hide InsnSize, Walk, GenIns, GenAll, ExecAll, ValidOps;
    WalkSteps(length, code, 0);
    GenStep(f, emitDebug, length, code, 0);
    NoOps(Start(f, file));
  }

  lemma {:induction false} NoOps(st: State)
    ensures ValidOps([]) && ExecAll([], st) == st
  {
  }

  lemma {:induction false} RowsExtended(
    f: Function, emitDebug: bool, length: seq<byte> -> nat, code: seq<byte>, k: nat, before: seq<Row>, after: seq<Row>)
    requires k < |f.ins| && Walkable(f, length, code) && RowsFor(f, emitDebug, length, code, k, before)
    requires after == before || after == before + [Row(Off(f, length, code, k), f.ins[k].line)]
    requires |after| > 0 && after[|after| - 1].address <= Off(f, length, code, k)
    requires Noted(f.ins[k], emitDebug) ==> after[|after| - 1].line == f.ins[k].line
    ensures RowsFor(f, emitDebug, length, code, k + 1, after)
  {
    hide InsnSize, Walk;
    forall j | 0 <= j < k + 1 && Noted(f.ins[j], emitDebug)
      ensures LineAt(after, Off(f, length, code, j)) == f.ins[j].line
    {
      if j < k {
        OffStep(f, length, code, j);
        OffMonotone(f, length, code, j + 1, k);
        if after != before {
          assert after[..|after| - 1] == before;
        }
      }
    }
  }

  // ---------- the first operation ----------

  /** Index of the first instruction with an opcode, or the end. */
  function FirstCode(ins: seq<Ins>, k: nat): (v: nat)
    requires k <= |ins|
    ensures k <= v <= |ins| && (v < |ins| ==> ins[v].code.Some?)
    ensures forall j :: k <= j < v ==> ins[j].code.None?
    decreases |ins| - k
  {
    if k == |ins| || ins[k].code.Some? then k else FirstCode(ins, k + 1)
  }

  /**
    The operations for the instructions start by setting a column: columns are recorded, the first instruction with
    an opcode has the line of the very first instruction and a column other than -1, and no variable
    has started by then.
   */
  ghost predicate ColumnLeads(f: Function, emitDebug: bool) {
    && emitDebug && f.ecmascript
    && var v := FirstCode(f.ins, 0);
    && v < |f.ins|
    && f.ins[v].line == f.ins[0].line
    && f.ins[v].column != -1
    && forall k :: 0 <= k < |f.locals| && !f.locals[k].isParameter ==> f.locals[k].start > v
  }

  ghost predicate LoudHead(g: Gen) {
    g.ops != [] ==> !Quiet(g.ops[0])
  }

  lemma {:induction false} LocalsEmpty(locals: seq<Local>, k: nat, i: nat, g: Gen)
    requires k <= |locals| && forall j :: 0 <= j < |locals| && !locals[j].isParameter ==> locals[j].start > i
    ensures GenLocals(locals, k, i, g) == g
  {
    if k > 0 {
      LocalsEmpty(locals, k - 1, i, g);
    }
  }

  /** Local variable operations start loud, and leave a started program or a clean slate. */
  lemma {:induction false} LocalsLoud(locals: seq<Local>, k: nat, i: nat, g: Gen)
    requires k <= |locals| && LoudHead(g)
    ensures var g' := GenLocals(locals, k, i, g);
      && LoudHead(g') && g'.prevLine == g.prevLine && g'.prevColumn == g.prevColumn
      && (g'.ops == [] ==> g' == g && forall j :: 0 <= j < k && !locals[j].isParameter ==> locals[j].start != i)
      && (g.ops != [] ==> g'.ops != [])
  {
    if k > 0 {
      LocalsLoud(locals, k - 1, i, g);
    }
  }

  lemma {:induction false} LineLoud(line: int, g: Gen)
    requires LoudHead(g)
    ensures var g' := GenLine(line, g);
      && LoudHead(g') && g'.prevColumn == g.prevColumn
      && (g'.ops == [] ==> g' == g && line == g.prevLine)
      && (g.ops != [] ==> g'.ops != [])
  {
    if line != g.prevLine {
      var ops := NumberOps(g.pcInc, line - g.prevLine);
      assert |ops| > 0 && !Quiet(ops[0]);
      assert g.ops == [] ==> g.ops + ops == ops;
    }
  }

  lemma {:induction false} ColumnLoud(column: int, g: Gen)
    requires LoudHead(g) && (g.ops == [] ==> g.pcInc > 0 || column == g.prevColumn)
    ensures var g' := GenColumn(column, g);
      && LoudHead(g')
      && (g'.ops == [] ==> g' == g)
      && (g.ops != [] ==> g'.ops != [])
  {
  }

  /** While nothing has been emitted, everything is as at the start, apart from bytes walked over. */
  ghost predicate Fresh(f: Function, emitDebug: bool, k: nat, g: Gen)
    requires f.ins != [] && k <= |f.ins|
  {
    && LoudHead(g)
    && (g.ops == [] ==>
          && g.prevLine == f.ins[0].line && g.prevColumn == -1
          && (g.pcInc > 0 <==> FirstCode(f.ins, 0) < k)
          && (emitDebug ==> forall j :: 0 <= j < |f.locals| && !f.locals[j].isParameter ==> f.locals[j].start >= k))
  }

  lemma {:induction false} TurnLoud(f: Function, emitDebug: bool, size: nat, i: nat, g: Gen)
    requires i < |f.ins| && Fresh(f, emitDebug, i, g) && !ColumnLeads(f, emitDebug)
    requires f.ins[i].code.Some? ==> size > 0
    ensures Fresh(f, emitDebug, i + 1, GenIns(f, emitDebug, size, i, g))
  {
    hide GenLocals, GenLine, GenColumn;
    var ins, v := f.ins[i], FirstCode(f.ins, 0);
    LocalsLoud(f.locals, |f.locals|, i, g);
    var g1 := if emitDebug then GenLocals(f.locals, |f.locals|, i, g) else g;
    if ins.code.Some? {
      LineLoud(ins.line, g1);
      var g2 := if Noted(ins, emitDebug) then GenLine(ins.line, g1) else g1;
      if f.ecmascript && emitDebug {
        if g2.ops == [] && g2.pcInc == 0 {
          assert v == i;
        }
        ColumnLoud(ins.column, g2);
      }
    }
  }

  lemma {:induction false} FreshAfter(f: Function, emitDebug: bool, length: seq<byte> -> nat, code: seq<byte>, k: nat)
    requires f.ins != [] && k <= |f.ins| && Walkable(f, length, code) && !ColumnLeads(f, emitDebug)
    ensures Fresh(f, emitDebug, k, GenAll(f, emitDebug, length, code, k))
  {
    hide InsnSize, Walk, GenIns, GenAll, ColumnLeads;
    if k == 0 {
      GenStep(f, emitDebug, length, code, 0);
    } else {
      FreshAfter(f, emitDebug, length, code, k - 1);
      GenStep(f, emitDebug, length, code, k - 1);
      OpcodesMonotone(f.ins, k, |f.ins|);
      TurnLoud(f, emitDebug, InsnSize(length, code, Off(f, length, code, k - 1)), k - 1,
               GenAll(f, emitDebug, length, code, k - 1));
    }
  }

  /** Operations are only ever appended. */
  lemma {:induction false} LocalsGrow(locals: seq<Local>, k: nat, i: nat, g: Gen)
    requires k <= |locals|
    ensures g.ops <= GenLocals(locals, k, i, g).ops
  {
    if k > 0 {
      LocalsGrow(locals, k - 1, i, g);
    }
  }

  lemma {:induction false} OpsGrow(
    f: Function, emitDebug: bool, length: seq<byte> -> nat, code: seq<byte>, j: nat, k: nat)
    requires f.ins != [] && j <= k <= |f.ins|
    ensures GenAll(f, emitDebug, length, code, j).ops <= GenAll(f, emitDebug, length, code, k).ops
    decreases k
  {
    hide InsnSize, Walk, GenAll, GenLocals, NumberOps;
    if j < k {
      OpsGrow(f, emitDebug, length, code, j, k - 1);
      GenStep(f, emitDebug, length, code, k - 1);
      LocalsGrow(f.locals, |f.locals|, k - 1, GenAll(f, emitDebug, length, code, k - 1));
    }
  }

  lemma {:induction false} CleanUntil(f: Function, emitDebug: bool, length: seq<byte> -> nat, code: seq<byte>, k: nat)
    requires f.ins != [] && k <= FirstCode(f.ins, 0)
    requires forall j :: 0 <= j < |f.locals| && !f.locals[j].isParameter ==> f.locals[j].start >= k
    ensures GenAll(f, emitDebug, length, code, k) == StartGen(f)
  {
    hide InsnSize, Walk, GenAll, GenLocals;
    GenStep(f, emitDebug, length, code, 0);
    if k > 0 {
      CleanUntil(f, emitDebug, length, code, k - 1);
      GenStep(f, emitDebug, length, code, k - 1);
      LocalsEmpty(f.locals, |f.locals|, k - 1, StartGen(f));
    }
  }

  lemma {:induction false} ColumnEmittedFirst(f: Function, emitDebug: bool, length: seq<byte> -> nat, code: seq<byte>)
    requires f.ins != [] && ColumnLeads(f, emitDebug)
    ensures var ops := CompileBody(f, emitDebug, length, code);
            ops != [] && ops[0].SetColumn?
  {
    hide InsnSize, Walk, GenAll, GenLocals;
    var v := FirstCode(f.ins, 0);
    CleanUntil(f, emitDebug, length, code, v);
    GenStep(f, emitDebug, length, code, v);
    LocalsEmpty(f.locals, |f.locals|, v, StartGen(f));
    OpsGrow(f, emitDebug, length, code, v + 1, |f.ins|);
    var ops := GenAll(f, emitDebug, length, code, v + 1).ops;
    assert ops == [SetColumn(f.ins[v].column % 0x1_0000_0000)];
  }

  /** So does the whole program, since no source file is named before. */
  ghost predicate ColumnFirst(f: Function, emitDebug: bool) {
    !OwnFile(f.source) && ColumnLeads(f, emitDebug)
  }

  /** Processing stops after the first operation exactly for the functions whose program starts with a column. */
  lemma {:induction false} StopsEarlyExactly(f: Function, emitDebug: bool, length: seq<byte> -> nat, code: seq<byte>)
    requires f.ins != [] && Walkable(f, length, code)
    ensures var ops := Compile(f, emitDebug, length, code);
            (ops != [] && Quiet(ops[0])) <==> ColumnFirst(f, emitDebug)
  {
    hide InsnSize, Walk, GenAll, ColumnLeads, Walkable;
    var body := CompileBody(f, emitDebug, length, code);
    if ColumnLeads(f, emitDebug) {
      ColumnEmittedFirst(f, emitDebug, length, code);
    } else {
      FreshAfter(f, emitDebug, length, code, |f.ins|);
    }
    if !OwnFile(f.source) {
      assert Prefix(f.source) + body == body;
    }
  }

  /** What is executed: the whole program, or the one column. */
  lemma {:induction false} ExecutedExactly(
    f: Function, file: nat, emitDebug: bool, length: seq<byte> -> nat, code: seq<byte>)
    requires f.ins != [] && Walkable(f, length, code)
    ensures ValidOps(Compile(f, emitDebug, length, code)) && ValidOps(CompileBody(f, emitDebug, length, code))
    ensures
      var ops, start := Compile(f, emitDebug, length, code), Start(f, file);
      && (ColumnFirst(f, emitDebug) ==> ops != [] && ops[0].SetColumn?)
      && Tables(ops, file, f.ins[0].line)
         == Finish(if ColumnFirst(f, emitDebug) then Exec(ops[0], start)
                   else ExecAll(CompileBody(f, emitDebug, length, code), start))
  {
    hide InsnSize, Walk, GenAll, ColumnLeads, Walkable, Exec, ExecAll, CloseAll, Finish;
    var ops, start := Compile(f, emitDebug, length, code), Start(f, file);
    RowsAfter(f, file, emitDebug, length, code, |f.ins|);
    WholeProgram(f, file, emitDebug, length, code);
    StopsEarlyExactly(f, emitDebug, length, code);
    if ColumnFirst(f, emitDebug) {
      ColumnEmittedFirst(f, emitDebug, length, code);
      OneOp(ops[0], start);
      assert ops[..1] == [ops[0]];
    } else {
      assert ops[..|ops|] == ops;
    }
  }

  /**
    The line table is right for every noted instruction, except that when the program starts with a
    column only the first line is recorded; then it is right exactly if all noted lines are that line.
   */
  lemma {:induction false} LineTableExactly(
    f: Function, file: nat, emitDebug: bool, length: seq<byte> -> nat, code: seq<byte>)
    requires f.ins != [] && Walkable(f, length, code)
    ensures ValidOps(Compile(f, emitDebug, length, code))
    ensures
      var lines := Tables(Compile(f, emitDebug, length, code), file, f.ins[0].line).lines;
      RowsFor(f, emitDebug, length, code, |f.ins|, lines) <==>
        || !ColumnFirst(f, emitDebug)
        || forall k :: 0 <= k < |f.ins| && Noted(f.ins[k], emitDebug) ==> f.ins[k].line == f.ins[0].line
  {
    hide InsnSize, Walk, GenAll, ColumnFirst, Walkable, Compile, Tables, ExecAll;
    RowsAfter(f, file, emitDebug, length, code, |f.ins|);
    ExecutedExactly(f, file, emitDebug, length, code);
    SingleRow(f, file, emitDebug, length, code);
  }

  lemma {:induction false} SingleRow(f: Function, file: nat, emitDebug: bool, length: seq<byte> -> nat, code: seq<byte>)
    requires f.ins != []
    ensures RowsFor(f, emitDebug, length, code, |f.ins|, Start(f, file).lines) <==>
      forall k :: 0 <= k < |f.ins| && Noted(f.ins[k], emitDebug) ==> f.ins[k].line == f.ins[0].line
  {
    hide Walk;
    var lines := Start(f, file).lines;
    forall off: nat ensures LineAt(lines, off) == f.ins[0].line {
    }
    if RowsFor(f, emitDebug, length, code, |f.ins|, lines) {
      forall k | 0 <= k < |f.ins| && Noted(f.ins[k], emitDebug) ensures f.ins[k].line == f.ins[0].line {
        assert LineAt(lines, Off(f, length, code, k)) == f.ins[k].line;
      }
    }
  }

  /** Two one-byte instructions of an ECMAScript function, on two lines. */
  function TwoLines(source: Source): Function {
    var code := Some(Plain([0x00]));
    Function([Ins(None, code, 1, 0, false), Ins(None, code, 2, 0, false)], [], true, source)
  }

  lemma {:induction false} TwoLinesWalkable(source: Source)
    ensures Walkable(TwoLines(source), OneByte, [0x00, 0x00])
  {
    var f, code: seq<byte> := TwoLines(source), [0x00, 0x00];
    assert Opcodes(f.ins, 0) == 0 && Opcodes(f.ins, 1) == 1 && Opcodes(f.ins, 2) == 2;
    hide Opcodes, Walk;
    WalkSteps(OneByte, code, 0);
    WalkSteps(OneByte, code, 1);
    assert Walk(OneByte, code, 1) == 1 && Walk(OneByte, code, 2) == 2;
  }

  /** Its second line is lost, unless it has a source file of its own. */
  lemma {:induction false} SecondLineLost(source: Source, file: nat)
    ensures Walkable(TwoLines(source), OneByte, [0x00, 0x00])
    ensures ValidOps(Compile(TwoLines(source), true, OneByte, [0x00, 0x00]))
    ensures
      var lines := Tables(Compile(TwoLines(source), true, OneByte, [0x00, 0x00]), file, 1).lines;
      RowsFor(TwoLines(source), true, OneByte, [0x00, 0x00], 2, lines) <==> OwnFile(source)
  {
    hide Walkable, Compile, Tables, RowsFor;
    TwoLinesWalkable(source);
    LineTableExactly(TwoLines(source), file, true, OneByte, [0x00, 0x00]);
    assert FirstCode(TwoLines(source).ins, 0) == 0;
    assert Noted(TwoLines(source).ins[1], true);
  }

  // ---------- the source file ----------

  /** No operation names a source file. */
  ghost predicate NoFiles(ops: seq<Op>) {
    forall k :: 0 <= k < |ops| ==> !ops[k].SetFile? && !ops[k].SetSourceCode?
  }

  lemma {:induction false} NoFilesMeaning(ops: seq<Op>, st: State)
    requires ValidOps(ops) && NoFiles(ops)
    ensures ExecAll(ops, st).file == st.file && ExecAll(ops, st).source == st.source
  {
    if ops != [] {
      NoFilesMeaning(ops[..|ops| - 1], st);
    }
  }

  lemma {:induction false} LocalsNoFiles(locals: seq<Local>, k: nat, i: nat, g: Gen)
    requires k <= |locals| && NoFiles(g.ops)
    ensures NoFiles(GenLocals(locals, k, i, g).ops)
  {
    if k > 0 {
      LocalsNoFiles(locals, k - 1, i, g);
    }
  }

  lemma {:induction false} InsNoFiles(f: Function, emitDebug: bool, size: nat, i: nat, g: Gen)
    requires i < |f.ins| && NoFiles(g.ops)
    ensures NoFiles(GenIns(f, emitDebug, size, i, g).ops)
  {
    hide GenLocals, GenLine, GenColumn, NoFiles;
    var ins := f.ins[i];
    LocalsNoFiles(f.locals, |f.locals|, i, g);
    var g1 := if emitDebug then GenLocals(f.locals, |f.locals|, i, g) else g;
    NumbersNoFiles(ins.line, ins.column, g1);
    var g2 := if Noted(ins, emitDebug) then GenLine(ins.line, g1) else g1;
    NumbersNoFiles(ins.line, ins.column, g2);
  }

  lemma {:induction false} NumbersNoFiles(line: int, column: int, g: Gen)
    requires NoFiles(g.ops)
    ensures NoFiles(GenLine(line, g).ops) && NoFiles(GenColumn(column, g).ops)
  {
    var ops := NumberOps(g.pcInc, line - g.prevLine);
    assert NoFiles(ops);
  }

  lemma {:induction false} BodyNoFiles(f: Function, emitDebug: bool, length: seq<byte> -> nat, code: seq<byte>, k: nat)
    requires f.ins != [] && k <= |f.ins|
    ensures NoFiles(GenAll(f, emitDebug, length, code, k).ops)
  {
    hide InsnSize, Walk, GenAll, GenIns;
    GenStep(f, emitDebug, length, code, 0);
    if k > 0 {
      BodyNoFiles(f, emitDebug, length, code, k - 1);
      GenStep(f, emitDebug, length, code, k - 1);
      InsNoFiles(f, emitDebug, InsnSize(length, code, Walk(length, code, Opcodes(f.ins, k - 1))), k - 1,
                 GenAll(f, emitDebug, length, code, k - 1));
    }
  }

  /**
    Every function is attributed to its own source file if it has one, and otherwise to that of its
    record, however early processing stops.
   */
  lemma {:induction false} SourceExactly(
    f: Function, file: nat, emitDebug: bool, length: seq<byte> -> nat, code: seq<byte>)
    requires f.ins != [] && Walkable(f, length, code)
    ensures ValidOps(Compile(f, emitDebug, length, code))
    ensures
      var st := Tables(Compile(f, emitDebug, length, code), file, f.ins[0].line);
      && st.file == (if OwnFile(f.source) then f.source.fileId else file)
      && st.source == (if OwnFile(f.source) && f.source.text != "" then f.source.textId else 0)
  {
    hide InsnSize, Walk, GenAll, ColumnFirst, Walkable, Compile, Tables, ExecAll;
    ExecutedExactly(f, file, emitDebug, length, code);
    BodyNoFiles(f, emitDebug, length, code, |f.ins|);
    NoFilesMeaning(CompileBody(f, emitDebug, length, code), Start(f, file));
  }

  // ---------- real bytes ----------

  /** Compiling and then processing real bytes: the tables are those of the compiled operations. */
  method CompileAndProcess(f: Function, file: nat, length: seq<byte> -> nat, bytecode: seq<byte>, emitDebug: bool)
    returns (st: State)
    requires f.ins != [] && Walkable(f, length, bytecode)
    ensures ValidOps(Compile(f, emitDebug, length, bytecode))
    ensures st == Tables(Compile(f, emitDebug, length, bytecode), file, f.ins[0].line)
    ensures st.file == if OwnFile(f.source) then f.source.fileId else file
    ensures !ColumnFirst(f, emitDebug) ==> RowsFor(f, emitDebug, length, bytecode, |f.ins|, st.lines)
  {
    hide InsnSize, Walk, Compile, ColumnFirst, Walkable, DataOf, PoolOf, ExecAll, RowsFor;
    var program := new LineNumberProgram();
    var line := EmitDebugInfo(program, f, length, bytecode, emitDebug);
    ghost var ops := program.ops;
    assert program.data == DataOf(ops) + ([0x00] + []) && program.pool == PoolOf(ops) + [];
    var p := new Processor(program.data, program.pool, Initial(file, line));
    p.Process(ops, [], []);
    LineTableExactly(f, file, emitDebug, length, bytecode);
    SourceExactly(f, file, emitDebug, length, bytecode);
    return p.st;
  }

  /** A built function can be walked; its offsets are the real ones where no far branch comes before. */
  lemma {:induction false} BuiltIsWalkable(f: Function, length: seq<byte> -> nat)
    requires f.ins != [] && (forall j :: 0 <= j < |f.ins| ==> ValidIns(f.ins[j]))
    requires LengthsKnown(length, ToItems(f.ins, |f.ins|))
    requires |Linked(ToItems(f.ins, |f.ins|))| * LINE_RANGE < 0x1_0000_0000
    ensures Walkable(f, length, Linked(ToItems(f.ins, |f.ins|)))
    ensures
      var items := ToItems(f.ins, |f.ins|);
      forall k :: 0 <= k <= |f.ins| ==>
        && |ToItems(f.ins, k)| <= |items|
        && (Off(f, length, Linked(items), k) == Offset(items, FinalForms(items), |ToItems(f.ins, k)|)
            <==> !FarBetween(items, FinalForms(items), 0, |ToItems(f.ins, k)|))
  {
    hide Walk, InsnSize, Opcodes, Linked, LengthsKnown, Plan, Offset, ToItems;
    var items := ToItems(f.ins, |f.ins|);
    forall k | 0 <= k <= |f.ins|
      ensures Off(f, length, Linked(items), k) * LINE_RANGE < 0x1_0000_0000
      ensures |ToItems(f.ins, k)| <= |items|
      ensures Off(f, length, Linked(items), k) == Offset(items, FinalForms(items), |ToItems(f.ins, k)|)
              <==> !FarBetween(items, FinalForms(items), 0, |ToItems(f.ins, k)|)
    {
      InsOffsetsExactly(length, f.ins, k);
    }
    InsOffsetsExactly(length, f.ins, 0);
  }
}
