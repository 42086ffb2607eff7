/**
  Running a line number program. The processor reads opcodes from one stream and operands from the
  other; its handler builds the line, column and local variable tables.
 */
module LineProcessor {
  import opened Bytes
  import opened Leb128
  import opened LineProgram

  datatype Row = Row(address: nat, line: int)
  datatype ColumnRow = ColumnRow(address: nat, column: nat)
  datatype Variable = Variable(name: nat, typ: nat, sig: nat, reg: int, start: nat, end: nat)

  datatype State = State(
    address: nat, line: int, column: nat, file: nat, source: nat,
    lines: seq<Row>, columns: seq<ColumnRow>, locals: seq<Variable>, fatal: bool)

  function Initial(file: nat, line: int): State {
    State(0, line, 0, file, 0, [], [], [], false)
  }

  /** Index of the last variable on a register, or -1. */
  function LastOn(locals: seq<Variable>, reg: int): (k: int)
    ensures -1 <= k < |locals|
    ensures k >= 0 ==> locals[k].reg == reg
    ensures forall j :: k < j < |locals| ==> locals[j].reg != reg
  {
    if locals == [] then -1
    else if locals[|locals| - 1].reg == reg then |locals| - 1
    else LastOn(locals[..|locals| - 1], reg)
  }

  function Begin(st: State): State {
    st.(lines := st.lines + [Row(st.address, st.line)])
  }

  /** The meaning of one operation. Ending a variable that was never started is a fatal error. */
  function Exec(op: Op, st: State): State
    requires ValidOp(op)
  {
    match op
    case AdvancePc(v) => st.(address := st.address + v)
    case AdvanceLine(d) => st.(line := st.line + d)
    case StartLocal(reg, name, typ) =>
      st.(locals := st.locals + [Variable(name, typ, typ, reg, st.address, 0)])
    case StartLocalExtended(reg, name, typ, sig) =>
      st.(locals := st.locals + [Variable(name, typ, sig, reg, st.address, 0)])
    case EndLocal(reg) =>
      var k := LastOn(st.locals, reg);
      if k < 0 then st.(fatal := true)
      else st.(locals := st.locals[k := st.locals[k].(end := st.address)])
    case SetPrologueEnd => st
    case SetEpilogueBegin => st
    case SetFile(f) => st.(file := f)
    case SetSourceCode(c) => st.(source := c)
    case SetColumn(c) => st.(column := c, columns := st.columns + [ColumnRow(st.address, c)])
    case Special(b) =>
      var a, l := st.address + SpecialPc(b), st.line + SpecialLine(b);
      st.(address := a, line := l, lines := st.lines + [Row(a, l)])
  }

  function ExecAll(ops: seq<Op>, st: State): State
    requires ValidOps(ops)
  {
    if ops == [] then st else Exec(ops[|ops| - 1], ExecAll(ops[..|ops| - 1], st))
  }

  lemma {:induction false} ExecAppend(ops: seq<Op>, op: Op, st: State)
    requires ValidOps(ops) && ValidOp(op)
    ensures ExecAll(ops + [op], st) == Exec(op, ExecAll(ops, st))
  {
    assert (ops + [op])[..|ops|] == ops;
  }

  /** Variables still open at the end live until the last address reached. */
  function CloseAll(locals: seq<Variable>, address: nat): (r: seq<Variable>)
    ensures |r| == |locals|
    ensures forall k :: 0 <= k < |r| ==> r[k] == if locals[k].end == 0 then locals[k].(end := address) else locals[k]
  {
    seq(|locals|, k requires 0 <= k < |locals| => if locals[k].end == 0 then locals[k].(end := address) else locals[k])
  }

  function Finish(st: State): State {
    st.(locals := CloseAll(st.locals, st.address))
  }

  /** Operations whose handling does not set the flag that keeps the processor going. */
  predicate Quiet(op: Op) {
    op.SetPrologueEnd? || op.SetEpilogueBegin? || op.SetColumn?
  }

  /** How many operations are executed: the flag starts unset, so a quiet first one is also the last. */
  function Executed(ops: seq<Op>): (n: nat)
    ensures n <= |ops|
  {
    if ops != [] && Quiet(ops[0]) then 1 else |ops|
  }

  /** The tables that processing a program produces. */
  function Tables(ops: seq<Op>, file: nat, line: int): State
    requires ValidOps(ops)
  {
    Finish(ExecAll(ops[..Executed(ops)], Begin(Initial(file, line))))
  }

  class Processor {
    var program: seq<byte>
    var pool: seq<byte>
    var st: State

    constructor (program: seq<byte>, pool: seq<byte>, st: State)
      ensures this.program == program && this.pool == pool && this.st == st
    {
      this.program, this.pool, this.st := program, pool, st;
    }

    method ReadOpcode() returns (b: byte)
      requires program != []
      modifies this`program
      ensures [b] + program == old(program)
    {
      b := program[0];
      program := program[1..];
    }

    method ReadRegisterNumber(ghost v: int, ghost rest: seq<byte>) returns (reg: int)
      requires program == Sleb(v) + rest
      modifies this`program
      ensures reg == v && program == rest
    {
      SlebRoundTrip(v, rest);
      var (r, n) := ReadSleb(program);
      program := program[n..];
      return r;
    }

    method ReadULeb128(ghost v: nat, ghost rest: seq<byte>) returns (r: nat)
      requires pool == Uleb(v) + rest
      modifies this`pool
      ensures r == v && pool == rest
    {
      UlebRoundTrip(v, rest);
      var (w, n) := ReadUleb(pool);
      pool := pool[n..];
      return w;
    }

    method ReadSLeb128(ghost v: int, ghost rest: seq<byte>) returns (r: int)
      requires pool == Sleb(v) + rest
      modifies this`pool
      ensures r == v && pool == rest
    {
      SlebRoundTrip(v, rest);
      var (w, n) := ReadSleb(pool);
      pool := pool[n..];
      return w;
    }

    method HandleStart(extended: bool, ghost op: Op, ghost dataRest: seq<byte>, ghost poolRest: seq<byte>)
      requires if extended then op.StartLocalExtended? else op.StartLocal?
      requires program == Sleb(op.reg) + dataRest && pool == Pool(op) + poolRest
      modifies this
      ensures program == dataRest && pool == poolRest && st == Exec(op, old(st))
    {
      hide Sleb, Uleb;
      var reg := ReadRegisterNumber(op.reg, dataRest);
      ghost var tail := if extended then Uleb(op.sig) + poolRest else poolRest;
      assert pool == Uleb(op.name) + (Uleb(op.typ) + tail);
      var name := ReadULeb128(op.name, Uleb(op.typ) + tail);
      var typ := ReadULeb128(op.typ, tail);
      var sig := typ;
      if extended {
        sig := ReadULeb128(op.sig, poolRest);
      }
      st := st.(locals := st.locals + [Variable(name, typ, sig, reg, st.address, 0)]);
    }

    method HandleEndLocal(ghost op: Op, ghost dataRest: seq<byte>)
      requires op.EndLocal? && program == Sleb(op.reg) + dataRest
      modifies this
      ensures program == dataRest && pool == old(pool) && st == Exec(op, old(st))
    {
      hide Sleb;
      var reg := ReadRegisterNumber(op.reg, dataRest);
      var k := |st.locals| - 1;
      while k >= 0 && st.locals[k].reg != reg
        invariant -1 <= k < |st.locals|
        invariant forall j :: k < j < |st.locals| ==> st.locals[j].reg != reg
      {
        k := k - 1;
      }
      assert k == LastOn(st.locals, reg);
      if k < 0 {
        st := st.(fatal := true);
      } else {
        st := st.(locals := st.locals[k := st.locals[k].(end := st.address)]);
      }
    }

    /** Handles one opcode; `res` is what the processor's loop will see. */
    method HandleOpcode(opcode: byte, res: bool, ghost op: Op, ghost dataRest: seq<byte>, ghost poolRest: seq<byte>)
      returns (res': bool)
      requires ValidOp(op) && [opcode] + program == Data(op) + dataRest && pool == Pool(op) + poolRest
      modifies this
      ensures program == dataRest && pool == poolRest && st == Exec(op, old(st))
      ensures res' == (res || !Quiet(op))
    {
      OpcodeOf(opcode, op, program, dataRest);
      hide Data, Sleb, Uleb, LastOn;
      res' := true;
      if opcode == 0x01 {
        var v := ReadULeb128(op.value, poolRest);
        st := st.(address := st.address + v);
      } else if opcode == 0x02 {
        var d := ReadSLeb128(op.diff, poolRest);
        st := st.(line := st.line + d);
      } else if opcode == 0x03 || opcode == 0x04 {
        HandleStart(opcode == 0x04, op, dataRest, poolRest);
      } else if opcode == 0x05 {
        HandleEndLocal(op, dataRest);
      } else if opcode == 0x07 || opcode == 0x08 {
        res' := res;
      } else if opcode == 0x09 {
        var f := ReadULeb128(op.file, poolRest);
        st := st.(file := f);
      } else if opcode == 0x0a {
        var c := ReadULeb128(op.source, poolRest);
        st := st.(source := c);
      } else if opcode == 0x0b {
        var c := ReadULeb128(op.column, poolRest);
        st := st.(column := c, columns := st.columns + [ColumnRow(st.address, c)]);
        res' := res;
      } else {
        var a, l := st.address + SpecialPc(opcode), st.line + SpecialLine(opcode);
        st := st.(address := a, line := l, lines := st.lines + [Row(a, l)]);
      }
    }

    /**
      Runs a program that starts with the encoding of `ops` and its end mark. Both streams are read
      exactly to their ends, unless the first operation is a quiet one.
     */
    method Process(ghost ops: seq<Op>, ghost dataRest: seq<byte>, ghost poolRest: seq<byte>)
      requires ValidOps(ops)
      requires program == DataOf(ops) + ([0x00] + dataRest) && pool == PoolOf(ops) + poolRest
      modifies this
      ensures st == Finish(ExecAll(ops[..Executed(ops)], Begin(old(st))))
      ensures Executed(ops) == |ops| && !(|ops| == 1 && Quiet(ops[0])) ==> program == dataRest && pool == poolRest
    {
      hide Data, Pool, Exec, DataOf, PoolOf, CloseAll;
      st := Begin(st);
      StreamHead(ops, 0, dataRest, poolRest);
      ghost var i := 0;
      assert ops[0..] == ops && ops[..0] == [];
      var opcode := ReadOpcode();
      var res := false;
      while opcode != 0x00
        invariant 0 <= i <= |ops|
        invariant [opcode] + program == DataOf(ops[i..]) + ([0x00] + dataRest) && pool == PoolOf(ops[i..]) + poolRest
        invariant st == ExecAll(ops[..i], Begin(old(st)))
        invariant if i == 0 then !res else res && !Quiet(ops[0])
        decreases |program|
      {
        StreamHead(ops, i, dataRest, poolRest);
        assert opcode == ([opcode] + program)[0];
        ghost var op, dataTail := ops[i], DataOf(ops[i + 1..]) + ([0x00] + dataRest);
        ghost var poolTail := PoolOf(ops[i + 1..]) + poolRest;
        ExecAppend(ops[..i], op, Begin(old(st)));
        assert ops[..i + 1] == ops[..i] + [op];
        res := HandleOpcode(opcode, res, op, dataTail, poolTail);
        i := i + 1;
        if !res {
          break;
        }
        opcode := ReadOpcode();
      }
      if res || i == 0 {
        StreamHead(ops, i, dataRest, poolRest);
        assert opcode == ([opcode] + program)[0] && program == ([opcode] + program)[1..];
        assert ops[..i] == ops && ([0x00] + dataRest)[1..] == dataRest;
      }
      st := st.(locals := CloseAll(st.locals, st.address));
    }
  }

  lemma {:induction false} OpcodeOf(opcode: byte, op: Op, program: seq<byte>, rest: seq<byte>)
    requires ValidOp(op) && [opcode] + program == Data(op) + rest
    ensures opcode == Data(op)[0] && program == Data(op)[1..] + rest
    ensures op.AdvancePc? <==> opcode == 0x01
    ensures op.AdvanceLine? <==> opcode == 0x02
    ensures op.StartLocal? <==> opcode == 0x03
    ensures op.StartLocalExtended? <==> opcode == 0x04
    ensures op.EndLocal? <==> opcode == 0x05
    ensures op.SetPrologueEnd? <==> opcode == 0x07
    ensures op.SetEpilogueBegin? <==> opcode == 0x08
    ensures op.SetFile? <==> opcode == 0x09
    ensures op.SetSourceCode? <==> opcode == 0x0a
    ensures op.SetColumn? <==> opcode == 0x0b
    ensures op.Special? <==> opcode >= OPCODE_BASE
    ensures op.Special? ==> op.opcode == opcode
    ensures if op.StartLocal? || op.StartLocalExtended? || op.EndLocal? then program == Sleb(op.reg) + rest
            else program == rest
  {
    hide Sleb, Uleb;
    assert opcode == ([opcode] + program)[0] == (Data(op) + rest)[0];
    assert program == ([opcode] + program)[1..] == (Data(op) + rest)[1..];
  }

  lemma {:induction false} FirstByte(op: Op)
    requires ValidOp(op)
    ensures Data(op)[0] != 0x00
  {
  }

  lemma {:induction false} SingleStream(op: Op)
    ensures DataOf([op]) == Data(op) && PoolOf([op]) == Pool(op)
    ensures DataOf([]) == [] && PoolOf([]) == []
  {
    hide Data, Pool;
    StreamsAppend([], op);
    assert [] + [op] == [op];
  }

  lemma {:induction false} StreamsFrom(ops: seq<Op>, i: nat)
    requires i < |ops|
    ensures DataOf(ops[i..]) == Data(ops[i]) + DataOf(ops[i + 1..])
    ensures PoolOf(ops[i..]) == Pool(ops[i]) + PoolOf(ops[i + 1..])
  {
    hide Data, Pool, DataOf, PoolOf;
    assert ops[i..] == [ops[i]] + ops[i + 1..];
    StreamsSplit([ops[i]], ops[i + 1..]);
    SingleStream(ops[i]);
  }

  /** What is left of the streams: the next operation first, or the end mark. */
  lemma {:induction false} StreamHead(ops: seq<Op>, i: nat, dataRest: seq<byte>, poolRest: seq<byte>)
    requires ValidOps(ops) && i <= |ops|
    ensures
      var s := DataOf(ops[i..]) + ([0x00] + dataRest);
      && |s| > 0 && (s[0] == 0x00 <==> i == |ops|)
      && (i == |ops| ==> s == [0x00] + dataRest && PoolOf(ops[i..]) + poolRest == poolRest)
      && (i < |ops| ==>
            && s == Data(ops[i]) + (DataOf(ops[i + 1..]) + ([0x00] + dataRest))
            && PoolOf(ops[i..]) + poolRest == Pool(ops[i]) + (PoolOf(ops[i + 1..]) + poolRest))
  {
    hide Data, Pool, DataOf, PoolOf;
    if i < |ops| {
      StreamsFrom(ops, i);
      FirstByte(ops[i]);
    } else {
      SingleStream(SetPrologueEnd);
      assert ops[i..] == [];
    }
  }
}
