/**
  Line number programs: a stream of opcodes and, beside it, a constant pool that holds their LEB128
  operands. Only register numbers are written into the opcode stream itself.
 */
module LineProgram {
  import opened Bytes
  import opened Leb128

  const OPCODE_BASE: byte := 0x0c
  const LINE_RANGE: nat := 15
  const LINE_BASE: int := -4

  datatype Op =
    | AdvancePc(value: nat)
    | AdvanceLine(diff: int)
    | StartLocal(reg: int, name: nat, typ: nat)
    | StartLocalExtended(reg: int, name: nat, typ: nat, sig: nat)
    | EndLocal(reg: int)
    | SetPrologueEnd
    | SetEpilogueBegin
    | SetFile(file: nat)
    | SetSourceCode(source: nat)
    | SetColumn(column: nat)
    | Special(opcode: byte)

  predicate ValidOp(op: Op) {
    op.Special? ==> op.opcode >= OPCODE_BASE
  }

  predicate ValidOps(ops: seq<Op>) {
    forall k :: 0 <= k < |ops| ==> ValidOp(ops[k])
  }

  /** What an operation appends to the opcode stream. */
  function Data(op: Op): (s: seq<byte>)
    ensures |s| > 0
  {
    match op
    case AdvancePc(_) => [0x01]
    case AdvanceLine(_) => [0x02]
    case StartLocal(reg, _, _) => [0x03] + Sleb(reg)
    case StartLocalExtended(reg, _, _, _) => [0x04] + Sleb(reg)
    case EndLocal(reg) => [0x05] + Sleb(reg)
    case SetPrologueEnd => [0x07]
    case SetEpilogueBegin => [0x08]
    case SetFile(_) => [0x09]
    case SetSourceCode(_) => [0x0a]
    case SetColumn(_) => [0x0b]
    case Special(b) => [b]
  }

  /** What it appends to the constant pool. */
  function Pool(op: Op): seq<byte> {
    match op
    case AdvancePc(v) => Uleb(v)
    case AdvanceLine(d) => Sleb(d)
    case StartLocal(_, name, typ) => Uleb(name) + Uleb(typ)
    case StartLocalExtended(_, name, typ, sig) => Uleb(name) + Uleb(typ) + Uleb(sig)
    case SetFile(f) => Uleb(f)
    case SetSourceCode(c) => Uleb(c)
    case SetColumn(c) => Uleb(c)
    case _ => []
  }

  function DataOf(ops: seq<Op>): seq<byte> {
    if ops == [] then [] else DataOf(ops[..|ops| - 1]) + Data(ops[|ops| - 1])
  }

  function PoolOf(ops: seq<Op>): seq<byte> {
    if ops == [] then [] else PoolOf(ops[..|ops| - 1]) + Pool(ops[|ops| - 1])
  }

  lemma {:induction false} StreamsAppend(ops: seq<Op>, op: Op)
    ensures DataOf(ops + [op]) == DataOf(ops) + Data(op)
    ensures PoolOf(ops + [op]) == PoolOf(ops) + Pool(op)
  {
    assert (ops + [op])[..|ops|] == ops;
  }

  lemma {:induction false} StreamsSplit(a: seq<Op>, b: seq<Op>)
    ensures DataOf(a + b) == DataOf(a) + DataOf(b)
    ensures PoolOf(a + b) == PoolOf(a) + PoolOf(b)
  {
    hide Data, Pool;
    if b == [] {
      assert a + b == a;
    } else {
      hide DataOf, PoolOf;
      var c, op := b[..|b| - 1], b[|b| - 1];
      assert a + b == (a + c) + [op];
      assert b == c + [op];
      StreamsSplit(a, c);
      StreamsAppend(a + c, op);
      StreamsAppend(c, op);
    }
  }

  /** The line and address steps that a special opcode stands for. */
  function SpecialPc(b: byte): nat
    requires b >= OPCODE_BASE
  {
    (b - OPCODE_BASE) / LINE_RANGE
  }

  function SpecialLine(b: byte): int
    requires b >= OPCODE_BASE
  {
    (b - OPCODE_BASE) % LINE_RANGE + LINE_BASE
  }

  /**
    The special opcode for an address and a line step, if one exists. The multiplication is done in
    32 bits.
   */
  function SpecialOpcode(pcInc: nat, lineInc: int): (r: int)
    ensures r == -1 || OPCODE_BASE <= r <= 255
  {
    if lineInc < LINE_BASE || lineInc - LINE_BASE >= LINE_RANGE then -1
    else
      var opcode := (lineInc - LINE_BASE) + (pcInc * LINE_RANGE) % 0x1_0000_0000 + OPCODE_BASE;
      if opcode > 255 then -1 else opcode
  }

  /** A special opcode decodes to the steps it was built from, as long as the product does not wrap. */
  lemma {:induction false} SpecialRoundTrip(pcInc: nat, lineInc: int)
    requires pcInc * LINE_RANGE < 0x1_0000_0000 && SpecialOpcode(pcInc, lineInc) != -1
    ensures SpecialPc(SpecialOpcode(pcInc, lineInc)) == pcInc
    ensures SpecialLine(SpecialOpcode(pcInc, lineInc)) == lineInc
  {
    ModUnique(SpecialOpcode(pcInc, lineInc) - OPCODE_BASE, 15, pcInc, lineInc - LINE_BASE);
  }

  lemma {:induction false} SpecialZero(lineInc: int)
    ensures SpecialOpcode(0, 0) == 16
    ensures SpecialOpcode(0, lineInc) != -1 <==> LINE_BASE <= lineInc < LINE_BASE + LINE_RANGE
  {
  }

  /** A program under construction, with the constant pool of its debug info. */
  class LineNumberProgram {
    var data: seq<byte>
    var pool: seq<byte>
    ghost var ops: seq<Op>

    ghost predicate Valid()
      reads this
    {
      ValidOps(ops) && data == DataOf(ops) && pool == PoolOf(ops)
    }

    constructor ()
      ensures Valid() && ops == []
    {
      data, pool, ops := [], [], [];
    }

    method EmitAdvancePc(value: nat)
      requires Valid()
      modifies this
      ensures Valid() && ops == old(ops) + [AdvancePc(value)]
    {
      hide DataOf, PoolOf, Uleb, Sleb;
      StreamsAppend(ops, AdvancePc(value));
      data := data + [0x01];
      pool := pool + Uleb(value);
      ops := ops + [AdvancePc(value)];
    }

    method EmitAdvanceLine(value: int)
      requires Valid()
      modifies this
      ensures Valid() && ops == old(ops) + [AdvanceLine(value)]
    {
      hide DataOf, PoolOf, Uleb, Sleb;
      StreamsAppend(ops, AdvanceLine(value));
      data := data + [0x02];
      pool := pool + Sleb(value);
      ops := ops + [AdvanceLine(value)];
    }

    method EmitStartLocal(reg: int, name: nat, typ: nat)
      requires Valid()
      modifies this
      ensures Valid() && ops == old(ops) + [StartLocal(reg, name, typ)]
    {
      hide DataOf, PoolOf, Uleb, Sleb;
      StreamsAppend(ops, StartLocal(reg, name, typ));
      data := data + [0x03];
      data := data + Sleb(reg);
      pool := pool + Uleb(name);
      pool := pool + Uleb(typ);
      ops := ops + [StartLocal(reg, name, typ)];
    }

    method EmitStartLocalExtended(reg: int, name: nat, typ: nat, sig: nat)
      requires Valid()
      modifies this
      ensures Valid() && ops == old(ops) + [StartLocalExtended(reg, name, typ, sig)]
    {
      hide DataOf, PoolOf, Uleb, Sleb;
      StreamsAppend(ops, StartLocalExtended(reg, name, typ, sig));
      data := data + [0x04];
      data := data + Sleb(reg);
      pool := pool + Uleb(name);
      pool := pool + Uleb(typ);
      pool := pool + Uleb(sig);
      ops := ops + [StartLocalExtended(reg, name, typ, sig)];
    }

    method EmitEndLocal(reg: int)
      requires Valid()
      modifies this
      ensures Valid() && ops == old(ops) + [EndLocal(reg)]
    {
      hide DataOf, PoolOf, Uleb, Sleb;
      StreamsAppend(ops, EndLocal(reg));
      data := data + [0x05];
      data := data + Sleb(reg);
      ops := ops + [EndLocal(reg)];
    }

    /** Nothing is emitted if there is no special opcode for the steps. */
    method EmitSpecialOpcode(pcInc: nat, lineInc: int) returns (done: bool)
      requires Valid()
      modifies this
      ensures Valid() && done == (SpecialOpcode(pcInc, lineInc) != -1)
      ensures ops == if done then old(ops) + [Special(SpecialOpcode(pcInc, lineInc))] else old(ops)
    {
      hide DataOf, PoolOf, Uleb, Sleb;
      if lineInc < LINE_BASE || lineInc - LINE_BASE >= LINE_RANGE {
        return false;
      }
      var opcode := (lineInc - LINE_BASE) + (pcInc * LINE_RANGE) % 0x1_0000_0000 + OPCODE_BASE;
      if opcode > 255 {
        return false;
      }
      StreamsAppend(ops, Special(opcode));
      data := data + [opcode];
      ops := ops + [Special(opcode)];
      return true;
    }

    method EmitColumn(pcInc: nat, column: nat)
      requires Valid()
      modifies this
      ensures Valid()
      ensures ops == old(ops) + (if pcInc != 0 then [AdvancePc(pcInc)] else []) + [SetColumn(column)]
    {
      hide DataOf, PoolOf, Uleb, Sleb;
      if pcInc != 0 {
        EmitAdvancePc(pcInc);
      }
      StreamsAppend(ops, SetColumn(column));
      data := data + [0x0b];
      pool := pool + Uleb(column);
      ops := ops + [SetColumn(column)];
    }

    method EmitSetFile(file: nat)
      requires Valid()
      modifies this
      ensures Valid() && ops == old(ops) + [SetFile(file)]
    {
      hide DataOf, PoolOf, Uleb, Sleb;
      StreamsAppend(ops, SetFile(file));
      data := data + [0x09];
      pool := pool + Uleb(file);
      ops := ops + [SetFile(file)];
    }

    method EmitSetSourceCode(source: nat)
      requires Valid()
      modifies this
      ensures Valid() && ops == old(ops) + [SetSourceCode(source)]
    {
      hide DataOf, PoolOf, Uleb, Sleb;
      StreamsAppend(ops, SetSourceCode(source));
      data := data + [0x0a];
      pool := pool + Uleb(source);
      ops := ops + [SetSourceCode(source)];
    }

    /** Closes the program. */
    method EmitEnd()
      requires Valid()
      modifies this`data
      ensures data == DataOf(ops) + [0x00] && pool == PoolOf(ops)
    {
      data := data + [0x00];
    }
  }
}
