/** Assembly functions, and the walk over their built bytes. */
module Assembly {
  import opened Bytes
  import opened Isa
  import opened Layout

  /**
    An assembly instruction: an optional label, an opcode unless it only carries the label, and its
    debug position.
   */
  datatype Ins = Ins(lbl: Option<Label>, code: Option<Item>, line: nat, column: int, canThrow: bool)

  predicate ValidIns(i: Ins) {
    i.code.Some? ==> WellFormed(i.code.value) && !i.code.value.Bind?
  }

  function InsItems(i: Ins): seq<Item> {
    (if i.lbl.Some? then [Bind(i.lbl.value)] else []) + if i.code.Some? then [i.code.value] else []
  }

  /** What emitting the function calls on the emitter. */
  function ToItems(ins: seq<Ins>, k: nat): seq<Item>
    requires k <= |ins|
  {
    if k == 0 then [] else ToItems(ins, k - 1) + InsItems(ins[k - 1])
  }

  function InsnSize(length: seq<byte> -> nat, code: seq<byte>, pc: nat): nat {
    if pc >= |code| then 0
    else
      match ParseOpcode(code[pc])
      case Some(op) => SizeByOpcode(op)
      case None => length(code[pc..])
  }

  /** Where the walk over the bytes is after k instructions. */
  function Walk(length: seq<byte> -> nat, code: seq<byte>, k: nat): nat {
    if k == 0 then 0
    else
      var p := Walk(length, code, k - 1);
      p + InsnSize(length, code, p)
  }

  /** The number of assembly instructions with an opcode among ins[..k]. */
  function Opcodes(ins: seq<Ins>, k: nat): nat
    requires k <= |ins|
  {
    if k == 0 then 0 else Opcodes(ins, k - 1) + if ins[k - 1].code.Some? then 1 else 0
  }

  lemma {:induction false} WalkSteps(length: seq<byte> -> nat, code: seq<byte>, k: nat)
    ensures Walk(length, code, 0) == 0
    ensures Walk(length, code, k + 1) == Walk(length, code, k) + InsnSize(length, code, Walk(length, code, k))
  {
  }
}
