/**
  The jump instructions of the instruction set: their opcodes, sizes and encodings, and the
  meaning of a conditional jump. Every other instruction is an opaque block of bytes.
 */
module Isa {
  import opened Bytes

  datatype Cond =
    | EqObj | NeObj | EqzObj | NezObj
    | Eqz | Nez | Ltz | Gtz | Lez | Gez
    | Eq | Ne | Lt | Gt | Le_ | Ge

  datatype Opcode =
    | JmpImm8 | JmpImm16 | JmpImm32
    | JccImm8(cond: Cond) | JccImm16(cond: Cond)

  datatype BitImmSize = Bits4 | Bits8 | Bits16 | Bits32

  datatype Option<+T> = None | Some(value: T)

  /** Conditional jumps that compare the accumulator with a register carry an 8-bit register operand. */
  predicate ReadsRegister(c: Cond) {
    c.EqObj? || c.NeObj? || c.Eq? || c.Ne? || c.Lt? || c.Gt? || c.Le_? || c.Ge?
  }

  function CondIndex(c: Cond): (i: nat)
    ensures i < 16
  {
    match c
    case EqObj => 0 case NeObj => 1 case EqzObj => 2 case NezObj => 3
    case Eqz => 4 case Nez => 5 case Ltz => 6 case Gtz => 7 case Lez => 8 case Gez => 9
    case Eq => 10 case Ne => 11 case Lt => 12 case Gt => 13 case Le_ => 14 case Ge => 15
  }

  function CondAt(i: nat): (c: Cond)
    requires i < 16
    ensures CondIndex(c) == i
  {
    match i
    case 0 => EqObj case 1 => NeObj case 2 => EqzObj case 3 => NezObj
    case 4 => Eqz case 5 => Nez case 6 => Ltz case 7 => Gtz case 8 => Lez case 9 => Gez
    case 10 => Eq case 11 => Ne case 12 => Lt case 13 => Gt case 14 => Le_ case _ => Ge
  }

  function OpcodeByte(op: Opcode): (b: byte)
    ensures 0x22 <= b <= 0x44
  {
    match op
    case JmpImm8 => 0x22
    case JmpImm16 => 0x23
    case JmpImm32 => 0x24
    case JccImm8(c) => 0x25 + 2 * CondIndex(c)
    case JccImm16(c) => 0x26 + 2 * CondIndex(c)
  }

  function ParseOpcode(b: byte): (op: Option<Opcode>)
    ensures op.Some? <==> 0x22 <= b <= 0x44
    ensures op.Some? ==> OpcodeByte(op.value) == b
  {
    if b < 0x22 || b > 0x44 then None
    else if b == 0x22 then Some(JmpImm8)
    else if b == 0x23 then Some(JmpImm16)
    else if b == 0x24 then Some(JmpImm32)
    else if b % 2 == 1 then Some(JccImm8(CondAt((b - 0x25) / 2)))
    else Some(JccImm16(CondAt((b - 0x26) / 2)))
  }

  lemma {:induction false} CondAtIndex(c: Cond)
    ensures CondAt(CondIndex(c)) == c
  {
  }

  lemma {:induction false} Halve(i: nat)
    ensures (2 * i) / 2 == i && (0x25 + 2 * i) % 2 == 1 && (0x26 + 2 * i) % 2 == 0
  {
  }

  lemma {:induction false} ParseInvertsOpcodeByte(op: Opcode)
    ensures ParseOpcode(OpcodeByte(op)) == Some(op)
  {
    match op
    case JccImm8(c) =>
      CondAtIndex(c);
      Halve(CondIndex(c));
    case JccImm16(c) =>
      CondAtIndex(c);
      Halve(CondIndex(c));
    case _ =>
  }

  function ImmBytes(op: Opcode): (n: nat)
    ensures n == 1 || n == 2 || n == 4
  {
    match op
    case JmpImm8 => 1
    case JmpImm16 => 2
    case JmpImm32 => 4
    case JccImm8(_) => 1
    case JccImm16(_) => 2
  }

  function RegBytes(op: Opcode): nat {
    if (op.JccImm8? || op.JccImm16?) && ReadsRegister(op.cond) then 1 else 0
  }

  function SizeByOpcode(op: Opcode): nat {
    1 + RegBytes(op) + ImmBytes(op)
  }

  function BitImmSizeByOpcode(op: Opcode): BitImmSize {
    match ImmBytes(op) case 1 => Bits8 case 2 => Bits16 case _ => Bits32
  }

  function RevertConditionCode(c: Cond): Cond {
    match c
    case EqObj => NeObj case NeObj => EqObj
    case EqzObj => NezObj case NezObj => EqzObj
    case Eqz => Nez case Nez => Eqz
    case Ltz => Gez case Gez => Ltz
    case Gtz => Lez case Lez => Gtz
    case Eq => Ne case Ne => Eq
    case Lt => Ge case Ge => Lt
    case Gt => Le_ case Le_ => Gt
  }

  /** The bytes of one jump: opcode, register operand if any, little-endian offset. */
  function EncodeJump(op: Opcode, reg: byte, imm: int): (s: seq<byte>)
    ensures |s| == SizeByOpcode(op)
  {
    [OpcodeByte(op)] + (if RegBytes(op) == 1 then [reg] else []) + EncodeInt(imm, ImmBytes(op))
  }

  /** Reads back the register and the sign-extended offset of the jump starting at `s[0]`. */
  function DecodeJump(op: Opcode, s: seq<byte>): (r: (byte, int))
    requires SizeByOpcode(op) <= |s|
  {
    var reg := if RegBytes(op) == 1 then s[1] else 0;
    (reg, DecodeInt(s[1 + RegBytes(op)..SizeByOpcode(op)]))
  }

  lemma {:induction false} JumpRoundTrip(op: Opcode, reg: byte, imm: int, rest: seq<byte>)
    requires FitsSigned(imm, ImmBytes(op))
    ensures ParseOpcode((EncodeJump(op, reg, imm) + rest)[0]) == Some(op)
    ensures DecodeJump(op, EncodeJump(op, reg, imm) + rest).1 == imm
    ensures RegBytes(op) == 1 ==> DecodeJump(op, EncodeJump(op, reg, imm) + rest).0 == reg
  {
    ParseInvertsOpcodeByte(op);
    var s := EncodeJump(op, reg, imm) + rest;
    assert s[1 + RegBytes(op)..SizeByOpcode(op)] == EncodeInt(imm, ImmBytes(op));
    IntRoundTrip(imm, ImmBytes(op));
  }

  /** What an instruction other than a jump does: fall through, or leave the function. */
  datatype Effect<S> = Next(state: S) | Leave(state: S)

  /**
    A machine, as far as control flow can see it: the values that conditional jumps compare, and
    the length and effect of the instructions that are not jumps.
   */
  datatype Machine<!S(!new)> = Machine(
    acc: S -> int,
    accRef: S -> int,
    vreg: (S, byte) -> int,
    vregRef: (S, byte) -> int,
    length: seq<byte> -> nat,
    exec: (seq<byte>, S) -> Effect<S>)

  predicate Holds<S(!new)>(m: Machine<S>, c: Cond, reg: byte, s: S) {
    match c
    case EqObj => m.accRef(s) == m.vregRef(s, reg)
    case NeObj => m.accRef(s) != m.vregRef(s, reg)
    case EqzObj => m.accRef(s) == 0
    case NezObj => m.accRef(s) != 0
    case Eqz => m.acc(s) == 0
    case Nez => m.acc(s) != 0
    case Ltz => m.acc(s) < 0
    case Gtz => m.acc(s) > 0
    case Lez => m.acc(s) <= 0
    case Gez => m.acc(s) >= 0
    case Eq => m.acc(s) == m.vreg(s, reg)
    case Ne => m.acc(s) != m.vreg(s, reg)
    case Lt => m.acc(s) < m.vreg(s, reg)
    case Gt => m.acc(s) > m.vreg(s, reg)
    case Le_ => m.acc(s) <= m.vreg(s, reg)
    case Ge => m.acc(s) >= m.vreg(s, reg)
  }

  predicate Taken<S(!new)>(m: Machine<S>, op: Opcode, reg: byte, s: S) {
    match op
    case JccImm8(c) => Holds(m, c, reg, s)
    case JccImm16(c) => Holds(m, c, reg, s)
    case _ => true
  }

  lemma {:induction false} RevertNegates<S(!new)>(m: Machine<S>, c: Cond, reg: byte, s: S)
    ensures Holds(m, RevertConditionCode(c), reg, s) == !Holds(m, c, reg, s)
  {
  }

  lemma {:induction false} RevertKeepsRegister(c: Cond)
    ensures RevertConditionCode(RevertConditionCode(c)) == c
    ensures ReadsRegister(RevertConditionCode(c)) == ReadsRegister(c)
    ensures SizeByOpcode(JccImm16(RevertConditionCode(c))) == SizeByOpcode(JccImm16(c)) == SizeByOpcode(JccImm8(c)) + 1
  {
  }
}
