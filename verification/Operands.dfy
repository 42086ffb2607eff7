/**
  Operands of an instruction: bit fields of 4, 8, 16, 32 or 64 bits, one after the other behind the
  opcode. What is written into a field is read from it, whatever the other fields hold.
 */
module Operands {
  import opened Bytes
  import opened Leb128

  /** Half a byte, or whole bytes. */
  datatype Operand = Half(at: nat, high: bool) | Whole(at: nat, n: nat)

  predicate ValidOperand(f: Operand) {
    f.Whole? ==> f.n == 1 || f.n == 2 || f.n == 4 || f.n == 8
  }

  /** First bit, number of bits, and number of bytes touched. */
  function Offset(f: Operand): nat {
    8 * f.at + if f.Half? && f.high then 4 else 0
  }

  function Width(f: Operand): nat {
    if f.Half? then 4 else 8 * f.n
  }

  function Span(f: Operand): nat {
    if f.Half? then 1 else f.n
  }

  /** The field at a bit offset; fields of whole bytes start at a byte. */
  predicate Encodable(offset: nat, bitlen: nat) {
    || (bitlen == 4 && offset % 4 == 0)
    || ((bitlen == 8 || bitlen == 16 || bitlen == 32 || bitlen == 64) && offset % 8 == 0)
  }

  function OperandAt(offset: nat, bitlen: nat): (f: Operand)
    requires Encodable(offset, bitlen)
    ensures ValidOperand(f) && Offset(f) == offset && Width(f) == bitlen
  {
    if bitlen == 4 then Half(offset / 8, offset % 8 == 4) else Whole(offset / 8, bitlen / 8)
  }

  predicate Inside(f: Operand, size: nat) {
    ValidOperand(f) && f.at + Span(f) <= size
  }

  predicate Apart(f: Operand, g: Operand) {
    Offset(f) + Width(f) <= Offset(g) || Offset(g) + Width(g) <= Offset(f)
  }

  /** Fields one after the other, inside an instruction. */
  predicate Tiling(fs: seq<Operand>, size: nat) {
    && (forall i :: 0 <= i < |fs| ==> Inside(fs[i], size))
    && (forall i, j :: 0 <= i < j < |fs| ==> Offset(fs[i]) + Width(fs[i]) <= Offset(fs[j]))
  }

  // ---------- bits ----------

  function Bits(buf: seq<byte>, f: Operand): nat
    requires Inside(f, |buf|)
  {
    match f
    case Half(at, high) => if high then buf[at] / 16 else buf[at] % 16
    case Whole(at, n) => FromLe(buf[at..at + n])
  }

  /** Bitwise or of four bits. */
  function Or4(a: nat, b: nat): (r: nat)
    requires a < 16 && b < 16
    ensures r < 16 && (a == 0 ==> r == b)
  {
    Or1(a / 8, b / 8) * 8 + Or1(a / 4 % 2, b / 4 % 2) * 4 + Or1(a / 2 % 2, b / 2 % 2) * 2 + Or1(a % 2, b % 2)
  }

  function Or1(a: nat, b: nat): (r: nat)
    ensures r <= 1 && (a == 0 && b <= 1 ==> r == b)
  {
    if a == 0 && b == 0 then 0 else 1
  }

  /** A byte after four bits were or-ed into one of its halves; the other half is or-ed with zeros. */
  function OrInto(b: byte, v: nat, high: bool): (r: byte)
    requires v < 16
    ensures high ==> r % 16 == b % 16 && r / 16 == Or4(b / 16, v)
    ensures !high ==> r / 16 == b / 16 && r % 16 == Or4(b % 16, v)
  {
    if high then Or4(b / 16, v) * 16 + b % 16 else b / 16 * 16 + Or4(b % 16, v)
  }

  // ---------- writing ----------

  function TwoTo(n: nat): (p: nat)
    ensures p >= 1
  {
    PowerPositive(n);
    Power2(n)
  }

  /** The argument cut to the width of the field. */
  function Cut(v: int, width: nat): nat {
    v % TwoTo(width)
  }

  lemma {:induction false} PowerSteps(k: nat)
    ensures Power2(k + 8) == 256 * Power2(k)
  {
    assert Power2(k + 8) == 2 * Power2(k + 7);
    assert Power2(k + 7) == 2 * Power2(k + 6);
    assert Power2(k + 6) == 2 * Power2(k + 5);
    assert Power2(k + 5) == 2 * Power2(k + 4);
    assert Power2(k + 4) == 2 * Power2(k + 3);
    assert Power2(k + 3) == 2 * Power2(k + 2);
    assert Power2(k + 2) == 2 * Power2(k + 1);
    assert Power2(k + 1) == 2 * Power2(k);
  }

  lemma {:induction false} PowerIsBase(n: nat)
    ensures TwoTo(8 * n) == Base(n)
  {
    if n > 0 {
      PowerIsBase(n - 1);
      PowerSteps(8 * (n - 1));
    }
  }

  lemma {:induction false} FourBits()
    ensures TwoTo(4) == 16
  {
    assert Power2(3) == 8;
  }

  /** The buffer after one field was written. */
  function Put(buf: seq<byte>, f: Operand, v: int): (r: seq<byte>)
    requires Inside(f, |buf|)
    ensures |r| == |buf|
  {
    match f
    case Half(at, high) => buf[at := OrInto(buf[at], v % 16, high)]
    case Whole(at, n) => buf[..at] + EncodeInt(v, n) + buf[at + n..]
  }

  /** A field reads back what was written if its half byte was clear; whole bytes need not be. */
  lemma {:induction false} PutSets(buf: seq<byte>, f: Operand, v: int)
    requires Inside(f, |buf|) && (f.Half? ==> Bits(buf, f) == 0)
    ensures Bits(Put(buf, f, v), f) == Cut(v, Width(f))
  {
    hide OrInto, Or4, TwoTo, Base, Le;
    if f.Half? {
      FourBits();
    } else {
      assert Put(buf, f, v)[f.at..f.at + f.n] == EncodeInt(v, f.n);
      PowerIsBase(f.n);
      LeRoundTrip(v % Base(f.n), f.n);
    }
  }

  /** Writing one field never disturbs another. */
  lemma {:induction false} PutKeeps(buf: seq<byte>, f: Operand, v: int, g: Operand)
    requires Inside(f, |buf|) && Inside(g, |buf|) && Apart(f, g)
    ensures Bits(Put(buf, f, v), g) == Bits(buf, g)
  {
    hide OrInto, Or4, EncodeInt;
    var r := Put(buf, f, v);
    if f.Whole? || g.Whole? {
      assert g.at + Span(g) <= f.at || f.at + Span(f) <= g.at;
      forall i | g.at <= i < g.at + Span(g) ensures r[i] == buf[i] {
      }
      assert g.Whole? ==> r[g.at..g.at + g.n] == buf[g.at..g.at + g.n];
    }
  }

  lemma {:induction false} ByteOf(v: nat, n: nat, i: nat)
    requires i < n
    ensures Le(v, n)[i] == v / Base(i) % 256
    decreases n
  {
    if i > 0 {
      ByteOf(v / 256, n - 1, i - 1);
      DivDiv(v, Base(i - 1));
    }
  }

  lemma {:induction false} DivDiv(v: nat, b: nat)
    requires b > 0
    ensures v / 256 / b == v / (256 * b)
  {
    var q, r := v / 256, v % 256;
    var s, t := q / b, q % b;
    assert q == b * s + t;
    assert v == 256 * (b * s + t) + r;
    assert 256 * (b * s + t) + r == (256 * b) * s + (256 * t + r);
    assert 256 * t + r < 256 * b;
    ModUnique(v, 256 * b, s, 256 * t + r);
  }

  /** One field, byte by byte where it has several. */
  method EmitField(buf: array<byte>, offset: nat, bitlen: nat, arg: int)
    requires Encodable(offset, bitlen) && Inside(OperandAt(offset, bitlen), buf.Length)
    modifies buf
    ensures buf[..] == Put(old(buf[..]), OperandAt(offset, bitlen), arg)
  {
    hide OrInto;
    var at := offset / 8;
    if bitlen == 4 {
      buf[at] := OrInto(buf[at], arg % 16, offset % 8 == 4);
      return;
    }
    EmitBytes(buf, at, bitlen / 8, arg);
  }

  method EmitBytes(buf: array<byte>, at: nat, n: nat, arg: int)
    requires at + n <= buf.Length
    modifies buf
    ensures buf[..] == old(buf[..at]) + EncodeInt(arg, n) + old(buf[at + n..])
  {
    hide Le, Base;
    var val := arg % Base(n);
    ghost var bytes := Le(val, n);
    for i := 0 to n
      invariant forall k :: 0 <= k < i ==> buf[at + k] == bytes[k]
      invariant forall k :: 0 <= k < buf.Length && !(at <= k < at + n) ==> buf[k] == old(buf[k])
    {
      ByteOf(val, n, i);
      buf[at + i] := val / Base(i) % 256;
    }
  }

  /** After all fields are written into a cleared buffer, each holds its own argument. */
  method Emit(buf: array<byte>, fs: seq<Operand>, args: seq<int>)
    requires Tiling(fs, buf.Length) && |args| == |fs|
    requires forall i :: 0 <= i < |fs| ==> Bits(buf[..], fs[i]) == 0
    modifies buf
    ensures forall i :: 0 <= i < |fs| ==> Bits(buf[..], fs[i]) == Cut(args[i], Width(fs[i]))
  {
    hide Bits, Put, Cut;
    for i := 0 to |fs|
      invariant forall j :: 0 <= j < i ==> Bits(buf[..], fs[j]) == Cut(args[j], Width(fs[j]))
      invariant forall j :: i <= j < |fs| ==> Bits(buf[..], fs[j]) == 0
    {
      ghost var before := buf[..];
      var f := fs[i];
      Located(f);
      EmitField(buf, Offset(f), Width(f), args[i]);
      PutSets(before, f, args[i]);
      forall j | 0 <= j < |fs| && j != i ensures Bits(buf[..], fs[j]) == Bits(before, fs[j]) {
        assert Apart(f, fs[j]);
        PutKeeps(before, f, args[i], fs[j]);
      }
    }
  }

  /** A field is found again from its offset and width. */
  lemma {:induction false} Located(f: Operand)
    requires ValidOperand(f)
    ensures Encodable(Offset(f), Width(f)) && OperandAt(Offset(f), Width(f)) == f
  {
    match f
    case Half(at, high) =>
      var o := Offset(f);
      assert o % 8 == (if high then 4 else 0) && o / 8 == at;
      assert o == 4 * (if high then 2 * at + 1 else 2 * at);
    case Whole(at, n) =>
      assert 8 * at / 8 == at && 8 * n / 8 == n;
  }

  // ---------- reading ----------

  lemma {:induction false} FromLeAppend(s: seq<byte>, b: byte)
    ensures FromLe(s + [b]) == FromLe(s) + b * Base(|s|)
  {
    if s == [] {
      assert s + [b] == [b];
    } else {
      assert (s + [b])[1..] == s[1..] + [b];
      FromLeAppend(s[1..], b);
      assert 256 * (b * Base(|s| - 1)) == b * (256 * Base(|s| - 1));
    }
  }

  /** Value bits shifted to the top of a word of `bits` and back, with or without their sign. */
  function Extend(v: nat, bits: nat, width: nat, signed: bool): int
    requires width <= bits
  {
    var shift, word := TwoTo(bits - width), TwoTo(bits);
    var x := v * shift % word;
    (if signed && 2 * x >= word then x - word else x) / shift
  }

  /** The value of width bits, zero- or sign-extended. */
  function Extended(v: nat, width: nat, signed: bool): int {
    if signed && 2 * v >= TwoTo(width) then v - TwoTo(width) else v
  }

  lemma {:induction false} PowerSplit(a: nat, b: nat)
    ensures TwoTo(a + b) == TwoTo(a) * TwoTo(b)
  {
    if a > 0 {
      PowerSplit(a - 1, b);
      Twice(TwoTo(a - 1), TwoTo(b));
    }
  }

  lemma {:induction false} Twice(a: nat, b: nat)
    ensures 2 * (a * b) == (2 * a) * b
  {
  }

  /** The two shifts cut the value to its width and extend it. */
  lemma {:induction false} ExtendIs(v: nat, bits: nat, width: nat, signed: bool)
    requires width <= bits
    ensures Extend(v, bits, width, signed) == Extended(v % TwoTo(width), width, signed)
  {
    hide TwoTo;
    PowerSplit(width, bits - width);
    var a, b := TwoTo(width), TwoTo(bits - width);
    var q, r := v / a, v % a;
    assert v == a * q + r;
    Distributes(a, q, r, b);
    Scaled(r, a, b);
    ModUnique(v * b, a * b, q, r * b);
    Unscale(r, b);
    Unscale(r - a, b);
    assert (r - a) * b == r * b - a * b;
  }

  lemma {:induction false} Distributes(a: nat, q: nat, r: nat, b: nat)
    ensures (a * q + r) * b == (a * b) * q + r * b
  {
    assert (a * q + r) * b == (a * q) * b + r * b;
    assert (a * q) * b == (a * b) * q;
  }

  lemma {:induction false} Scaled(r: nat, a: nat, b: nat)
    requires r < a && b > 0
    ensures 0 <= r * b < a * b
    ensures 2 * (r * b) >= a * b <==> 2 * r >= a
  {
    assert (a - r) * b == a * b - r * b;
    assert (2 * r - a) * b == 2 * (r * b) - a * b;
    MultipleIsFar(b, a - r);
    MultipleIsFar(b, 2 * r - a);
  }

  lemma {:induction false} Unscale(x: int, b: nat)
    requires b > 0
    ensures x * b / b == x
  {
    ModUnique(x * b, b, x, 0);
  }

  /** The number in some bytes, lowest first. */
  method ReadBytes(buf: seq<byte>, at: nat, n: nat) returns (v: nat)
    requires at + n <= |buf|
    ensures v == FromLe(buf[at..at + n])
  {
    hide FromLe, Base;
    v := 0;
    NoBytes(buf, at);
    for i := 0 to n
      invariant v == FromLe(buf[at..at + i])
    {
      assert buf[at..at + i + 1] == buf[at..at + i] + [buf[at + i]];
      FromLeAppend(buf[at..at + i], buf[at + i]);
      v := v + buf[at + i] * Base(i);
    }
  }

  lemma {:induction false} NoBytes(buf: seq<byte>, at: nat)
    requires at <= |buf|
    ensures FromLe(buf[at..at]) == 0
  {
  }

  /** Reads a field: its bytes, moved down to bit 0, cut and extended in a word of `bits`. */
  method ReadField(buf: seq<byte>, offset: nat, width: nat, bits: nat, signed: bool) returns (v: int)
    requires Encodable(offset, width) && Inside(OperandAt(offset, width), |buf|) && width <= bits
    ensures v == Extended(Bits(buf, OperandAt(offset, width)), width, signed)
  {
    hide Extend, Extended, Bits, FromLe;
    var first, end := offset / 8, (offset + width + 7) / 8;
    Spans(offset, width);
    var x := ReadBytes(buf, first, end - first);
    BitsAre(buf, offset, width);
    x := if offset % 8 == 4 then x / 16 else x;
    ExtendIs(x, bits, width, signed);
    v := Extend(x, bits, width, signed);
  }

  lemma {:induction false} Spans(offset: nat, width: nat)
    requires Encodable(offset, width)
    ensures (offset + width + 7) / 8 == offset / 8 + Span(OperandAt(offset, width))
    ensures offset / 8 == OperandAt(offset, width).at
  {
  }

  lemma {:induction false} BitsAre(buf: seq<byte>, offset: nat, width: nat)
    requires Encodable(offset, width) && Inside(OperandAt(offset, width), |buf|)
    ensures
      var f := OperandAt(offset, width);
      var x := FromLe(buf[f.at..f.at + Span(f)]);
      (if offset % 8 == 4 then x / 16 else x) % TwoTo(width) == Bits(buf, f)
  {
    hide TwoTo, Base;
    var f := OperandAt(offset, width);
    if f.Half? {
      FourBits();
      OneByte(buf, f.at);
    } else {
      PowerIsBase(f.n);
      ModUnique(Bits(buf, f), Base(f.n), 0, Bits(buf, f));
    }
  }

  lemma {:induction false} OneByte(buf: seq<byte>, at: nat)
    requires at < |buf|
    ensures FromLe(buf[at..at + 1]) == buf[at]
  {
    assert buf[at..at + 1] == [buf[at]];
    assert [buf[at]][1..] == [];
  }

  /** Round trip: every operand reads as its argument, cut to its width and extended. */
  method EmitAndRead(fs: seq<Operand>, args: seq<int>, size: nat, i: nat, bits: nat, signed: bool) returns (v: int)
    requires Tiling(fs, size) && |args| == |fs| && i < |fs| && Width(fs[i]) <= bits
    ensures v == Extended(Cut(args[i], Width(fs[i])), Width(fs[i]), signed)
  {
    hide Bits, Cut, Extended;
    var buf := new byte[size](_ => 0);
    forall j | 0 <= j < |fs| ensures Bits(buf[..], fs[j]) == 0 {
      ClearBits(buf[..], fs[j]);
    }
    Emit(buf, fs, args);
    Located(fs[i]);
    v := ReadField(buf[..], Offset(fs[i]), Width(fs[i]), bits, signed);
  }

  lemma {:induction false} ClearBits(buf: seq<byte>, f: Operand)
    requires Inside(f, |buf|) && forall k :: 0 <= k < |buf| ==> buf[k] == 0
    ensures Bits(buf, f) == 0
  {
    if f.Whole? {
      ClearBytes(buf[f.at..f.at + f.n]);
    }
  }

  lemma {:induction false} ClearBytes(s: seq<byte>)
    requires forall k :: 0 <= k < |s| ==> s[k] == 0
    ensures FromLe(s) == 0
  {
    if s != [] {
      ClearBytes(s[1..]);
    }
  }
}
