/**
  Labelled programs and their byte layouts. A program is the list of calls made on the emitter:
  opaque instructions, label bindings and branches. A layout gives every branch a form (the form it
  was emitted in, or a wider one), and thereby gives every item an offset.
 */
module Layout {
  import opened Bytes
  import opened Isa

  type Label = nat

  datatype Item =
    | Plain(bytes: seq<byte>)
    | Bind(lbl: Label)
    | Branch(op: Opcode, reg: byte, lbl: Label)

  datatype Form = Keep | Wide16 | Wide32

  /** What the emitting methods can produce: branches start in their shortest form. */
  predicate WellFormed(it: Item) {
    match it
    case Plain(b) => |b| > 0 && ParseOpcode(b[0]).None?
    case Bind(_) => true
    case Branch(op, _, _) =>
      op.JmpImm8? || op.JccImm8? || (op.JccImm16? && ReadsRegister(op.cond))
  }

  predicate AllWellFormed(items: seq<Item>) {
    forall k :: 0 <= k < |items| ==> WellFormed(items[k])
  }

  /** The length of each opaque instruction can be told from its bytes, whatever follows it. */
  ghost predicate LengthsKnown(length: seq<byte> -> nat, items: seq<Item>) {
    forall k, rest :: 0 <= k < |items| && items[k].Plain? ==> length(items[k].bytes + rest) == |items[k].bytes|
  }

  predicate IsConditional(op: Opcode) {
    op.JccImm8? || op.JccImm16?
  }

  /** A conditional branch that was rewritten into an inverted jump over a 32-bit jump. */
  predicate IsFar(it: Item, form: Form) {
    it.Branch? && IsConditional(it.op) && form == Wide32
  }

  /** The opcode that carries the branch offset. */
  function CarrierOp(op: Opcode, form: Form): Opcode {
    match form
    case Keep => op
    case Wide16 => if IsConditional(op) then JccImm16(op.cond) else JmpImm16
    case Wide32 => JmpImm32
  }

  /** Where, inside the encoded item, the instruction with the branch offset starts. */
  function CarrierDelta(it: Item, form: Form): nat {
    if IsFar(it, form) then SizeByOpcode(JccImm16(it.op.cond)) else 0
  }

  function Size(it: Item, form: Form): nat {
    match it
    case Plain(b) => |b|
    case Bind(_) => 0
    case Branch(op, _, _) => CarrierDelta(it, form) + SizeByOpcode(CarrierOp(op, form))
  }

  /** `jcc far` as `jCC next; jmp far`, where CC is the inverted condition and `next` follows the pair. */
  function FarPair(c: Cond, reg: byte, imm: int): (s: seq<byte>)
    ensures |s| == SizeByOpcode(JccImm16(c)) + SizeByOpcode(JmpImm32)
  {
    RevertKeepsRegister(c);
    EncodeJump(JccImm16(RevertConditionCode(c)), reg, SizeByOpcode(JccImm16(c)) + SizeByOpcode(JmpImm32))
    + EncodeJump(JmpImm32, 0, imm)
  }

  function Encode(it: Item, form: Form, imm: int): (s: seq<byte>)
    ensures |s| == Size(it, form)
  {
    match it
    case Plain(b) => b
    case Bind(_) => []
    case Branch(op, reg, _) =>
      if IsFar(it, form) then FarPair(op.cond, reg, imm)
      else EncodeJump(CarrierOp(op, form), reg, imm)
  }

  function Offset(items: seq<Item>, forms: seq<Form>, k: nat): (off: nat)
    requires k <= |items| == |forms|
  {
    if k == 0 then 0 else Offset(items, forms, k - 1) + Size(items[k - 1], forms[k - 1])
  }

  /** The bytes of items[lo..hi]. */
  function Code(items: seq<Item>, forms: seq<Form>, imms: seq<int>, lo: nat, hi: nat): (s: seq<byte>)
    requires lo <= hi <= |items| == |forms| == |imms|
    decreases hi
  {
    if lo == hi then []
    else Code(items, forms, imms, lo, hi - 1) + Encode(items[hi - 1], forms[hi - 1], imms[hi - 1])
  }

  function AllKeep(n: nat): (forms: seq<Form>)
    ensures |forms| == n && forall k :: 0 <= k < n ==> forms[k] == Keep
  {
    seq(n, _ => Keep)
  }

  function Zeros(n: nat): (imms: seq<int>)
    ensures |imms| == n && forall k :: 0 <= k < n ==> imms[k] == 0
  {
    seq(n, _ => 0)
  }

  predicate Bound(items: seq<Item>, l: Label) {
    Bind(l) in items
  }

  function FirstBind(items: seq<Item>, l: Label): (k: nat)
    ensures k <= |items|
    ensures k < |items| <==> Bind(l) in items
    ensures k < |items| ==> items[k] == Bind(l)
  {
    if items == [] then 0
    else if items[0] == Bind(l) then 0
    else
      assert Bind(l) in items <==> Bind(l) in items[1..];
      1 + FirstBind(items[1..], l)
  }

  /** The position a label stands for. The cell of a label that was never bound holds pc 0. */
  function Target(items: seq<Item>, l: Label): (t: nat)
    ensures t <= |items|
    ensures Bound(items, l) ==> t < |items| && items[t] == Bind(l)
  {
    if Bound(items, l) then FirstBind(items, l) else 0
  }

  predicate BoundOnce(items: seq<Item>) {
    forall j, k :: 0 <= j < k < |items| && items[j].Bind? && items[k].Bind? ==> items[j].lbl != items[k].lbl
  }

  lemma {:induction false} PlainEncoding(it: Item, form: Form, imm: int)
    requires !it.Branch?
    ensures Encode(it, form, imm) == (if it.Plain? then it.bytes else [])
    ensures Size(it, form) == if it.Plain? then |it.bytes| else 0
  {
  }

  lemma {:induction false} OffsetZero(items: seq<Item>, forms: seq<Form>)
    requires |items| == |forms|
    ensures Offset(items, forms, 0) == 0
  {
  }

  /** The only binding of a label is its target. */
  lemma {:induction false} TargetIs(items: seq<Item>, k: nat)
    requires k < |items| && items[k].Bind? && BoundOnce(items)
    ensures Target(items, items[k].lbl) == k
  {
    assert items[k] == Bind(items[k].lbl);
  }

  lemma {:induction false} CodeLength(items: seq<Item>, forms: seq<Form>, imms: seq<int>, lo: nat, hi: nat)
    requires lo <= hi <= |items| == |forms| == |imms|
    ensures |Code(items, forms, imms, lo, hi)| == Offset(items, forms, hi) - Offset(items, forms, lo)
    ensures Offset(items, forms, lo) <= Offset(items, forms, hi)
    decreases hi
  {
    if lo < hi {
      CodeLength(items, forms, imms, lo, hi - 1);
    }
  }

  lemma {:induction false} CodeSplit(items: seq<Item>, forms: seq<Form>, imms: seq<int>, lo: nat, mid: nat, hi: nat)
    requires lo <= mid <= hi <= |items| == |forms| == |imms|
    ensures Code(items, forms, imms, lo, hi) == Code(items, forms, imms, lo, mid) + Code(items, forms, imms, mid, hi)
    decreases hi
  {
    if mid < hi {
      CodeSplit(items, forms, imms, lo, mid, hi - 1);
    }
  }

  lemma {:induction false} CodeFrame(
    items: seq<Item>, forms: seq<Form>, imms: seq<int>, forms': seq<Form>, imms': seq<int>, lo: nat, hi: nat)
    requires lo <= hi <= |items| == |forms| == |imms| == |forms'| == |imms'|
    requires forall k :: lo <= k < hi ==> forms[k] == forms'[k] && imms[k] == imms'[k]
    ensures Code(items, forms, imms, lo, hi) == Code(items, forms', imms', lo, hi)
    decreases hi
  {
    if lo < hi {
      CodeFrame(items, forms, imms, forms', imms', lo, hi - 1);
    }
  }

  /** The code of a program is prefix, item i, suffix. */
  lemma {:induction false} CodeAround(items: seq<Item>, forms: seq<Form>, imms: seq<int>, i: nat)
    requires i < |items| == |forms| == |imms|
    ensures Code(items, forms, imms, 0, |items|)
         == Code(items, forms, imms, 0, i) + Encode(items[i], forms[i], imms[i])
           + Code(items, forms, imms, i + 1, |items|)
  {
    CodeSplit(items, forms, imms, 0, i + 1, |items|);
  }

  /** The code splits at any item. */
  lemma {:induction false} CodeFrom(items: seq<Item>, forms: seq<Form>, imms: seq<int>, i: nat)
    requires i < |items| == |forms| == |imms|
    ensures var code := Code(items, forms, imms, 0, |items|);
            && Offset(items, forms, i) + Size(items[i], forms[i]) == Offset(items, forms, i + 1) <= |code|
            && code[Offset(items, forms, i)..]
               == Encode(items[i], forms[i], imms[i]) + Code(items, forms, imms, i + 1, |items|)
  {
    hide Size, Encode, Code;
    CodeAround(items, forms, imms, i);
    CodeLength(items, forms, imms, 0, i);
  }

  /** Re-encoding one item changes nothing but its own bytes. */
  lemma {:induction false} CodeUpdate(items: seq<Item>, forms: seq<Form>, imms: seq<int>, i: nat, form: Form, imm: int)
    requires i < |items| == |forms| == |imms|
    ensures Code(items, forms[i := form], imms[i := imm], 0, |items|)
         == Code(items, forms, imms, 0, i) + Encode(items[i], form, imm) + Code(items, forms, imms, i + 1, |items|)
  {
    var forms', imms' := forms[i := form], imms[i := imm];
    CodeAround(items, forms', imms', i);
    CodeFrame(items, forms, imms, forms', imms', 0, i);
    CodeFrame(items, forms, imms, forms', imms', i + 1, |items|);
  }

  lemma {:induction false} OffsetUpdate(items: seq<Item>, forms: seq<Form>, i: nat, form: Form, k: nat)
    requires i < |items| == |forms| && k <= |items|
    ensures Offset(items, forms[i := form], k)
         == Offset(items, forms, k) + if k > i then Size(items[i], form) - Size(items[i], forms[i]) else 0
  {
    if k > 0 {
      OffsetUpdate(items, forms, i, form, k - 1);
    }
  }

  lemma {:induction false} OffsetMonotone(items: seq<Item>, forms: seq<Form>, j: nat, k: nat)
    requires j <= k <= |items| == |forms|
    ensures Offset(items, forms, j) <= Offset(items, forms, k)
    ensures j < k && Size(items[j], forms[j]) > 0 ==> Offset(items, forms, j) < Offset(items, forms, k)
  {
    if j < k {
      OffsetMonotone(items, forms, j, k - 1);
    }
  }

  /** Offsets and code of a prefix do not depend on what is emitted later. */
  lemma {:induction false} OffsetExtend(items: seq<Item>, it: Item, k: nat)
    requires k <= |items|
    ensures Offset(items + [it], AllKeep(|items| + 1), k) == Offset(items, AllKeep(|items|), k)
  {
    if k > 0 {
      OffsetExtend(items, it, k - 1);
    }
  }

  lemma {:induction false} CodeExtend(items: seq<Item>, it: Item, k: nat)
    requires k <= |items|
    ensures Code(items + [it], AllKeep(|items| + 1), Zeros(|items| + 1), 0, k)
         == Code(items, AllKeep(|items|), Zeros(|items|), 0, k)
  {
    if k > 0 {
      CodeExtend(items, it, k - 1);
    }
  }

  lemma {:induction false} TargetExtend(items: seq<Item>, it: Item, l: Label)
    ensures Target(items + [it], l)
         == if it == Bind(l) && !Bound(items, l) then |items| else Target(items, l)
  {
    FirstBindExtend(items, it, l);
  }

  lemma {:induction false} FirstBindExtend(items: seq<Item>, it: Item, l: Label)
    ensures FirstBind(items + [it], l)
         == if Bound(items, l) then FirstBind(items, l) else if it == Bind(l) then |items| else |items| + 1
  {
    if items != [] {
      assert (items + [it])[1..] == items[1..] + [it];
      FirstBindExtend(items[1..], it, l);
    }
  }

  // ---------- the choice of forms ----------

  function BitLengthSigned(x: int): BitImmSize {
    if -8 <= x <= 7 then Bits4
    else if -128 <= x <= 127 then Bits8
    else if -32768 <= x <= 32767 then Bits16
    else Bits32
  }

  function Rank(b: BitImmSize): nat {
    match b case Bits4 => 0 case Bits8 => 1 case Bits16 => 2 case Bits32 => 3
  }

  /** How much an unprocessed branch is assumed to grow at most. */
  function MaxIncrease(op: Opcode): nat {
    match op
    case JmpImm8 => 3
    case JccImm8(_) => 1
    case JccImm16(c) => if ReadsRegister(c) then 2 else 0
    case _ => 0
  }

  function ItemIncrease(it: Item): nat {
    if it.Branch? then MaxIncrease(it.op) else 0
  }

  function SumIncrease(items: seq<Item>, lo: nat, hi: nat): nat
    requires lo <= hi <= |items|
    decreases hi
  {
    if lo == hi then 0 else SumIncrease(items, lo, hi - 1) + ItemIncrease(items[hi - 1])
  }

  lemma {:induction false} SumIncreaseSplit(items: seq<Item>, lo: nat, mid: nat, hi: nat)
    requires lo <= mid <= hi <= |items|
    ensures SumIncrease(items, lo, hi) == SumIncrease(items, lo, mid) + SumIncrease(items, mid, hi)
    decreases hi
  {
    if mid < hi {
      SumIncreaseSplit(items, lo, mid, hi - 1);
    }
  }

  lemma {:induction false} SumIncreaseSkip(items: seq<Item>, lo: nat, hi: nat)
    requires lo <= hi <= |items| && forall k :: lo <= k < hi ==> !items[k].Branch?
    ensures SumIncrease(items, lo, hi) == 0
    decreases hi
  {
    if lo < hi {
      SumIncreaseSkip(items, lo, hi - 1);
    }
  }

  /** The distance a branch is sized for: backward exact, forward with room for every branch in between. */
  function Estimate(items: seq<Item>, forms: seq<Form>, i: nat): int
    requires i < |items| == |forms| && items[i].Branch?
  {
    var t := Target(items, items[i].lbl);
    Offset(items, forms, t) - Offset(items, forms, i) + if t > i then SumIncrease(items, i, t) else 0
  }

  function ChooseForm(op: Opcode, needed: BitImmSize): Form {
    if Rank(needed) <= Rank(BitImmSizeByOpcode(op)) then Keep
    else if needed == Bits32 then Wide32
    else Wide16
  }

  /** The forms after the branches among the first d items were processed, left to right. */
  function Plan(items: seq<Item>, d: nat): (forms: seq<Form>)
    requires d <= |items|
    ensures |forms| == |items|
    ensures forall k :: d <= k < |items| ==> forms[k] == Keep
  {
    if d == 0 then AllKeep(|items|)
    else
      var forms := Plan(items, d - 1);
      if items[d - 1].Branch? then
        forms[d - 1 := ChooseForm(items[d - 1].op, BitLengthSigned(Estimate(items, forms, d - 1)))]
      else forms
  }

  function FinalForms(items: seq<Item>): (forms: seq<Form>)
    ensures |forms| == |items|
  {
    Plan(items, |items|)
  }

  /** The offset stored in branch i: from the instruction that carries it to the label. */
  function Displacement(items: seq<Item>, forms: seq<Form>, i: nat): int
    requires i < |items| == |forms|
  {
    if items[i].Branch? then
      Offset(items, forms, Target(items, items[i].lbl))
      - (Offset(items, forms, i) + CarrierDelta(items[i], forms[i]))
    else 0
  }

  function Displacements(items: seq<Item>, forms: seq<Form>): (imms: seq<int>)
    requires |items| == |forms|
    ensures |imms| == |items|
    ensures forall i :: 0 <= i < |items| ==> imms[i] == Displacement(items, forms, i)
  {
    seq(|items|, i requires 0 <= i < |items| => Displacement(items, forms, i))
  }

  /** The bytes that a successful build produces. */
  function Linked(items: seq<Item>): seq<byte> {
    var forms := FinalForms(items);
    Code(items, forms, Displacements(items, forms), 0, |items|)
  }

  // ---------- the branch table ----------

  /** Position of the offset-carrying instruction and label of every branch among items[lo..hi]. */
  function Sites(items: seq<Item>, forms: seq<Form>, lo: nat, hi: nat): (sites: seq<(nat, Label)>)
    requires lo <= hi <= |items| == |forms|
    decreases hi
  {
    if lo == hi then []
    else
      Sites(items, forms, lo, hi - 1)
      + if items[hi - 1].Branch? then [Site(items, forms, hi - 1)] else []
  }

  function Site(items: seq<Item>, forms: seq<Form>, i: nat): (nat, Label)
    requires i < |items| == |forms| && items[i].Branch?
  {
    (Offset(items, forms, i) + CarrierDelta(items[i], forms[i]), items[i].lbl)
  }

  /** The first branch at or after e, or the end. */
  function NextBranch(items: seq<Item>, e: nat): (b: nat)
    requires e <= |items|
    ensures e <= b <= |items|
    ensures forall k :: e <= k < b ==> !items[k].Branch?
    ensures b < |items| ==> items[b].Branch?
    decreases |items| - e
  {
    if e == |items| || items[e].Branch? then e else NextBranch(items, e + 1)
  }

  lemma {:induction false} SitesSplit(items: seq<Item>, forms: seq<Form>, lo: nat, mid: nat, hi: nat)
    requires lo <= mid <= hi <= |items| == |forms|
    ensures Sites(items, forms, lo, hi) == Sites(items, forms, lo, mid) + Sites(items, forms, mid, hi)
    decreases hi
  {
    if mid < hi {
      SitesSplit(items, forms, lo, mid, hi - 1);
    }
  }

  lemma {:induction false} SitesSkip(items: seq<Item>, forms: seq<Form>, lo: nat, hi: nat)
    requires lo <= hi <= |items| == |forms|
    requires forall k :: lo <= k < hi ==> !items[k].Branch?
    ensures Sites(items, forms, lo, hi) == []
    decreases hi
  {
    if lo < hi {
      SitesSkip(items, forms, lo, hi - 1);
    }
  }

  /** The branches from e on are: none, or the next one followed by those after it. */
  lemma {:induction false} SitesNext(items: seq<Item>, forms: seq<Form>, e: nat)
    requires e <= |items| == |forms|
    ensures var b := NextBranch(items, e);
            && (b == |items| ==> Sites(items, forms, e, |items|) == [])
            && (b < |items| ==>
                  Sites(items, forms, e, |items|) == [Site(items, forms, b)] + Sites(items, forms, b + 1, |items|))
            && (b < |items| ==> Sites(items, forms, 0, b + 1) == Sites(items, forms, 0, e) + [Site(items, forms, b)])
  {
    var b := NextBranch(items, e);
    SitesSkip(items, forms, e, b);
    SitesSplit(items, forms, e, b, |items|);
    SitesSplit(items, forms, 0, e, b);
    if b < |items| {
      SitesSplit(items, forms, b, b + 1, |items|);
    }
  }

  ghost predicate Used(items: seq<Item>, l: Label) {
    exists k :: 0 <= k < |items| && items[k].Branch? && items[k].lbl == l
  }

  /** The branch table names exactly the labels that branches use. */
  lemma {:induction false} SitesLabels(items: seq<Item>, forms: seq<Form>, hi: nat)
    requires hi <= |items| == |forms|
    ensures forall j :: 0 <= j < |Sites(items, forms, 0, hi)| ==> Used(items, Sites(items, forms, 0, hi)[j].1)
    ensures forall k :: 0 <= k < hi && items[k].Branch? ==>
              exists j :: 0 <= j < |Sites(items, forms, 0, hi)| && Sites(items, forms, 0, hi)[j].1 == items[k].lbl
  {
    if hi > 0 {
      SitesLabels(items, forms, hi - 1);
      var before, all := Sites(items, forms, 0, hi - 1), Sites(items, forms, 0, hi);
      assert forall j :: 0 <= j < |before| ==> all[j] == before[j];
      if items[hi - 1].Branch? {
        assert all[|before|].1 == items[hi - 1].lbl;
      }
    }
  }

  lemma {:induction false} SitesFrame(items: seq<Item>, forms: seq<Form>, forms': seq<Form>, hi: nat)
    requires hi <= |items| == |forms| == |forms'|
    requires forall k :: 0 <= k < hi ==> forms[k] == forms'[k]
    ensures Sites(items, forms, 0, hi) == Sites(items, forms', 0, hi)
    ensures Offset(items, forms, hi) == Offset(items, forms', hi)
  {
    if hi > 0 {
      SitesFrame(items, forms, forms', hi - 1);
    }
  }

  /** Every site of items[lo..hi] lies between the offsets of lo and hi. */
  lemma {:induction false} SitesRange(items: seq<Item>, forms: seq<Form>, lo: nat, hi: nat, j: nat)
    requires lo <= hi <= |items| == |forms| && j < |Sites(items, forms, lo, hi)|
    ensures Offset(items, forms, lo) <= Sites(items, forms, lo, hi)[j].0 < Offset(items, forms, hi)
    decreases hi
  {
    OffsetMonotone(items, forms, lo, hi - 1);
    if j < |Sites(items, forms, lo, hi - 1)| {
      SitesRange(items, forms, lo, hi - 1, j);
    }
  }

  lemma {:induction false} SitesExtend(items: seq<Item>, it: Item, hi: nat)
    requires hi <= |items|
    ensures Sites(items + [it], AllKeep(|items| + 1), 0, hi) == Sites(items, AllKeep(|items|), 0, hi)
  {
    if hi > 0 {
      SitesExtend(items, it, hi - 1);
      OffsetExtend(items, it, hi - 1);
    }
  }

  // ---------- emitting one more item ----------

  lemma {:induction false} CodeAppend(items: seq<Item>, it: Item)
    ensures Code(items + [it], AllKeep(|items| + 1), Zeros(|items| + 1), 0, |items| + 1)
         == Code(items, AllKeep(|items|), Zeros(|items|), 0, |items|) + Encode(it, Keep, 0)
  {
    CodeExtend(items, it, |items|);
  }

  lemma {:induction false} OffsetAppend(items: seq<Item>, it: Item)
    ensures Offset(items + [it], AllKeep(|items| + 1), |items| + 1)
         == Offset(items, AllKeep(|items|), |items|) + Size(it, Keep)
  {
    OffsetExtend(items, it, |items|);
  }

  lemma {:induction false} SitesAppend(items: seq<Item>, it: Item)
    ensures Sites(items + [it], AllKeep(|items| + 1), 0, |items| + 1)
         == Sites(items, AllKeep(|items|), 0, |items|)
            + if it.Branch? then [(Offset(items, AllKeep(|items|), |items|), it.lbl)] else []
  {
    var n := |items|;
    var items', forms' := items + [it], AllKeep(n + 1);
    SitesExtend(items, it, n);
    OffsetExtend(items, it, n);
    assert items'[n] == it && CarrierDelta(it, forms'[n]) == 0;
    assert it.Branch? ==> Site(items', forms', n) == (Offset(items', forms', n), it.lbl);
  }

  // ---------- the pass, step by step ----------

  /** Everything at or after the first unprocessed item sits at its original offset plus the bias. */
  lemma {:induction false} UnprocessedShift(items: seq<Item>, d: nat, k: nat)
    requires d <= k <= |items|
    ensures Offset(items, Plan(items, d), k) - Offset(items, AllKeep(|items|), k)
         == Offset(items, Plan(items, d), d) - Offset(items, AllKeep(|items|), d)
    decreases k
  {
    if d < k {
      UnprocessedShift(items, d, k - 1);
    }
  }

  lemma {:induction false} PlanSkip(items: seq<Item>, d: nat, b: nat)
    requires d <= b <= |items| && forall k :: d <= k < b ==> !items[k].Branch?
    ensures Plan(items, b) == Plan(items, d)
    decreases b
  {
    if d < b {
      PlanSkip(items, d, b - 1);
    }
  }
}
