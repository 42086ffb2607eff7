/**
  The assembler finds the byte offsets of try and catch labels on its own: it walks the built bytes,
  one bytecode instruction for each assembly instruction. This agrees with the offsets the emitter
  gave the labels exactly as long as no branch before the label was rewritten into two instructions.
 */
module LabelOffsets {
  import opened Bytes
  import opened Isa
  import opened Layout
  import opened Fits
  import opened Assembly

  predicate LabelsOnce(ins: seq<Ins>) {
    forall j, k :: 0 <= j < k < |ins| && ins[j].lbl.Some? && ins[k].lbl.Some? ==> ins[j].lbl != ins[k].lbl
  }

  /** The offsets of the labels that the catch blocks name; a label that no instruction carries keeps 0. */
  method MakeOffsets(length: seq<byte> -> nat, ins: seq<Ins>, wanted: set<Label>, bytecode: seq<byte>)
    returns (offsets: map<Label, nat>)
    requires LabelsOnce(ins)
    ensures offsets.Keys == wanted
    ensures forall k :: 0 <= k < |ins| && ins[k].lbl.Some? && ins[k].lbl.value in wanted ==>
              offsets[ins[k].lbl.value] == Walk(length, bytecode, Opcodes(ins, k))
    ensures forall l :: l in wanted && (forall k :: 0 <= k < |ins| ==> ins[k].lbl != Some(l)) ==> offsets[l] == 0
  {
    hide Walk, InsnSize;
    offsets := map l | l in wanted :: 0;
    var pcOffset := 0;
    WalkSteps(length, bytecode, 0);
    for i := 0 to |ins|
      invariant offsets.Keys == wanted
      invariant pcOffset == Walk(length, bytecode, Opcodes(ins, i))
      invariant forall k :: 0 <= k < i && ins[k].lbl.Some? && ins[k].lbl.value in wanted ==>
                  offsets[ins[k].lbl.value] == Walk(length, bytecode, Opcodes(ins, k))
      invariant forall l :: l in wanted && (forall k :: 0 <= k < i ==> ins[k].lbl != Some(l)) ==> offsets[l] == 0
    {
      if ins[i].lbl.Some? && ins[i].lbl.value in offsets {
        offsets := offsets[ins[i].lbl.value := pcOffset];
      }
      if ins[i].code.Some? {
        WalkSteps(length, bytecode, Opcodes(ins, i));
        pcOffset := pcOffset + InsnSize(length, bytecode, pcOffset);
      }
    }
  }

  /** Instructions in the built code of the first k items: a far branch is two. */
  function InstrCount(items: seq<Item>, forms: seq<Form>, k: nat): nat
    requires k <= |items| == |forms|
  {
    if k == 0 then 0
    else
      InstrCount(items, forms, k - 1)
      + if items[k - 1].Bind? then 0 else if IsFar(items[k - 1], forms[k - 1]) then 2 else 1
  }

  function NonBinds(items: seq<Item>, k: nat): nat
    requires k <= |items|
  {
    if k == 0 then 0 else NonBinds(items, k - 1) + if items[k - 1].Bind? then 0 else 1
  }

  lemma {:induction false} CountsDiffer(items: seq<Item>, forms: seq<Form>, k: nat)
    requires k <= |items| == |forms|
    ensures NonBinds(items, k) <= InstrCount(items, forms, k)
    ensures NonBinds(items, k) == InstrCount(items, forms, k) <==> !FarBetween(items, forms, 0, k)
  {
    if k > 0 {
      CountsDiffer(items, forms, k - 1);
      assert FarBetween(items, forms, 0, k)
        <==> FarBetween(items, forms, 0, k - 1) || IsFar(items[k - 1], forms[k - 1]);
    }
  }

  /** Size of the instruction at the start of item i, and of the second half of a far branch. */
  lemma {:induction false} SizesAtItem(
    length: seq<byte> -> nat, items: seq<Item>, forms: seq<Form>, imms: seq<int>, i: nat)
    requires i < |items| == |forms| == |imms|
    requires WellFormed(items[i]) && LengthsKnown(length, items) && !items[i].Bind?
    ensures
      var code, at, d := Code(items, forms, imms, 0, |items|), Offset(items, forms, i),
        CarrierDelta(items[i], forms[i]);
      && (!IsFar(items[i], forms[i]) ==> InsnSize(length, code, at) == Size(items[i], forms[i]) > 0)
      && (IsFar(items[i], forms[i]) ==>
            InsnSize(length, code, at) == d > 0 && d + InsnSize(length, code, at + d) == Size(items[i], forms[i]) > d)
  {
    var it, code, at, d := items[i], Code(items, forms, imms, 0, |items|), Offset(items, forms, i),
      CarrierDelta(items[i], forms[i]);
    var e := Encode(it, forms[i], imms[i]);
    var rest := Code(items, forms, imms, i + 1, |items|);
    CodeFrom(items, forms, imms, i);
    assert code[at..] == e + rest;
    hide Code, Offset;
    assert code[at] == (e + rest)[0];
    match it
    case Plain(b) =>
      assert length(b + rest) == |b|;
    case Branch(op, _, _) =>
      if IsFar(it, forms[i]) {
        RevertKeepsRegister(op.cond);
        ParseInvertsOpcodeByte(JccImm16(RevertConditionCode(op.cond)));
        assert code[at + d] == (e + rest)[d];
        ParseInvertsOpcodeByte(JmpImm32);
      } else {
        ParseInvertsOpcodeByte(CarrierOp(op, forms[i]));
      }
  }

  /** The walk visits the start of every item, and is short of it after fewer instructions. */
  lemma {:induction false} WalkHitsItems(
    length: seq<byte> -> nat, items: seq<Item>, forms: seq<Form>, imms: seq<int>, k: nat)
    requires k <= |items| == |forms| == |imms| && AllWellFormed(items) && LengthsKnown(length, items)
    ensures
      var code := Code(items, forms, imms, 0, |items|);
      && Walk(length, code, InstrCount(items, forms, k)) == Offset(items, forms, k)
      && forall j :: 0 <= j < InstrCount(items, forms, k) ==>
           Walk(length, code, j) < Offset(items, forms, k) && InsnSize(length, code, Walk(length, code, j)) > 0
  {
    hide Code, Encode, InsnSize, WellFormed, LengthsKnown, Size, CarrierDelta;
    if k > 0 {
      var code, it := Code(items, forms, imms, 0, |items|), items[k - 1];
      WalkHitsItems(length, items, forms, imms, k - 1);
      if it.Bind? {
        PlainEncoding(it, forms[k - 1], imms[k - 1]);
      } else {
        SizesAtItem(length, items, forms, imms, k - 1);
      }
    }
  }

  /**
    The two resolvers agree on a label if and only if no branch before it took the far form; otherwise
    the assembler's offset is too small.
   */
  lemma {:induction false} ResolversAgreeExactly(
    length: seq<byte> -> nat, items: seq<Item>, forms: seq<Form>, imms: seq<int>, k: nat)
    requires k <= |items| == |forms| == |imms| && AllWellFormed(items) && LengthsKnown(length, items)
    ensures
      var walked := Walk(length, Code(items, forms, imms, 0, |items|), NonBinds(items, k));
      && walked <= Offset(items, forms, k)
      && (walked == Offset(items, forms, k) <==> !FarBetween(items, forms, 0, k))
  {
    hide Code, Offset, Walk;
    WalkHitsItems(length, items, forms, imms, k);
    CountsDiffer(items, forms, k);
  }

  /** Every instruction other than a jump has one byte. */
  function OneByte(rest: seq<byte>): nat {
    1
  }

  /** A program in which a branch takes the far form: the assembler puts the label after it too low. */
  lemma {:induction false} ResolversDiffer(p: nat, q: nat, imms: seq<int>)
    requires 127 < p + 8 <= 32767 && q + 3 > 32767 && |imms| == p + q + 4
    ensures
      var items, forms := Overrun(p, q), FinalForms(Overrun(p, q));
      && items[p + q + 3] == Bind(1)
      && Walk(OneByte, Code(items, forms, imms, 0, |items|), NonBinds(items, p + q + 3))
        < Offset(items, forms, p + q + 3)
  {
    hide Code, Offset, Walk, NonBinds, Plan;
    var items, forms := Overrun(p, q), FinalForms(Overrun(p, q));
    OverrunForms(p, q);
    assert IsFar(items[p + 1], forms[p + 1]);
    ResolversAgreeExactly(OneByte, items, forms, imms, p + q + 3);
  }

  lemma {:induction false} ItemsPrefix(ins: seq<Ins>, k: nat, n: nat)
    requires k <= n <= |ins|
    ensures ToItems(ins, k) <= ToItems(ins, n)
    decreases n
  {
    if k < n {
      ItemsPrefix(ins, k, n - 1);
    }
  }

  lemma {:induction false} NonBindsPrefix(a: seq<Item>, b: seq<Item>, k: nat)
    requires k <= |a| && a <= b
    ensures NonBinds(a, k) == NonBinds(b, k)
  {
    if k > 0 {
      NonBindsPrefix(a, b, k - 1);
      assert a[k - 1] == b[k - 1];
    }
  }

  lemma {:induction false} OpcodesAreItems(ins: seq<Ins>, k: nat)
    requires k <= |ins| && forall j :: 0 <= j < |ins| ==> ValidIns(ins[j])
    ensures NonBinds(ToItems(ins, k), |ToItems(ins, k)|) == Opcodes(ins, k)
    ensures AllWellFormed(ToItems(ins, k))
  {
    if k > 0 {
      OpcodesAreItems(ins, k - 1);
      var before, it, all := ToItems(ins, k - 1), ins[k - 1], ToItems(ins, k);
      NonBindsPrefix(before, all, |before|);
      assert it.lbl.Some? ==> all[|before|] == Bind(it.lbl.value);
      assert it.code.Some? ==> all[|all| - 1] == it.code.value;
      NonBindsTail(all, |before|);
    }
  }

  lemma {:induction false} NonBindsTail(items: seq<Item>, k: nat)
    requires k <= |items| <= k + 2
    ensures NonBinds(items, |items|) == NonBinds(items, k)
      + (if k < |items| && !items[k].Bind? then 1 else 0)
      + (if k + 1 < |items| && !items[k + 1].Bind? then 1 else 0)
  {
  }

  /** Instruction k of the function among the items. */
  lemma {:induction false} InsItem(ins: seq<Ins>, k: nat)
    requires k <= |ins| && forall j :: 0 <= j < |ins| ==> ValidIns(ins[j])
    ensures
      var items, t := ToItems(ins, |ins|), |ToItems(ins, k)|;
      && t <= |items| && AllWellFormed(items)
      && NonBinds(items, t) == Opcodes(ins, k)
      && (k < |ins| && ins[k].lbl.Some? ==> t < |items| && items[t] == Bind(ins[k].lbl.value))
  {
    if k < |ins| && ins[k].lbl.Some? {
      LabelFirst(ins, k);
    }
    hide ToItems, NonBinds, Opcodes;
    var items, before := ToItems(ins, |ins|), ToItems(ins, k);
    OpcodesAreItems(ins, k);
    OpcodesAreItems(ins, |ins|);
    ItemsPrefix(ins, k, |ins|);
    if k < |ins| {
      ItemsPrefix(ins, k + 1, |ins|);
    }
    NonBindsPrefix(before, items, |before|);
  }

  lemma {:induction false} LabelFirst(ins: seq<Ins>, k: nat)
    requires k < |ins| && ins[k].lbl.Some?
    ensures |ToItems(ins, k)| < |ToItems(ins, k + 1)|
    ensures ToItems(ins, k + 1)[|ToItems(ins, k)|] == Bind(ins[k].lbl.value)
  {
  }

  /**
    For a built function: the walk gives instruction k its real offset if and only if no branch before
    it took the far form, and it never steps over an empty instruction or past the end.
   */
  lemma {:induction false} InsOffsetsExactly(length: seq<byte> -> nat, ins: seq<Ins>, k: nat)
    requires k <= |ins| && (forall j :: 0 <= j < |ins| ==> ValidIns(ins[j]))
      && LengthsKnown(length, ToItems(ins, |ins|))
    ensures
      var items, t := ToItems(ins, |ins|), |ToItems(ins, k)|;
      var walked, forms := Walk(length, Linked(items), Opcodes(ins, k)), FinalForms(items);
      && t <= |items| && walked <= Offset(items, forms, t) <= |Linked(items)|
      && (walked == Offset(items, forms, t) <==> !FarBetween(items, forms, 0, t))
    ensures forall j :: 0 <= j < Opcodes(ins, |ins|) ==>
      InsnSize(length, Linked(ToItems(ins, |ins|)), Walk(length, Linked(ToItems(ins, |ins|)), j)) > 0
  {
    hide Code, Offset, Walk, Plan, ToItems, NonBinds, Opcodes, LengthsKnown, InsnSize;
    var items, t := ToItems(ins, |ins|), |ToItems(ins, k)|;
    var forms := FinalForms(items);
    var imms := Displacements(items, forms);
    InsItem(ins, k);
    InsItem(ins, |ins|);
    OffsetMonotone(items, forms, t, |items|);
    CodeLength(items, forms, imms, 0, |items|);
    OffsetZero(items, forms);
    ResolversAgreeExactly(length, items, forms, imms, t);
    WalkHitsItems(length, items, forms, imms, |items|);
    CountsDiffer(items, forms, |items|);
  }

  /** For the labels of try and catch blocks: the walked offset against the emitter's final pc. */
  lemma {:induction false} TryLabelsAgreeExactly(length: seq<byte> -> nat, ins: seq<Ins>, k: nat)
    requires k < |ins| && ins[k].lbl.Some? && (forall j :: 0 <= j < |ins| ==> ValidIns(ins[j]))
    requires BoundOnce(ToItems(ins, |ins|)) && LengthsKnown(length, ToItems(ins, |ins|))
    ensures
      var items := ToItems(ins, |ins|);
      var t := Target(items, ins[k].lbl.value);
      && Bound(items, ins[k].lbl.value)
      && (Walk(length, Linked(items), Opcodes(ins, k)) == Offset(items, FinalForms(items), t)
          <==> !FarBetween(items, FinalForms(items), 0, t))
  {
    hide Code, Offset, Walk, Plan, ToItems, Target, NonBinds, Opcodes, LengthsKnown, InsnSize;
    InsItem(ins, k);
    TargetIs(ToItems(ins, |ins|), |ToItems(ins, k)|);
    InsOffsetsExactly(length, ins, k);
  }
}
