/**
  Which branch offsets fit. The relaxation pass sizes a forward branch for the growth it expects of
  the branches in between, but expects too little of a conditional branch that is rewritten into the
  far form. So a forward offset can be truncated; this module says exactly when.
 */
module Fits {
  import opened Bytes
  import opened Isa
  import opened Layout
  import opened Simulation

  /** How much branch k grew beyond what the estimate allowed for it. */
  function Excess(it: Item, form: Form): int {
    Size(it, form) - Size(it, Keep) - ItemIncrease(it)
  }

  function SumExcess(items: seq<Item>, forms: seq<Form>, lo: nat, hi: nat): int
    requires lo <= hi <= |items| == |forms|
    decreases hi
  {
    if lo == hi then 0 else SumExcess(items, forms, lo, hi - 1) + Excess(items[hi - 1], forms[hi - 1])
  }

  /** Only the far form outgrows the estimate: by 5 bytes, or by 3 if the branch started with 16 bits. */
  lemma {:induction false} ExcessOfForm(it: Item, form: Form)
    requires WellFormed(it) && (form == Wide16 && it.Branch? ==> !it.op.JccImm16?)
    ensures Excess(it, form) > 0 <==> IsFar(it, form)
    ensures IsFar(it, form) ==> Excess(it, form) == if it.op.JccImm8? then 5 else 3
  {
  }

  predicate FarBetween(items: seq<Item>, forms: seq<Form>, lo: nat, hi: nat)
    requires hi <= |items| == |forms|
  {
    exists k :: lo <= k < hi && IsFar(items[k], forms[k])
  }

  /** Processed branches keep their forms. */
  lemma {:induction false} PlanStable(items: seq<Item>, d: nat, e: nat, k: nat)
    requires k < d <= e <= |items|
    ensures Plan(items, e)[k] == Plan(items, d)[k]
    decreases e
  {
    if d < e {
      PlanStable(items, d, e - 1, k);
    }
  }

  lemma {:induction false} OffsetStable(items: seq<Item>, d: nat, k: nat)
    requires k <= d <= |items|
    ensures Offset(items, FinalForms(items), k) == Offset(items, Plan(items, d), k)
  {
    forall j | 0 <= j < k ensures FinalForms(items)[j] == Plan(items, d)[j] {
      PlanStable(items, d, |items|, j);
    }
    SitesFrame(items, FinalForms(items), Plan(items, d), k);
  }

  lemma {:induction false} ChosenAt(items: seq<Item>, i: nat)
    requires i < |items| && items[i].Branch?
    ensures FinalForms(items)[i]
         == ChooseForm(items[i].op, BitLengthSigned(Estimate(items, Plan(items, i), i)))
  {
    PlanStable(items, i + 1, |items|, i);
  }

  lemma {:induction false} ChosenForms(items: seq<Item>, k: nat)
    requires AllWellFormed(items) && k < |items|
    ensures FinalForms(items)[k] == Wide16 ==> items[k].Branch? && !items[k].op.JccImm16?
  {
    if items[k].Branch? {
      ChosenAt(items, k);
    } else {
      PlanStable(items, k + 1, |items|, k);
    }
  }

  /** Growth in a stretch: what was estimated plus the excess. */
  lemma {:induction false} GrowthOf(items: seq<Item>, forms: seq<Form>, lo: nat, hi: nat)
    requires lo <= hi <= |items| == |forms|
    ensures Offset(items, forms, hi) - Offset(items, forms, lo)
         == Offset(items, AllKeep(|items|), hi) - Offset(items, AllKeep(|items|), lo)
            + SumIncrease(items, lo, hi) + SumExcess(items, forms, lo, hi)
    decreases hi
  {
    if lo < hi {
      GrowthOf(items, forms, lo, hi - 1);
    }
  }

  /** The distance from branch i to its label in the built code, against the distance it was sized for. */
  lemma {:induction false} FinalDistance(items: seq<Item>, i: nat)
    requires i < |items| && items[i].Branch?
    ensures
      var forms, t := FinalForms(items), Target(items, items[i].lbl);
      Offset(items, forms, t) - Offset(items, forms, i)
      == Estimate(items, Plan(items, i), i) + if t > i then SumExcess(items, forms, i, t) else 0
  {
    var n, forms, t := |items|, FinalForms(items), Target(items, items[i].lbl);
    if t <= i {
      OffsetStable(items, i, t);
      OffsetStable(items, i, i);
    } else {
      GrowthOf(items, forms, i, t);
      UnprocessedShift(items, i, t);
    }
  }

  /** A displacement of a program shorter than 2^31 bytes fits 32 bits. */
  predicate Addressable(items: seq<Item>) {
    Offset(items, FinalForms(items), |items|) < 0x8000_0000
  }

  function MaxOffset(bytes: nat): int {
    if bytes == 1 then 127 else if bytes == 2 then 32767 else 0x7fff_ffff
  }

  /** Below the chosen width, an estimate is within range. */
  lemma {:induction false} EstimateInRange(items: seq<Item>, i: nat)
    requires AllWellFormed(items) && i < |items| && items[i].Branch? && FinalForms(items)[i] != Wide32
    ensures FitsSigned(Estimate(items, Plan(items, i), i), ImmBytes(CarrierOp(items[i].op, FinalForms(items)[i])))
    ensures ImmBytes(CarrierOp(items[i].op, FinalForms(items)[i])) != 4
    ensures CarrierDelta(items[i], FinalForms(items)[i]) == 0
  {
    ChosenAt(items, i);
    assert Base(1) == 256 && Base(2) == 65536;
  }

  /**
    Exactly when the stored offset of a branch is not truncated: always for a backward branch and for
    a 32-bit one; otherwise if and only if the far rewrites between the branch and its label outgrow
    their estimates by no more than the headroom that the estimate of this branch left.
   */
  lemma {:induction false} FitsExactly(items: seq<Item>, i: nat)
    requires AllWellFormed(items) && Addressable(items) && i < |items| && items[i].Branch?
    ensures
      var forms, t := FinalForms(items), Target(items, items[i].lbl);
      OffsetFits(items, forms, i) <==>
        || t <= i
        || forms[i] == Wide32
        || SumExcess(items, forms, i, t)
             <= MaxOffset(ImmBytes(CarrierOp(items[i].op, forms[i]))) - Estimate(items, Plan(items, i), i)
  {
    var forms, t := FinalForms(items), Target(items, items[i].lbl);
    assert Base(1) == 256 && Base(2) == 65536 && Base(4) == 0x1_0000_0000;
    FinalDistance(items, i);
    OffsetMonotone(items, forms, t, |items|);
    OffsetMonotone(items, forms, i, |items|);
    if forms[i] == Wide32 {
      OffsetMonotone(items, forms, i + 1, |items|);
    } else {
      EstimateInRange(items, i);
      if t > i {
        OffsetMonotone(items, forms, i, t);
      }
    }
  }

  lemma {:induction false} NoFarNoExcess(items: seq<Item>, lo: nat, hi: nat)
    requires AllWellFormed(items) && lo <= hi <= |items| && !FarBetween(items, FinalForms(items), lo, hi)
    ensures SumExcess(items, FinalForms(items), lo, hi) <= 0
    decreases hi
  {
    if lo < hi {
      var forms := FinalForms(items);
      NoFarNoExcess(items, lo, hi - 1);
      ChosenForms(items, hi - 1);
      ExcessOfForm(items[hi - 1], forms[hi - 1]);
    }
  }

  /** A branch is safe as soon as no conditional branch between it and its label took the far form. */
  lemma {:induction false} FitsWithoutFar(items: seq<Item>, i: nat)
    requires AllWellFormed(items) && Addressable(items) && i < |items| && items[i].Branch?
    requires !FarBetween(items, FinalForms(items), i + 1, Target(items, items[i].lbl))
    ensures OffsetFits(items, FinalForms(items), i)
  {
    var forms, t := FinalForms(items), Target(items, items[i].lbl);
    FitsExactly(items, i);
    if t > i && forms[i] != Wide32 {
      NoFarNoExcess(items, i, t);
      EstimateInRange(items, i);
      assert Base(1) == 256 && Base(2) == 65536;
    }
  }

  // ---------- small programs ----------

  function CountBranches(items: seq<Item>, k: nat): nat
    requires k <= |items|
  {
    if k == 0 then 0 else CountBranches(items, k - 1) + if items[k - 1].Branch? then 1 else 0
  }

  lemma {:induction false} CountMonotone(items: seq<Item>, j: nat, k: nat)
    requires j <= k <= |items|
    ensures CountBranches(items, j) <= CountBranches(items, k)
    decreases k
  {
    if j < k {
      CountMonotone(items, j, k - 1);
    }
  }

  lemma {:induction false} IncreaseBound(items: seq<Item>, lo: nat, hi: nat)
    requires lo <= hi <= |items|
    ensures SumIncrease(items, lo, hi) <= 3 * (CountBranches(items, hi) - CountBranches(items, lo))
    decreases hi
  {
    if lo < hi {
      IncreaseBound(items, lo, hi - 1);
    }
  }

  predicate Small(items: seq<Item>) {
    Offset(items, AllKeep(|items|), |items|) + 3 * CountBranches(items, |items|) <= 32767
  }

  /** While no branch has been given 32 bits, the processed part has grown by at most 3 bytes a branch. */
  lemma {:induction false} GrowthBound(items: seq<Item>, forms: seq<Form>, k: nat)
    requires AllWellFormed(items) && k <= |items| == |forms|
    requires forall j :: 0 <= j < k ==> forms[j] != Wide32
    ensures Offset(items, forms, k) <= Offset(items, AllKeep(|items|), k) + 3 * CountBranches(items, k)
  {
    if k > 0 {
      GrowthBound(items, forms, k - 1);
    }
  }

  lemma {:induction false} SmallEstimate(items: seq<Item>, i: nat)
    requires AllWellFormed(items) && Small(items) && i < |items| && items[i].Branch?
    requires forall j :: 0 <= j < i ==> Plan(items, i)[j] != Wide32
    ensures -32768 <= Estimate(items, Plan(items, i), i) <= 32767
  {
    var n, t, forms := |items|, Target(items, items[i].lbl), Plan(items, i);
    if t > i {
      UnprocessedShift(items, i, t);
      IncreaseBound(items, i, t);
      OffsetMonotone(items, AllKeep(n), t, n);
      CountMonotone(items, t, n);
      OffsetMonotone(items, forms, i, t);
    } else {
      GrowthBound(items, forms, i);
      OffsetMonotone(items, AllKeep(n), i, n);
      CountMonotone(items, i, n);
      OffsetMonotone(items, forms, t, i);
    }
  }

  lemma {:induction false} SmallNeverWide32(items: seq<Item>, d: nat)
    requires AllWellFormed(items) && Small(items) && d <= |items|
    ensures forall j :: 0 <= j < d ==> Plan(items, d)[j] != Wide32
  {
    if d > 0 {
      SmallNeverWide32(items, d - 1);
      if items[d - 1].Branch? {
        SmallEstimate(items, d - 1);
      }
    }
  }

  /** If the short code plus 3 bytes a branch stays within 32767 bytes, every offset fits. */
  lemma {:induction false} SmallFits(items: seq<Item>)
    requires AllWellFormed(items) && Small(items)
    ensures AllFit(items, FinalForms(items))
  {
    var forms := FinalForms(items);
    SmallNeverWide32(items, |items|);
    GrowthBound(items, forms, |items|);
    forall i | 0 <= i < |items| ensures OffsetFits(items, forms, i) {
      if items[i].Branch? {
        FitsWithoutFar(items, i);
      }
    }
  }

  /** So a small program, once built, runs like its source. */
  lemma {:induction false} SmallBuildsCorrectly<S(!new)>(m: Machine<S>, items: seq<Item>, s: S, end: Config<S>)
    requires AllWellFormed(items) && AllBound(items) && KnowsLengths(m, items) && Small(items) && !end.At?
    ensures SourceEnds(m, items, At(0, s), end) <==> CodeEnds(m, Linked(items), At(0, s), end)
  {
    SmallFits(items);
    SameOutcomes(m, items, FinalForms(items), s, end);
  }

  // ---------- programs whose offset is truncated ----------

  /** `jmp L0`, p one-byte instructions, `jeqz L1`, L0, q one-byte instructions, L1. */
  function Overrun(p: nat, q: nat): (items: seq<Item>)
    ensures |items| == p + q + 4
  {
    seq(p + q + 4, k =>
      if k == 0 then Branch(JmpImm8, 0, 0)
      else if k == p + 1 then Branch(JccImm8(Eqz), 0, 1)
      else if k == p + 2 then Bind(0)
      else if k == p + q + 3 then Bind(1)
      else Plain([0]))
  }

  lemma {:induction false} UnitOffsets(items: seq<Item>, forms: seq<Form>, lo: nat, hi: nat)
    requires lo <= hi <= |items| == |forms|
    requires forall k :: lo <= k < hi ==> items[k] == Plain([0])
    ensures Offset(items, forms, hi) == Offset(items, forms, lo) + (hi - lo)
    decreases hi
  {
    if lo < hi {
      UnitOffsets(items, forms, lo, hi - 1);
    }
  }

  lemma {:induction false} OverrunTargets(p: nat, q: nat)
    ensures Target(Overrun(p, q), 0) == p + 2 && Target(Overrun(p, q), 1) == p + q + 3
  {
    TargetIs(Overrun(p, q), p + 2);
    TargetIs(Overrun(p, q), p + q + 3);
  }

  lemma {:induction false} OverrunOffsets(p: nat, q: nat, forms: seq<Form>)
    requires |forms| == p + q + 4
    ensures var items := Overrun(p, q);
      && Offset(items, forms, 0) == 0
      && Offset(items, forms, p + 1) == Size(items[0], forms[0]) + p
      && Offset(items, forms, p + 2) == Offset(items, forms, p + 1) + Size(items[p + 1], forms[p + 1])
      && Offset(items, forms, p + q + 3) == Offset(items, forms, p + 2) + q
  {
    var items := Overrun(p, q);
    assert Offset(items, forms, 1) == Size(items[0], forms[0]);
    UnitOffsets(items, forms, 1, p + 1);
    assert Offset(items, forms, p + 3) == Offset(items, forms, p + 2);
    UnitOffsets(items, forms, p + 3, p + q + 3);
  }

  lemma {:induction false} OverrunIncrease(p: nat, q: nat)
    ensures SumIncrease(Overrun(p, q), 0, p + 2) == 4 && SumIncrease(Overrun(p, q), p + 1, p + q + 3) == 1
  {
    var items := Overrun(p, q);
    SumIncreaseSplit(items, 0, 1, p + 2);
    SumIncreaseSplit(items, 1, p + 1, p + 2);
    SumIncreaseSkip(items, 1, p + 1);
    SumIncreaseSplit(items, p + 1, p + 2, p + q + 3);
    SumIncreaseSkip(items, p + 2, p + q + 3);
    assert SumIncrease(items, 0, 1) == 3;
    assert SumIncrease(items, p + 1, p + 2) == 1;
  }

  /** The first jump is sized for p + 8 bytes, the second for q + 3. */
  lemma {:induction false} OverrunEstimates(p: nat, q: nat)
    ensures Estimate(Overrun(p, q), Plan(Overrun(p, q), 0), 0) == p + 8
    ensures Plan(Overrun(p, q), p + 1)[p + 1] == Keep
    ensures Estimate(Overrun(p, q), Plan(Overrun(p, q), p + 1), p + 1) == q + 3
  {
    var items := Overrun(p, q);
    hide Plan, Offset, Target, SumIncrease;
    OverrunTargets(p, q);
    OverrunIncrease(p, q);
    OverrunOffsets(p, q, Plan(items, 0));
    OverrunOffsets(p, q, Plan(items, p + 1));
  }

  lemma {:induction false} OverrunForms(p: nat, q: nat)
    requires 127 < p + 8 <= 32767 && q + 3 > 32767
    ensures FinalForms(Overrun(p, q))[0] == Wide16 && FinalForms(Overrun(p, q))[p + 1] == Wide32
  {
    hide Plan, Offset, Target, SumIncrease, Estimate;
    OverrunEstimates(p, q);
    ChosenAt(Overrun(p, q), 0);
    ChosenAt(Overrun(p, q), p + 1);
  }

  /**
    The build accepts these programs, but the far rewrite pushes L0 to p + 11 bytes from the first
    jump, which has 16 bits: for p = 32757, 32758, 32759 the stored offset is truncated.
   */
  lemma {:induction false} OverrunIsTruncated(p: nat, q: nat)
    requires 127 < p + 8 <= 32767 < p + 11 && q + 3 > 32767
    ensures var items := Overrun(p, q);
      && AllWellFormed(items) && BoundOnce(items) && AllBound(items)
      && Displacement(items, FinalForms(items), 0) == p + 11
      && !OffsetFits(items, FinalForms(items), 0)
  {
    var items := Overrun(p, q);
    var forms := FinalForms(items);
    OverrunForms(p, q);
    OverrunTargets(p, q);
    OverrunOffsets(p, q, forms);
    assert Base(2) == 65536;
    assert items[p + 2] == Bind(0) && items[p + q + 3] == Bind(1);
  }
}
