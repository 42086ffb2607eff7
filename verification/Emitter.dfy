/**
  The bytecode emitter. Branches are emitted in their shortest form with a zero offset; building
  widens them in one left-to-right pass over the mutated byte vector, moving the label cells as
  bytes are inserted, and then patches the offsets in.
 */
module Emitter {
  import opened Bytes
  import opened Isa
  import opened Layout

  datatype ErrorCode = Success | InternalError | UnboundLabels

  // ---------- ordered containers ----------

  /** Insertion into a map kept in key order; an existing key keeps its value. */
  function MapInsert(m: seq<(nat, Label)>, k: nat, v: Label): seq<(nat, Label)> {
    if m == [] || k < m[0].0 then [(k, v)] + m
    else if k == m[0].0 then m
    else [m[0]] + MapInsert(m[1..], k, v)
  }

  lemma {:induction false} MapInsertLast(m: seq<(nat, Label)>, k: nat, v: Label)
    requires forall j :: 0 <= j < |m| ==> m[j].0 < k
    ensures MapInsert(m, k, v) == m + [(k, v)]
  {
    if m != [] {
      MapInsertLast(m[1..], k, v);
    }
  }

  predicate SortedByPc(targets: seq<Label>, pcs: seq<nat>) {
    && (forall a :: 0 <= a < |targets| ==> targets[a] < |pcs|)
    && (forall a, b :: 0 <= a < b < |targets| ==> pcs[targets[a]] <= pcs[targets[b]])
  }

  predicate Distinct(targets: seq<Label>) {
    forall a, b :: 0 <= a < b < |targets| ==> targets[a] != targets[b]
  }

  /** The target set holds exactly the bound labels, each once, in pc order. */
  ghost predicate TargetsOk(items: seq<Item>, targets: seq<Label>, pcs: seq<nat>) {
    && SortedByPc(targets, pcs)
    && Distinct(targets)
    && (forall l :: l in targets <==> Bound(items, l))
  }

  /** Every label cell holds the offset of the position its label stands for. */
  ghost predicate CellsOk(items: seq<Item>, forms: seq<Form>, pcs: seq<nat>) {
    && |items| == |forms|
    && (forall l :: 0 <= l < |pcs| ==> pcs[l] == Offset(items, forms, Target(items, l)))
    && (forall k :: 0 <= k < |items| && items[k].Bind? ==> items[k].lbl < |pcs|)
    && (forall k :: 0 <= k < |items| && items[k].Branch? ==> items[k].lbl < |pcs|)
  }

  /** Some bound label has the same pc as l. */
  ghost predicate TargetAt(pcs: seq<nat>, targets: seq<Label>, l: Label) {
    && l < |pcs|
    && exists a :: 0 <= a < |targets| && targets[a] < |pcs| && pcs[targets[a]] == pcs[l]
  }

  /** What the emitter holds between emissions: the program in short form, nothing patched yet. */
  ghost predicate Emitted(
    items: seq<Item>, pc: nat, branches: seq<(nat, Label)>, targets: seq<Label>, pcs: seq<nat>, bytecode: seq<byte>)
  {
    var n := |items|;
    && AllWellFormed(items)
    && BoundOnce(items)
    && pc == Offset(items, AllKeep(n), n)
    && bytecode == Code(items, AllKeep(n), Zeros(n), 0, n)
    && branches == Sites(items, AllKeep(n), 0, n)
    && CellsOk(items, AllKeep(n), pcs)
    && TargetsOk(items, targets, pcs)
  }

  lemma {:induction false} CellsAppend(items: seq<Item>, it: Item, pcs: seq<nat>)
    requires !it.Bind? && CellsOk(items, AllKeep(|items|), pcs)
    requires it.Branch? ==> it.lbl < |pcs|
    ensures CellsOk(items + [it], AllKeep(|items| + 1), pcs)
  {
    forall l | 0 <= l < |pcs|
      ensures pcs[l] == Offset(items + [it], AllKeep(|items| + 1), Target(items + [it], l))
    {
      TargetExtend(items, it, l);
      OffsetExtend(items, it, Target(items, l));
    }
  }

  lemma {:induction false} EmittedAppend(
    items: seq<Item>, it: Item,
    pc: nat, branches: seq<(nat, Label)>, targets: seq<Label>, pcs: seq<nat>, bytecode: seq<byte>)
    requires Emitted(items, pc, branches, targets, pcs, bytecode)
    requires !it.Bind? && WellFormed(it) && (it.Branch? ==> it.lbl < |pcs|)
    ensures Emitted(items + [it], pc + Size(it, Keep),
                    branches + (if it.Branch? then [(pc, it.lbl)] else []),
                    targets, pcs, bytecode + Encode(it, Keep, 0))
  {
    CodeAppend(items, it);
    OffsetAppend(items, it);
    SitesAppend(items, it);
    CellsAppend(items, it, pcs);
    forall l ensures Bound(items + [it], l) <==> Bound(items, l) {
    }
  }

  lemma {:induction false} CellsBind(items: seq<Item>, l: Label, pcs: seq<nat>)
    requires l < |pcs| && !Bound(items, l) && CellsOk(items, AllKeep(|items|), pcs)
    ensures CellsOk(items + [Bind(l)], AllKeep(|items| + 1), pcs[l := Offset(items, AllKeep(|items|), |items|)])
  {
    var it := Bind(l);
    forall k | 0 <= k < |pcs|
      ensures pcs[l := Offset(items, AllKeep(|items|), |items|)][k]
           == Offset(items + [it], AllKeep(|items| + 1), Target(items + [it], k))
    {
      TargetExtend(items, it, k);
      OffsetExtend(items, it, Target(items, k));
      OffsetExtend(items, it, |items|);
    }
  }

  /** All bound labels lie at or before the current pc, so a freshly bound one goes last. */
  lemma {:induction false} TargetsBind(items: seq<Item>, l: Label, pc: nat, targets: seq<Label>, pcs: seq<nat>)
    requires pc == Offset(items, AllKeep(|items|), |items|)
    requires CellsOk(items, AllKeep(|items|), pcs) && TargetsOk(items, targets, pcs)
    requires l < |pcs| && !Bound(items, l)
    ensures SortedByPc(targets, pcs[l := pc])
    ensures forall a :: 0 <= a < |targets| ==> pcs[l := pc][targets[a]] <= pc
    ensures TargetsOk(items + [Bind(l)], targets + [l], pcs[l := pc])
  {
    forall a | 0 <= a < |targets|
      ensures targets[a] != l && pcs[targets[a]] <= pc
    {
      assert targets[a] in targets;
      OffsetMonotone(items, AllKeep(|items|), Target(items, targets[a]), |items|);
    }
    forall k ensures k in targets + [l] <==> Bound(items + [Bind(l)], k) {
    }
  }

  lemma {:induction false} EmittedBind(
    items: seq<Item>, l: Label,
    pc: nat, branches: seq<(nat, Label)>, targets: seq<Label>, pcs: seq<nat>, bytecode: seq<byte>)
    requires Emitted(items, pc, branches, targets, pcs, bytecode)
    requires l < |pcs| && !Bound(items, l)
    ensures Emitted(items + [Bind(l)], pc, branches, targets + [l], pcs[l := pc], bytecode)
  {
    var it := Bind(l);
    CodeAppend(items, it);
    OffsetAppend(items, it);
    SitesAppend(items, it);
    CellsBind(items, l, pcs);
    TargetsBind(items, l, pc, targets, pcs);
    assert BoundOnce(items + [it]) by {
      forall j | 0 <= j < |items| && items[j].Bind? ensures items[j].lbl != l {
        assert items[j] == Bind(items[j].lbl);
      }
    }
  }

  lemma {:induction false} NewSiteIsLast(items: seq<Item>, forms: seq<Form>, hi: nat, k: nat, v: Label)
    requires hi <= |items| == |forms| && Offset(items, forms, hi) <= k
    ensures MapInsert(Sites(items, forms, 0, hi), k, v) == Sites(items, forms, 0, hi) + [(k, v)]
  {
    var sites := Sites(items, forms, 0, hi);
    forall j | 0 <= j < |sites| ensures sites[j].0 < k {
      SitesRange(items, forms, 0, hi, j);
    }
    MapInsertLast(sites, k, v);
  }

  /** The relaxation loop, after the branches among the first d items were processed. */
  ghost predicate Reserving(
    items: seq<Item>, d: nat, bias: nat,
    branches: seq<(nat, Label)>, placed: seq<(nat, Label)>, targets: seq<Label>, pcs: seq<nat>, bytecode: seq<byte>)
  {
    var n := |items|;
    && d <= n
    && AllWellFormed(items)
    && bytecode == Code(items, Plan(items, d), Zeros(n), 0, n)
    && bias == Offset(items, Plan(items, d), d) - Offset(items, AllKeep(n), d)
    && branches == Sites(items, AllKeep(n), d, n)
    && placed == Sites(items, Plan(items, d), 0, d)
    && CellsOk(items, Plan(items, d), pcs)
    && TargetsOk(items, targets, pcs)
  }

  /** Items without a branch can be taken as processed. */
  lemma {:induction false} ReservingSkip(
    items: seq<Item>, d: nat, bias: nat,
    branches: seq<(nat, Label)>, placed: seq<(nat, Label)>, targets: seq<Label>, pcs: seq<nat>, bytecode: seq<byte>)
    requires Reserving(items, d, bias, branches, placed, targets, pcs, bytecode)
    ensures var b := NextBranch(items, d);
            && Reserving(items, b, bias, branches, placed, targets, pcs, bytecode)
            && (b == |items| <==> branches == [])
            && (b < |items| ==>
                  && branches[0] == (Offset(items, AllKeep(|items|), b), items[b].lbl)
                  && branches[1..] == Sites(items, AllKeep(|items|), b + 1, |items|))
  {
    var n, b := |items|, NextBranch(items, d);
    PlanSkip(items, d, b);
    UnprocessedShift(items, d, b);
    PlacedSkip(items, Plan(items, d), d, b);
    PendingSkip(items, d);
  }

  lemma {:induction false} PlacedSkip(items: seq<Item>, forms: seq<Form>, d: nat, b: nat)
    requires d <= b <= |items| == |forms| && forall k :: d <= k < b ==> !items[k].Branch?
    ensures Sites(items, forms, 0, b) == Sites(items, forms, 0, d)
  {
    SitesSkip(items, forms, d, b);
    SitesSplit(items, forms, 0, d, b);
  }

  lemma {:induction false} PendingSkip(items: seq<Item>, d: nat)
    requires d <= |items|
    ensures
      var n, b := |items|, NextBranch(items, d);
      && Sites(items, AllKeep(n), d, n) == Sites(items, AllKeep(n), b, n)
      && (b == n ==> Sites(items, AllKeep(n), d, n) == [])
      && (b < n ==> (Sites(items, AllKeep(n), d, n)
                     == [(Offset(items, AllKeep(n), b), items[b].lbl)] + Sites(items, AllKeep(n), b + 1, n)))
  {
    hide Size, Offset, Sites;
    var n, b := |items|, NextBranch(items, d);
    SitesNext(items, AllKeep(n), d);
    SitesSkip(items, AllKeep(n), d, b);
    SitesSplit(items, AllKeep(n), d, b, n);
  }

  /** The bytes of an unprocessed branch are still its short encoding. */
  lemma {:induction false} UnprocessedBytes(items: seq<Item>, d: nat, b: nat)
    requires d <= b < |items| && items[b].Branch?
    ensures
      var at, c := Offset(items, Plan(items, d), b), Code(items, Plan(items, d), Zeros(|items|), 0, |items|);
      && at + SizeByOpcode(items[b].op) <= |c|
      && c[at..at + SizeByOpcode(items[b].op)] == EncodeJump(items[b].op, items[b].reg, 0)
      && ParseOpcode(c[at]) == Some(items[b].op)
  {
    var n, forms := |items|, Plan(items, d);
    CodeAround(items, forms, Zeros(n), b);
    CodeLength(items, forms, Zeros(n), 0, b);
    ParseInvertsOpcodeByte(items[b].op);
    var at, c, e := Offset(items, forms, b), Code(items, forms, Zeros(n), 0, n),
      EncodeJump(items[b].op, items[b].reg, 0);
    assert Encode(items[b], forms[b], 0) == e;
    assert c[at..at + |e|] == e;
    assert c[at] == e[0];
  }

  lemma {:induction false} PendingAtLeast(items: seq<Item>, d: nat)
    requires d <= |items|
    ensures forall j :: 0 <= j < |Sites(items, AllKeep(|items|), d, |items|)| ==>
              Sites(items, AllKeep(|items|), d, |items|)[j].0 >= Offset(items, AllKeep(|items|), d)
  {
    var sites := Sites(items, AllKeep(|items|), d, |items|);
    forall j | 0 <= j < |sites| ensures sites[j].0 >= Offset(items, AllKeep(|items|), d) {
      SitesRange(items, AllKeep(|items|), d, |items|, j);
    }
  }

  /** Positions compare like indices, as far as a branch item is concerned. */
  lemma {:induction false} BranchOrder(items: seq<Item>, forms: seq<Form>, b: nat, t: nat)
    requires b < |items| == |forms| && t <= |items| && items[b].Branch?
    ensures Offset(items, forms, b) < Offset(items, forms, t) <==> b < t
  {
    if b < t {
      OffsetMonotone(items, forms, b, t);
    } else {
      OffsetMonotone(items, forms, t, b);
    }
  }

  /** One branch of the forward scan: it is counted exactly when it lies before the target. */
  lemma {:induction false} ScanStep(items: seq<Item>, d: nat, e: nat, t: nat)
    requires d <= e <= t <= |items|
    ensures
      var n, b := |items|, NextBranch(items, e);
      && (b < n && Offset(items, AllKeep(n), b) < Offset(items, AllKeep(n), t) ==>
            && b < t
            && SumIncrease(items, d, b + 1) == SumIncrease(items, d, e) + MaxIncrease(items[b].op))
      && (b == n || Offset(items, AllKeep(n), b) >= Offset(items, AllKeep(n), t) ==>
            SumIncrease(items, d, t) == SumIncrease(items, d, e))
  {
    var n, b := |items|, NextBranch(items, e);
    if b < n && b < t {
      BranchOrder(items, AllKeep(n), b, t);
      SumIncreaseSplit(items, d, e, b);
      SumIncreaseSkip(items, e, b);
    } else {
      if b < n {
        BranchOrder(items, AllKeep(n), b, t);
      }
      SumIncreaseSplit(items, d, e, t);
      SumIncreaseSkip(items, e, t);
    }
  }

  lemma {:induction false} PendingStep(
    items: seq<Item>, d: nat, e: nat, t: nat, bias: int, branches: seq<(nat, Label)>, p: nat)
    requires d <= e <= t <= |items| && p < |branches|
    requires branches[p..] == Sites(items, AllKeep(|items|), e, |items|)
    requires branches[p].0 < Offset(items, AllKeep(|items|), t)
    requires bias == Offset(items, Plan(items, d), d) - Offset(items, AllKeep(|items|), d)
    ensures
      var n, b := |items|, NextBranch(items, e);
      var c, at := Code(items, Plan(items, d), Zeros(n), 0, n), branches[p].0 + bias;
      && b < t
      && 0 <= at < |c| && ParseOpcode(c[at]) == Some(items[b].op)
      && SumIncrease(items, d, b + 1) == SumIncrease(items, d, e) + MaxIncrease(items[b].op)
      && branches[p + 1..] == Sites(items, AllKeep(n), b + 1, n)
  {
    PendingSkip(items, e);
    assert branches[p] == branches[p..][0] && branches[p + 1..] == branches[p..][1..];
    ScanStep(items, d, e, t);
    UnprocessedShift(items, d, NextBranch(items, e));
    UnprocessedBytes(items, d, NextBranch(items, e));
  }

  lemma {:induction false} PendingDone(items: seq<Item>, d: nat, e: nat, t: nat, branches: seq<(nat, Label)>, p: nat)
    requires d <= e <= t <= |items| && p <= |branches|
    requires branches[p..] == Sites(items, AllKeep(|items|), e, |items|)
    requires p == |branches| || branches[p].0 >= Offset(items, AllKeep(|items|), t)
    ensures SumIncrease(items, d, e) == SumIncrease(items, d, t)
  {
    PendingSkip(items, e);
    assert p < |branches| ==> branches[p] == branches[p..][0];
    ScanStep(items, d, e, t);
  }

  /** Inserting bytes behind branch d moves exactly the labels behind it. */
  lemma {:induction false} CellsGrow(
    items: seq<Item>, forms: seq<Form>, d: nat, form: Form, extra: int, targets: seq<Label>, pcs: seq<nat>,
    pcs': seq<nat>)
    requires d < |items| == |forms| && items[d].Branch?
    requires CellsOk(items, forms, pcs) && TargetsOk(items, targets, pcs)
    requires extra == Size(items[d], form) - Size(items[d], forms[d])
    requires |pcs'| == |pcs|
    requires forall l :: 0 <= l < |pcs| ==>
               pcs'[l] == pcs[l] + if l in targets && pcs[l] > Offset(items, forms, d) then extra else 0
    ensures CellsOk(items, forms[d := form], pcs')
  {
    forall l | 0 <= l < |pcs|
      ensures pcs'[l] == Offset(items, forms[d := form], Target(items, l))
    {
      OffsetUpdate(items, forms, d, form, Target(items, l));
      BranchOrder(items, forms, d, Target(items, l));
    }
  }

  lemma {:induction false} SortedCells(
    items: seq<Item>, targets: seq<Label>, pcs: seq<nat>, pcs': seq<nat>, at: nat, extra: nat)
    requires TargetsOk(items, targets, pcs) && |pcs'| == |pcs|
    requires forall l :: 0 <= l < |pcs| ==> pcs'[l] == pcs[l] + if l in targets && pcs[l] > at then extra else 0
    ensures TargetsOk(items, targets, pcs')
  {
  }

  /** Processing branch d: its bytes are replaced in place and everything behind it is shifted. */
  lemma {:induction false} ReservingStep(
    items: seq<Item>, d: nat, bias: nat,
    branches: seq<(nat, Label)>, placed: seq<(nat, Label)>, targets: seq<Label>, pcs: seq<nat>, bytecode: seq<byte>,
    form: Form, extra: nat, pcs': seq<nat>, bytecode': seq<byte>)
    requires Reserving(items, d, bias, branches, placed, targets, pcs, bytecode)
    requires d < |items| && items[d].Branch?
    requires Plan(items, d + 1) == Plan(items, d)[d := form]
    requires extra == Size(items[d], form) - Size(items[d], Keep)
    requires CellsOk(items, Plan(items, d)[d := form], pcs') && TargetsOk(items, targets, pcs')
    requires bytecode' == Code(items, Plan(items, d)[d := form], Zeros(|items|), 0, |items|)
    ensures Reserving(items, d + 1, bias + extra, Sites(items, AllKeep(|items|), d + 1, |items|),
                      placed + [(Offset(items, Plan(items, d), d) + CarrierDelta(items[d], form), items[d].lbl)],
                      targets, pcs', bytecode')
  {
    hide Size, Encode, Offset, Code, Sites, Plan, Target, CellsOk, TargetsOk;
    OffsetStep(items, Plan(items, d), d, form);
    SitesStep(items, Plan(items, d), d, form);
  }

  lemma {:induction false} PlanStep(items: seq<Item>, d: nat)
    requires d < |items| && items[d].Branch?
    ensures Plan(items, d + 1)
         == Plan(items, d)[d := ChooseForm(items[d].op, BitLengthSigned(Estimate(items, Plan(items, d), d)))]
  {
  }

  lemma {:induction false} OffsetStep(items: seq<Item>, forms: seq<Form>, d: nat, form: Form)
    requires d < |items| == |forms|
    ensures Offset(items, forms[d := form], d) == Offset(items, forms, d)
    ensures Offset(items, forms[d := form], d + 1) == Offset(items, forms, d) + Size(items[d], form)
    ensures Offset(items, AllKeep(|items|), d + 1) == Offset(items, AllKeep(|items|), d) + Size(items[d], Keep)
  {
    OffsetUpdate(items, forms, d, form, d);
  }

  lemma {:induction false} SitesStep(items: seq<Item>, forms: seq<Form>, d: nat, form: Form)
    requires d < |items| == |forms| && items[d].Branch?
    ensures Sites(items, forms[d := form], 0, d + 1)
         == Sites(items, forms, 0, d) + [(Offset(items, forms, d) + CarrierDelta(items[d], form), items[d].lbl)]
  {
    SitesFrame(items, forms, forms[d := form], d);
  }

  lemma {:induction false} ReplacedCode(
    items: seq<Item>, forms: seq<Form>, d: nat, form: Form, bytecode: seq<byte>, bytecode': seq<byte>)
    requires d < |items| == |forms|
    requires bytecode == Code(items, forms, Zeros(|items|), 0, |items|)
    requires var at := Offset(items, forms, d);
             && at + Size(items[d], forms[d]) <= |bytecode|
             && bytecode' == bytecode[..at] + Encode(items[d], form, 0) + bytecode[at + Size(items[d], forms[d])..]
    ensures bytecode' == Code(items, forms[d := form], Zeros(|items|), 0, |items|)
  {
    hide Size, Encode, Code, Offset;
    var n := |items|;
    CodeAround(items, forms, Zeros(n), d);
    CodeUpdate(items, forms, Zeros(n), d, form, 0);
    assert Zeros(n)[d := 0] == Zeros(n);
    CodeLength(items, forms, Zeros(n), 0, d);
    OffsetZero(items, forms);
    var at, before, after := Offset(items, forms, d), Code(items, forms, Zeros(n), 0, d),
      Code(items, forms, Zeros(n), d + 1, n);
    assert bytecode[..at] == before;
    assert bytecode[at + Size(items[d], forms[d])..] == after;
  }

  /** The state in which branch b, the first one left, is looked at. */
  lemma {:induction false} AtBranch(
    items: seq<Item>, b: nat, bias: nat,
    branches: seq<(nat, Label)>, placed: seq<(nat, Label)>, targets: seq<Label>, pcs: seq<nat>, bytecode: seq<byte>)
    requires Reserving(items, b, bias, branches, placed, targets, pcs, bytecode)
    requires b < |items| && items[b].Branch?
    requires branches != [] && branches[0] == (Offset(items, AllKeep(|items|), b), items[b].lbl)
    ensures
      var at, it := branches[0].0 + bias, items[b];
      && at == Offset(items, Plan(items, b), b)
      && it.lbl < |pcs| && pcs[it.lbl] == Offset(items, Plan(items, b), Target(items, it.lbl))
      && at + SizeByOpcode(it.op) <= |bytecode|
      && bytecode[at..at + SizeByOpcode(it.op)] == EncodeJump(it.op, it.reg, 0)
      && ParseOpcode(bytecode[at]) == Some(it.op)
      && WellFormed(it)
    ensures SortedByPc(targets, pcs) && Distinct(targets)
    ensures placed == Sites(items, Plan(items, b), 0, b)
  {
    hide Size, Encode, Offset, Code, Sites, Plan, Target;
    UnprocessedBytes(items, b, b);
  }

  /** A patched offset changes only the bytes of the instruction that carries it. */
  lemma {:induction false} CarrierInside(it: Item, form: Form, imm: int)
    requires it.Branch?
    ensures var op, at := CarrierOp(it.op, form), CarrierDelta(it, form);
            && at + SizeByOpcode(op) == Size(it, form)
            && ParseOpcode(Encode(it, form, imm)[at]) == Some(op)
            && (RegBytes(op) == 1 ==> Encode(it, form, imm)[at + 1] == it.reg)
            && (forall x, r: byte :: (RegBytes(op) == 1 ==> r == it.reg) ==>
                  Encode(it, form, x) == Encode(it, form, imm)[..at] + EncodeJump(op, r, x))
  {
    ParseInvertsOpcodeByte(CarrierOp(it.op, form));
  }

  lemma {:induction false} PatchStep(items: seq<Item>, forms: seq<Form>, imms: seq<int>, b: nat, x: int)
    requires b < |items| == |forms| == |imms| && items[b].Branch?
    ensures
      var n, op := |items|, CarrierOp(items[b].op, forms[b]);
      var c, at := Code(items, forms, imms, 0, n), Site(items, forms, b).0;
      && at + SizeByOpcode(op) <= |c|
      && ParseOpcode(c[at]) == Some(op)
      && (RegBytes(op) == 1 ==> c[at + 1] == items[b].reg)
      && (forall r: byte :: (RegBytes(op) == 1 ==> r == items[b].reg) ==>
            Code(items, forms, imms[b := x], 0, n)
            == c[..at] + EncodeJump(op, r, x) + c[at + SizeByOpcode(op)..])
  {
    hide Size, Encode, Offset, Code, CarrierDelta, CarrierOp;
    var n, op := |items|, CarrierOp(items[b].op, forms[b]);
    CodeAround(items, forms, imms, b);
    CodeUpdate(items, forms, imms, b, forms[b], x);
    assert forms[b := forms[b]] == forms;
    CodeLength(items, forms, imms, 0, b);
    OffsetZero(items, forms);
    CarrierInside(items[b], forms[b], imms[b]);
    var c, at := Code(items, forms, imms, 0, n), Site(items, forms, b).0;
    var before, e, after := Code(items, forms, imms, 0, b), Encode(items[b], forms[b], imms[b]),
      Code(items, forms, imms, b + 1, n);
    assert c[..at] == before + e[..CarrierDelta(items[b], forms[b])];
    assert c[at + SizeByOpcode(op)..] == after;
    assert c[at] == e[CarrierDelta(items[b], forms[b])];
  }

  lemma {:induction false} WideJmpBytes(wide: Opcode, reg: byte)
    requires wide.JmpImm16? || wide.JmpImm32?
    ensures EncodeJump(JmpImm8, reg, 0) == [OpcodeByte(JmpImm8), 0]
    ensures EncodeJump(wide, reg, 0) == [OpcodeByte(wide), 0] + ZeroBytes(SizeByOpcode(wide) - 2)
  {
    EncodeZero(1);
    EncodeZero(ImmBytes(wide));
  }

  lemma {:induction false} WidenedEncoding(op: Opcode, expected: BitImmSize, it: Item)
    requires it.Branch? && it.op == op && !op.JmpImm16? && Rank(expected) > Rank(BitImmSizeByOpcode(op))
    ensures var form := ChooseForm(op, expected);
      && (op.JmpImm8? ==>
            var wide := if expected == Bits16 then JmpImm16 else JmpImm32;
            && Encode(it, form, 0) == EncodeJump(wide, it.reg, 0)
            && CarrierDelta(it, form) == 0)
      && (IsConditional(op) && expected == Bits32 ==>
            && Encode(it, form, 0) == FarPair(op.cond, it.reg, 0)
            && CarrierDelta(it, form) == SizeByOpcode(JccImm16(op.cond)))
      && (IsConditional(op) && expected != Bits32 ==>
            Encode(it, form, 0) == EncodeJump(JccImm16(op.cond), it.reg, 0) && CarrierDelta(it, form) == 0)
      && Size(it, Keep) == SizeByOpcode(op)
      && Size(it, form) > Size(it, Keep)
      && (op.JmpImm8? || IsConditional(op))
  {
  }

  /** Inverting and widening a conditional jump keeps its size class and its register. */
  lemma {:induction false} JccBytes(op: Opcode, reg: byte, r: byte, bytes: seq<byte>)
    requires IsConditional(op) && bytes == EncodeJump(op, reg, 0)
    requires r == if RegBytes(op) == 1 then bytes[1] else 0
    ensures SizeByOpcode(JccImm16(RevertConditionCode(op.cond))) == SizeByOpcode(JccImm16(op.cond))
    ensures SizeByOpcode(op) <= SizeByOpcode(JccImm16(op.cond))
    ensures forall x :: EncodeJump(JccImm16(op.cond), r, x) == EncodeJump(JccImm16(op.cond), reg, x)
    ensures forall x :: EncodeJump(JccImm16(RevertConditionCode(op.cond)), r, x)
                     == EncodeJump(JccImm16(RevertConditionCode(op.cond)), reg, x)
  {
    RevertKeepsRegister(op.cond);
  }

  /** Inserting room behind an instruction and overwriting it replaces its bytes. */
  lemma {:induction false} ReplaceBytes(c: seq<byte>, at: nat, size: nat, room: seq<byte>, e: seq<byte>)
    requires at + size <= |c| && |e| == size + |room|
    ensures var c1 := c[..at + size] + room + c[at + size..];
            c1[..at] + e + c1[at + |e|..] == c[..at] + e + c[at + size..]
  {
    var c1 := c[..at + size] + room + c[at + size..];
    assert c1[..at] == c[..at];
    assert c1[at + |e|..] == c[at + size..];
  }

  lemma {:induction false} ReplaceBytesTwice(
    c: seq<byte>, at: nat, size: nat, room: seq<byte>, e1: seq<byte>, e2: seq<byte>)
    requires at + size <= |c| && |e1| + |e2| == size + |room|
    ensures var c1 := c[..at + size] + room + c[at + size..];
            var c2 := c1[..at] + e1 + c1[at + |e1|..];
            c2[..at + |e1|] + e2 + c2[at + |e1| + |e2|..] == c[..at] + (e1 + e2) + c[at + size..]
  {
    var c1 := c[..at + size] + room + c[at + size..];
    var c2 := c1[..at] + e1 + c1[at + |e1|..];
    assert c2[..at + |e1|] == c[..at] + e1;
    assert c2[at + |e1| + |e2|..] == c[at + size..];
  }

  /** Keeping a branch as it is, or replacing its bytes, both give the code of the next plan. */
  lemma {:induction false} ChosenCode(items: seq<Item>, d: nat, form: Form, bytecode: seq<byte>, bytecode': seq<byte>)
    requires d < |items| && items[d].Branch?
    requires bytecode == Code(items, Plan(items, d), Zeros(|items|), 0, |items|)
    requires var at := Offset(items, Plan(items, d), d);
             && at + SizeByOpcode(items[d].op) <= |bytecode|
             && if form == Keep then bytecode' == bytecode
                else
                  bytecode' == bytecode[..at] + Encode(items[d], form, 0) + bytecode[at + SizeByOpcode(items[d].op)..]
    ensures bytecode' == Code(items, Plan(items, d)[d := form], Zeros(|items|), 0, |items|)
  {
    assert Size(items[d], Keep) == SizeByOpcode(items[d].op);
    hide Size, Encode, Code, Offset, Plan;
    if form == Keep {
      assert Plan(items, d)[d := Keep] == Plan(items, d);
    } else {
      ReplacedCode(items, Plan(items, d), d, form, bytecode, bytecode');
    }
  }

  /** The state between the two passes. */
  ghost predicate Reserved(
    items: seq<Item>, branches: seq<(nat, Label)>, pcs: seq<nat>, bytecode: seq<byte>)
  {
    && branches == Sites(items, FinalForms(items), 0, |items|)
    && bytecode == Code(items, FinalForms(items), Zeros(|items|), 0, |items|)
    && CellsOk(items, FinalForms(items), pcs)
  }

  /** Offsets written so far: those of the branches among the first e items. */
  function Patched(items: seq<Item>, forms: seq<Form>, e: nat): (imms: seq<int>)
    requires e <= |items| == |forms|
    ensures |imms| == |items|
  {
    seq(|items|, i requires 0 <= i < |items| => if i < e then Displacement(items, forms, i) else 0)
  }

  lemma {:induction false} PatchedStep(items: seq<Item>, forms: seq<Form>, e: nat)
    requires e <= |items| == |forms|
    ensures
      var n, b := |items|, NextBranch(items, e);
      && (b < n ==> Patched(items, forms, b + 1) == Patched(items, forms, e)[b := Displacement(items, forms, b)])
      && (b == n ==> Patched(items, forms, e) == Displacements(items, forms))
  {
    var n, b := |items|, NextBranch(items, e);
    hide Offset, CarrierDelta;
    if b == n {
      assert forall i :: e <= i < n ==> !items[i].Branch? && Displacement(items, forms, i) == 0;
    } else {
      assert forall i :: e <= i < b ==> !items[i].Branch? && Displacement(items, forms, i) == 0;
    }
  }

  lemma {:induction false} StartReserving(
    items: seq<Item>, pc: nat, branches: seq<(nat, Label)>, targets: seq<Label>, pcs: seq<nat>, bytecode: seq<byte>)
    requires Emitted(items, pc, branches, targets, pcs, bytecode)
    ensures Reserving(items, 0, 0, branches, [], targets, pcs, bytecode)
  {
    assert Plan(items, 0) == AllKeep(|items|);
  }

  lemma {:induction false} FinishReserving(
    items: seq<Item>, d: nat, bias: nat,
    branches: seq<(nat, Label)>, placed: seq<(nat, Label)>, targets: seq<Label>, pcs: seq<nat>, bytecode: seq<byte>)
    requires Reserving(items, d, bias, branches, placed, targets, pcs, bytecode)
    requires branches == []
    ensures Reserved(items, placed, pcs, bytecode)
  {
    hide Size, Encode, Offset, Code, Sites, Plan, Target, CellsOk;
    ReservingSkip(items, d, bias, branches, placed, targets, pcs, bytecode);
  }

  lemma {:induction false} KeptInPlace(it: Item)
    ensures CarrierDelta(it, Keep) == 0
  {
  }

  lemma {:induction false} StartPatching(items: seq<Item>, forms: seq<Form>)
    requires |items| == |forms|
    ensures Patched(items, forms, 0) == Zeros(|items|)
  {
  }

  /** Something is bound before the first byte of code. */
  ghost predicate BoundAtStart(items: seq<Item>) {
    exists k :: 0 <= k < |items| && items[k].Bind? && Offset(items, AllKeep(|items|), k) == 0
  }

  ghost predicate UsedAreBound(items: seq<Item>) {
    forall l :: Used(items, l) ==> Bound(items, l)
  }

  lemma {:induction false} TargetAtExactly(
    items: seq<Item>, pc: nat, branches: seq<(nat, Label)>, targets: seq<Label>, pcs: seq<nat>, bytecode: seq<byte>,
    l: Label)
    requires Emitted(items, pc, branches, targets, pcs, bytecode) && Used(items, l)
    ensures TargetAt(pcs, targets, l) <==> Bound(items, l) || BoundAtStart(items)
  {
    hide Code, Sites, Offset;
    assert l < |pcs|;
    if Bound(items, l) {
      assert l in targets;
    } else {
      OffsetZero(items, AllKeep(|items|));
      assert pcs[l] == 0;
      if TargetAt(pcs, targets, l) {
        var a :| 0 <= a < |targets| && pcs[targets[a]] == 0;
        var b := targets[a];
        assert b in targets;
        assert items[Target(items, b)] == Bind(b);
      }
      if BoundAtStart(items) {
        var k :| 0 <= k < |items| && items[k].Bind? && Offset(items, AllKeep(|items|), k) == 0;
        TargetIs(items, k);
        assert items[k] == Bind(items[k].lbl);
        assert items[k].lbl in targets;
      }
    }
  }

  /**
    The label check accepts a branch to a label that was never bound, as soon as some other label is
    bound before the first byte: it rejects a program if and only if a used label is unbound and
    nothing is bound at the start.
   */
  lemma {:induction false} UnboundDetectedExactly(
    items: seq<Item>, pc: nat, branches: seq<(nat, Label)>, targets: seq<Label>, pcs: seq<nat>, bytecode: seq<byte>)
    requires Emitted(items, pc, branches, targets, pcs, bytecode)
    ensures (forall l :: Used(items, l) ==> TargetAt(pcs, targets, l)) <==> UsedAreBound(items) || BoundAtStart(items)
  {
    hide Emitted, BoundAtStart, Bound, TargetAt, Used;
    forall l | Used(items, l) ensures TargetAt(pcs, targets, l) <==> Bound(items, l) || BoundAtStart(items) {
      TargetAtExactly(items, pc, branches, targets, pcs, bytecode, l);
    }
  }

  class Emitter {
    var pc: nat
    var branches: seq<(nat, Label)>
    var targets: seq<Label>
    var pcs: seq<nat>
    var bytecode: seq<byte>
    ghost var items: seq<Item>

    ghost predicate Valid()
      reads this
    {
      Emitted(items, pc, branches, targets, pcs, bytecode)
    }

    constructor ()
      ensures Valid() && items == [] && pcs == []
    {
      pc, branches, targets, pcs, bytecode, items := 0, [], [], [], [], [];
    }

    method CreateLabel() returns (l: Label)
      requires Valid()
      modifies this`pcs
      ensures Valid() && l == |old(pcs)| && pcs == old(pcs) + [0]
      ensures !Bound(items, l)
    {
      l := |pcs|;
      pcs := pcs + [0];
    }

    /** Multiset insertion: after every label whose pc is not greater. */
    method InsertTarget(l: Label) returns (p: nat)
      requires l < |pcs| && SortedByPc(targets, pcs)
      modifies this`targets
      ensures p <= |old(targets)| && targets == old(targets)[..p] + [l] + old(targets)[p..]
      ensures p == |old(targets)| <==> forall a :: 0 <= a < |old(targets)| ==> pcs[old(targets)[a]] <= pcs[l]
      ensures SortedByPc(targets, pcs)
    {
      p := UpperBound(pcs[l]);
      targets := targets[..p] + [l] + targets[p..];
    }

    method UpperBound(key: nat) returns (p: nat)
      requires SortedByPc(targets, pcs)
      ensures p <= |targets|
      ensures forall a :: 0 <= a < p ==> pcs[targets[a]] <= key
      ensures p < |targets| ==> pcs[targets[p]] > key
      ensures forall a :: p <= a < |targets| ==> pcs[targets[a]] > key
    {
      p := 0;
      while p < |targets| && pcs[targets[p]] <= key
        invariant p <= |targets|
        invariant forall a :: 0 <= a < p ==> pcs[targets[a]] <= key
      {
        p := p + 1;
      }
    }

    method Bind(l: Label)
      requires Valid() && l < |pcs| && !Bound(items, l)
      modifies this
      ensures Valid() && items == old(items) + [Layout.Bind(l)]
      ensures |pcs| == |old(pcs)|
    {
      hide Size, Encode, Offset, Code, Sites, Plan, Target;
      TargetsBind(items, l, pc, targets, pcs);
      EmittedBind(items, l, pc, branches, targets, pcs, bytecode);
      pcs := pcs[l := pc];
      var p := InsertTarget(l);
      assert targets == old(targets) + [l];
      items := items + [Layout.Bind(l)];
    }

    /** Any instruction that is not a jump. */
    method Plain(b: seq<byte>)
      requires Valid() && |b| > 0 && ParseOpcode(b[0]).None?
      modifies this
      ensures Valid() && items == old(items) + [Layout.Plain(b)] && pcs == old(pcs)
    {
      hide Offset, Code, Sites, Plan, Target;
      EmittedAppend(items, Layout.Plain(b), pc, branches, targets, pcs, bytecode);
      bytecode := bytecode + b;
      pc := pc + |b|;
      items := items + [Layout.Plain(b)];
    }

    method EmitBranch(op: Opcode, reg: byte, l: Label)
      requires Valid() && l < |pcs| && WellFormed(Branch(op, reg, l))
      modifies this
      ensures Valid() && items == old(items) + [Branch(op, reg, l)] && pcs == old(pcs)
    {
      hide Offset, Code, Sites, Plan, Target;
      NewSiteIsLast(items, AllKeep(|items|), |items|, pc, l);
      EmittedAppend(items, Branch(op, reg, l), pc, branches, targets, pcs, bytecode);
      branches := MapInsert(branches, pc, l);
      var b := EncodeJump(op, reg, 0);
      bytecode := bytecode + b;
      pc := pc + |b|;
      items := items + [Branch(op, reg, l)];
    }

    method Jmp(l: Label)
      requires Valid() && l < |pcs|
      modifies this
      ensures Valid() && items == old(items) + [Branch(JmpImm8, 0, l)] && pcs == old(pcs)
    {
      EmitBranch(JmpImm8, 0, l);
    }

    method Jcmp(short: Opcode, long: Opcode, reg: byte, l: Label)
      requires Valid() && l < |pcs|
      requires IsConditional(short) && ReadsRegister(short.cond)
      requires long.JccImm16? && ReadsRegister(long.cond)
      modifies this
      ensures Valid() && pcs == old(pcs)
      ensures items == old(items) + [Branch(if short.JccImm8? then short else long, reg, l)]
    {
      if BitImmSizeByOpcode(short) == Bits8 {
        EmitBranch(short, reg, l);
      } else {
        EmitBranch(long, reg, l);
      }
    }

    method Jcmpz(op: Opcode, l: Label)
      requires Valid() && l < |pcs|
      requires op.JccImm8? && !ReadsRegister(op.cond)
      modifies this
      ensures Valid() && items == old(items) + [Branch(op, 0, l)] && pcs == old(pcs)
    {
      EmitBranch(op, 0, l);
    }

    // ---------- building ----------

    /** Labels are looked up by pc: any bound label at the same pc will do. */
    method CheckLabels() returns (res: ErrorCode)
      requires Valid()
      ensures res == if forall l :: Used(items, l) ==> TargetAt(pcs, targets, l) then Success else UnboundLabels
    {
      hide Size, Encode, Offset, Code, Sites, Plan, Target;
      SitesLabels(items, AllKeep(|items|), |items|);
      for j := 0 to |branches|
        invariant forall i :: 0 <= i < j ==> TargetAt(pcs, targets, branches[i].1)
      {
        assert Used(items, branches[j].1);
        var found := FindTarget(branches[j].1);
        if !found {
          return UnboundLabels;
        }
      }
      return Success;
    }

    method FindTarget(l: Label) returns (found: bool)
      requires l < |pcs| && SortedByPc(targets, pcs)
      ensures found == TargetAt(pcs, targets, l)
    {
      for a := 0 to |targets|
        invariant forall b :: 0 <= b < a ==> pcs[targets[b]] != pcs[l]
      {
        if pcs[targets[a]] == pcs[l] {
          return true;
        }
      }
      return false;
    }

    method LowerBound(key: int) returns (p: nat)
      ensures p <= |branches|
      ensures forall a :: 0 <= a < p ==> branches[a].0 < key
      ensures p < |branches| ==> branches[p].0 >= key
    {
      p := 0;
      while p < |branches| && branches[p].0 < key
        invariant p <= |branches|
        invariant forall a :: 0 <= a < p ==> branches[a].0 < key
      {
        p := p + 1;
      }
    }

    /** Adds up the assumed growth of the pending branches from p on that lie before endPc. */
    method PendingIncrease(p0: nat, endPc: int, bias: nat, ghost d: nat, ghost t: nat) returns (sum: nat)
      requires d <= t <= |items| && endPc == Offset(items, AllKeep(|items|), t)
      requires bytecode == Code(items, Plan(items, d), Zeros(|items|), 0, |items|)
      requires branches == Sites(items, AllKeep(|items|), d, |items|)
      requires bias == Offset(items, Plan(items, d), d) - Offset(items, AllKeep(|items|), d)
      requires p0 <= |branches| && (p0 == 0 || t == d)
      ensures sum == SumIncrease(items, d, t)
    {
      hide Size, Encode, Offset, Code, Sites, Plan, Target;
      PendingAtLeast(items, d);
      sum := 0;
      var p := p0;
      ghost var e := d;
      while p < |branches| && branches[p].0 < endPc
        invariant p <= |branches| && d <= e <= t
        invariant t > d ==> branches[p..] == Sites(items, AllKeep(|items|), e, |items|)
        invariant sum == SumIncrease(items, d, e)
        decreases |branches| - p
      {
        PendingStep(items, d, e, t, bias, branches, p);
        var op := ParseOpcode(bytecode[branches[p].0 + bias]);
        sum := sum + MaxIncrease(op.value);
        p, e := p + 1, NextBranch(items, e) + 1;
      }
      if t > d {
        PendingDone(items, d, e, t, branches, p);
      }
    }

    /**
      Positions are 32-bit in the source, so the lower bound of the backward scan may wrap; every
      branch that is left lies at or after the current one, so the scan adds nothing either way.
     */
    method EstimateMaxDistance(insnPc: nat, targetPc: nat, bias: nat, ghost d: nat, ghost placed: seq<(nat, Label)>)
      returns (distance: int)
      requires Reserving(items, d, bias, branches, placed, targets, pcs, bytecode)
      requires d < |items| && items[d].Branch?
      requires insnPc == Offset(items, Plan(items, d), d)
      requires targetPc == Offset(items, Plan(items, d), Target(items, items[d].lbl))
      ensures distance == Estimate(items, Plan(items, d), d)
    {
      hide Size, Encode, Offset, Code, Sites, Plan;
      ghost var t := Target(items, items[d].lbl);
      BranchOrder(items, Plan(items, d), d, t);
      PendingAtLeast(items, d);
      var sum := 0;
      if targetPc > insnPc {
        UnprocessedShift(items, d, t);
        var p := LowerBound(insnPc - bias);
        assert |branches| > 0 ==> branches[0].0 >= insnPc - bias;
        sum := PendingIncrease(p, targetPc - bias, bias, d, t);
      } else if targetPc < insnPc {
        var p := LowerBound((targetPc - bias) % 0x1_0000_0000);
        sum := PendingIncrease(p, insnPc - bias, bias, d, d);
      }
      distance := targetPc - insnPc + sum;
    }

    /** Takes the labels from position k on out of the set and moves their cells. */
    method TakeTargets(k: nat, bias: nat) returns (updated: seq<Label>)
      requires SortedByPc(targets, pcs) && Distinct(targets) && k <= |targets|
      modifies this`targets, this`pcs
      ensures targets == old(targets)[..k] && updated == old(targets)[k..]
      ensures |pcs| == |old(pcs)|
      ensures forall a :: 0 <= a < |old(targets)| ==>
                pcs[old(targets)[a]] == old(pcs)[old(targets)[a]] + if a >= k then bias else 0
      ensures forall l :: 0 <= l < |pcs| && l !in old(targets) ==> pcs[l] == old(pcs)[l]
    {
      ghost var all := targets;
      updated := [];
      while k < |targets|
        invariant k + |updated| <= |all|
        invariant targets == all[..k] + all[k + |updated|..] && updated == all[k..k + |updated|]
        invariant |pcs| == |old(pcs)|
        invariant forall a :: 0 <= a < |all| ==>
                    pcs[all[a]] == old(pcs)[all[a]] + if k <= a < k + |updated| then bias else 0
        invariant forall l :: 0 <= l < |pcs| && l !in all ==> pcs[l] == old(pcs)[l]
        decreases |targets|
      {
        var l := targets[k];
        assert l == all[k + |updated|];
        targets := targets[..k] + targets[k + 1..];
        pcs := pcs[l := pcs[l] + bias];
        updated := updated + [l];
      }
    }

    /** Puts labels back whose pcs are not below any pc in the set. */
    method PutTargets(updated: seq<Label>)
      requires SortedByPc(targets + updated, pcs)
      modifies this`targets
      ensures targets == old(targets) + updated
    {
      for i := 0 to |updated|
        invariant targets == old(targets) + updated[..i]
      {
        assert forall a :: 0 <= a < |targets| ==> targets[a] == (old(targets) + updated)[a];
        assert updated[i] == (old(targets) + updated)[|old(targets)| + i];
        var p := InsertTarget(updated[i]);
      }
      assert updated[..|updated|] == updated;
    }

    method UpdateLabelTargets(at: nat, bias: nat)
      requires SortedByPc(targets, pcs) && Distinct(targets)
      modifies this`targets, this`pcs
      ensures targets == old(targets) && |pcs| == |old(pcs)|
      ensures forall l :: 0 <= l < |pcs| ==>
                pcs[l] == old(pcs)[l] + if l in targets && old(pcs)[l] > at then bias else 0
      ensures SortedByPc(targets, pcs)
    {
      ghost var all := targets;
      var k := UpperBound(at);
      var updated := TakeTargets(k, bias);
      assert targets + updated == all;
      assert SortedByPc(all, pcs);
      PutTargets(updated);
    }

    method InsertZeros(at: nat, n: nat)
      requires at <= |bytecode|
      modifies this`bytecode
      ensures bytecode == old(bytecode)[..at] + ZeroBytes(n) + old(bytecode)[at..]
    {
      bytecode := bytecode[..at] + ZeroBytes(n) + bytecode[at..];
    }

    method Overwrite(at: nat, b: seq<byte>)
      requires at + |b| <= |bytecode|
      modifies this`bytecode
      ensures bytecode == old(bytecode)[..at] + b + old(bytecode)[at + |b|..]
    {
      bytecode := bytecode[..at] + b + bytecode[at + |b|..];
    }

    method WidenJmp(insnPc: nat, wide: Opcode, ghost reg: byte) returns (extra: nat)
      requires wide.JmpImm16? || wide.JmpImm32?
      requires insnPc + 2 <= |bytecode| && bytecode[insnPc..insnPc + 2] == EncodeJump(JmpImm8, reg, 0)
      modifies this`bytecode
      ensures extra == SizeByOpcode(wide) - 2
      ensures bytecode == old(bytecode)[..insnPc] + EncodeJump(wide, reg, 0) + old(bytecode)[insnPc + 2..]
    {
      hide EncodeJump;
      extra := SizeByOpcode(wide) - SizeByOpcode(JmpImm8);
      WideJmpBytes(wide, reg);
      assert bytecode[insnPc + 1] == bytecode[insnPc..insnPc + 2][1];
      bytecode := bytecode[insnPc := OpcodeByte(wide)];
      InsertZeros(insnPc + SizeByOpcode(JmpImm8), extra);
    }

    method GetRegJcond(op: Opcode, insnPc: nat, ghost reg: byte) returns (r: byte)
      requires IsConditional(op) && insnPc + SizeByOpcode(op) <= |bytecode|
      requires bytecode[insnPc..insnPc + SizeByOpcode(op)] == EncodeJump(op, reg, 0)
      ensures forall x :: EncodeJump(JccImm16(op.cond), r, x) == EncodeJump(JccImm16(op.cond), reg, x)
      ensures forall x :: EncodeJump(JccImm16(RevertConditionCode(op.cond)), r, x)
                       == EncodeJump(JccImm16(RevertConditionCode(op.cond)), reg, x)
    {
      r := if RegBytes(op) == 1 then bytecode[insnPc + 1] else 0;
      JccBytes(op, reg, r, bytecode[insnPc..insnPc + SizeByOpcode(op)]);
    }

    method WidenJcc(op: Opcode, insnPc: nat, ghost reg: byte) returns (extra: nat)
      requires op.JccImm8? && insnPc + SizeByOpcode(op) <= |bytecode|
      requires bytecode[insnPc..insnPc + SizeByOpcode(op)] == EncodeJump(op, reg, 0)
      modifies this`bytecode
      ensures extra == SizeByOpcode(JccImm16(op.cond)) - SizeByOpcode(op)
      ensures bytecode == old(bytecode)[..insnPc] + EncodeJump(JccImm16(op.cond), reg, 0)
                          + old(bytecode)[insnPc + SizeByOpcode(op)..]
    {
      var r := GetRegJcond(op, insnPc, reg);
      hide EncodeJump;
      var size, wide := SizeByOpcode(op), EncodeJump(JccImm16(op.cond), r, 0);
      extra := |wide| - size;
      InsertZeros(insnPc + size, extra);
      ReplaceBytes(old(bytecode), insnPc, size, ZeroBytes(extra), wide);
      Overwrite(insnPc, wide);
    }

    method FarJcc(op: Opcode, insnPc: nat, ghost reg: byte) returns (extra: nat, target: nat)
      requires IsConditional(op) && insnPc + SizeByOpcode(op) <= |bytecode|
      requires bytecode[insnPc..insnPc + SizeByOpcode(op)] == EncodeJump(op, reg, 0)
      modifies this`bytecode
      ensures extra == SizeByOpcode(JccImm16(op.cond)) - SizeByOpcode(op) + SizeByOpcode(JmpImm32)
      ensures target == insnPc + SizeByOpcode(JccImm16(op.cond))
      ensures bytecode == old(bytecode)[..insnPc] + FarPair(op.cond, reg, 0)
        + old(bytecode)[insnPc + SizeByOpcode(op)..]
    {
      hide EncodeJump, SizeByOpcode, RegBytes, RevertConditionCode, ReadsRegister;
      var r := GetRegJcond(op, insnPc, reg);
      RevertKeepsRegister(op.cond);
      var size, extended := SizeByOpcode(op), SizeByOpcode(JccImm16(op.cond));
      var inverted := EncodeJump(JccImm16(RevertConditionCode(op.cond)), r, extended + SizeByOpcode(JmpImm32));
      var jump := EncodeJump(JmpImm32, 0, 0);
      extra := extended - size + SizeByOpcode(JmpImm32);
      target := insnPc + extended;
      InsertZeros(insnPc + size, extra);
      ReplaceBytesTwice(old(bytecode), insnPc, size, ZeroBytes(extra), inverted, jump);
      Overwrite(insnPc, inverted);
      Overwrite(insnPc + |inverted|, jump);
      assert inverted + jump == FarPair(op.cond, reg, 0);
    }

    method DoReserveSpaceForOffset(op: Opcode, insnPc: nat, expected: BitImmSize, ghost it: Item)
      returns (res: ErrorCode, extra: nat, target: nat)
      requires it.Branch? && it.op == op
      requires insnPc + SizeByOpcode(op) <= |bytecode|
      requires bytecode[insnPc..insnPc + SizeByOpcode(op)] == EncodeJump(op, it.reg, 0)
      requires Rank(expected) > Rank(BitImmSizeByOpcode(op))
      modifies this`bytecode
      ensures res == if op.JmpImm16? then InternalError else Success
      ensures res != Success ==> bytecode == old(bytecode)
      ensures res == Success ==>
        var form := ChooseForm(op, expected);
        && extra == Size(it, form) - Size(it, Keep) > 0
        && target == insnPc + CarrierDelta(it, form)
        && bytecode == old(bytecode)[..insnPc] + Encode(it, form, 0) + old(bytecode)[insnPc + SizeByOpcode(op)..]
    {
      hide Encode, EncodeJump, Size, CarrierDelta, FarPair;
      if op.JmpImm16? {
        return InternalError, 0, insnPc;
      }
      WidenedEncoding(op, expected, it);
      if op.JmpImm8? {
        extra := WidenJmp(insnPc, if expected == Bits16 then JmpImm16 else JmpImm32, it.reg);
        target := insnPc;
      } else if expected == Bits32 {
        extra, target := FarJcc(op, insnPc, it.reg);
      } else {
        extra := WidenJcc(op, insnPc, it.reg);
        target := insnPc;
      }
      return Success, extra, target;
    }

    /** Widens branch b if its offset needs more bits than its encoding has. */
    method FitWidth(op: Opcode, insnPc: nat, needed: BitImmSize, ghost b: nat)
      returns (res: ErrorCode, extra: nat, newTarget: nat)
      requires b < |items| && items[b].Branch? && items[b].op == op && !op.JmpImm16?
      requires insnPc == Offset(items, Plan(items, b), b)
      requires bytecode == Code(items, Plan(items, b), Zeros(|items|), 0, |items|)
      modifies this`bytecode
      ensures res == Success
      ensures
        var form := ChooseForm(op, needed);
        && extra == Size(items[b], form) - Size(items[b], Keep)
        && newTarget == insnPc + CarrierDelta(items[b], form)
        && bytecode == Code(items, Plan(items, b)[b := form], Zeros(|items|), 0, |items|)
    {
      hide Size, Encode, EncodeJump, CarrierDelta, Offset, Code, Plan;
      KeptInPlace(items[b]);
      UnprocessedBytes(items, b, b);
      res, newTarget, extra := Success, insnPc, 0;
      if Rank(needed) > Rank(BitImmSizeByOpcode(op)) {
        res, extra, newTarget := DoReserveSpaceForOffset(op, insnPc, needed, items[b]);
      }
      ChosenCode(items, b, ChooseForm(op, needed), old(bytecode), bytecode);
    }

    /** Moves the labels behind branch b by the bytes that were inserted. */
    method MoveLabels(insnPc: nat, extra: nat, ghost b: nat, ghost form: Form)
      requires b < |items| && items[b].Branch? && insnPc == Offset(items, Plan(items, b), b)
      requires extra == Size(items[b], form) - Size(items[b], Keep)
      requires CellsOk(items, Plan(items, b), pcs) && TargetsOk(items, targets, pcs)
      modifies this`targets, this`pcs
      ensures targets == old(targets)
      ensures CellsOk(items, Plan(items, b)[b := form], pcs) && TargetsOk(items, targets, pcs)
    {
      hide Size, Offset, Plan, Target, CellsOk;
      if extra > 0 {
        UpdateLabelTargets(insnPc, extra);
      }
      assert |pcs| == |old(pcs)|;
      CellsGrow(items, Plan(items, b), b, form, extra, targets, old(pcs), pcs);
      SortedCells(items, targets, old(pcs), pcs, insnPc, extra);
    }

    /** One turn of the relaxation loop, for the first branch left. */
    method ReserveBranch(bias: nat, newBranches: seq<(nat, Label)>, ghost b: nat)
      returns (res: ErrorCode, bias': nat, newBranches': seq<(nat, Label)>)
      requires Reserving(items, b, bias, branches, newBranches, targets, pcs, bytecode)
      requires b < |items| && items[b].Branch? && branches != []
      requires branches[0] == (Offset(items, AllKeep(|items|), b), items[b].lbl)
      requires branches[1..] == Sites(items, AllKeep(|items|), b + 1, |items|)
      modifies this
      ensures res == Success && items == old(items) && branches == old(branches)[1..]
      ensures Reserving(items, b + 1, bias', branches, newBranches', targets, pcs, bytecode)
    {
      hide Size, Encode, Offset, Code, Sites, Plan, Target, Estimate, CarrierDelta, CellsOk, TargetsOk,
           ChooseForm, BitLengthSigned, EncodeJump, MapInsert, AllWellFormed;
      AtBranch(items, b, bias, branches, newBranches, targets, pcs, bytecode);
      PlanStep(items, b);

      var insnPc, l := branches[0].0 + bias, branches[0].1;
      var op := ParseOpcode(bytecode[insnPc]).value;
      var distance := EstimateMaxDistance(insnPc, pcs[l], bias, b, newBranches);
      var needed := BitLengthSigned(distance);
      var newTarget, extra;
      res, extra, newTarget := FitWidth(op, insnPc, needed, b);
      if res != Success {
        return res, bias, newBranches;
      }
      ghost var form := ChooseForm(op, needed);
      NewSiteIsLast(items, Plan(items, b), b, newTarget, l);
      newBranches' := MapInsert(newBranches, newTarget, l);
      bias' := bias + extra;
      MoveLabels(insnPc, extra, b, form);
      branches := branches[1..];
      ReservingStep(items, b, bias, old(branches), newBranches, targets, old(pcs), old(bytecode),
                    form, extra, pcs, bytecode);
    }

    method ReserveSpaceForOffsets() returns (res: ErrorCode)
      requires Valid()
      modifies this
      ensures res == Success && items == old(items)
      ensures Reserved(items, branches, pcs, bytecode)
    {
      hide Size, Encode, Offset, Code, Sites, Plan, Target, Estimate, CarrierDelta, CellsOk;
      var bias: nat := 0;
      var newBranches: seq<(nat, Label)> := [];
      ghost var d: nat := 0;
      StartReserving(items, pc, branches, targets, pcs, bytecode);
      res := Success;
      while branches != [] && res == Success
        invariant items == old(items) && res == Success
        invariant Reserving(items, d, bias, branches, newBranches, targets, pcs, bytecode)
        decreases |branches|
      {
        ReservingSkip(items, d, bias, branches, newBranches, targets, pcs, bytecode);
        ghost var b := NextBranch(items, d);
        res, bias, newBranches := ReserveBranch(bias, newBranches, b);
        d := b + 1;
      }
      FinishReserving(items, d, bias, branches, newBranches, targets, pcs, bytecode);
      branches := newBranches;
    }

    method UpdateBranches() returns (res: ErrorCode)
      requires Reserved(items, branches, pcs, bytecode)
      modifies this`bytecode
      ensures res == Success && bytecode == Linked(items)
    {
      hide Size, Encode, Offset, Code, Sites, Plan, Target, Estimate, CarrierDelta, CarrierOp, Patched, Displacements;
      ghost var n, forms := |items|, FinalForms(items);
      ghost var e: nat := 0;
      var j := 0;
      StartPatching(items, forms);
      while j < |branches|
        invariant 0 <= j <= |branches| && e <= n
        invariant branches[j..] == Sites(items, forms, e, n)
        invariant bytecode == Code(items, forms, Patched(items, forms, e), 0, n)
      {
        ghost var b := NextBranch(items, e);
        SitesNext(items, forms, e);
        assert branches[j] == branches[j..][0] && branches[j + 1..] == branches[j..][1..];
        PatchedStep(items, forms, e);
        PatchStep(items, forms, Patched(items, forms, e), b, Displacement(items, forms, b));

        var insnPc, l := branches[j].0, branches[j].1;
        var offset := pcs[l] as int - insnPc;
        var op := ParseOpcode(bytecode[insnPc]);
        if op.None? {
          return InternalError;
        }
        var reg := if RegBytes(op.value) == 1 then bytecode[insnPc + 1] else 0;
        Overwrite(insnPc, EncodeJump(op.value, reg, offset));
        j, e := j + 1, b + 1;
      }
      SitesNext(items, forms, e);
      PatchedStep(items, forms, e);
      return Success;
    }

    /** A successful build returns the linked program and leaves every label at its final offset. */
    method Build() returns (res: ErrorCode, output: seq<byte>)
      requires Valid()
      modifies this
      ensures items == old(items)
      ensures res
        == (if forall l :: Used(items, l) ==> TargetAt(old(pcs), old(targets), l) then Success else UnboundLabels)
      ensures res == Success ==> output == Linked(items) && CellsOk(items, FinalForms(items), pcs)
    {
      output := [];
      res := CheckLabels();
      if res != Success {
        return;
      }
      res := ReserveSpaceForOffsets();
      if res != Success {
        return;
      }
      res := UpdateBranches();
      if res != Success {
        return;
      }
      output := bytecode;
    }
  }

  /** A jump to a label that is never bound, after another label was bound at the start: the build succeeds. */
  method BuildUnbound() returns (res: ErrorCode, ghost items: seq<Item>)
    ensures items == [Layout.Bind(0), Branch(JmpImm8, 0, 1)]
    ensures res == Success && !UsedAreBound(items)
  {
    hide Emitted, Linked, CellsOk, Plan, Target, TargetAt;
    var e := new Emitter();
    var a := e.CreateLabel();
    var b := e.CreateLabel();
    e.Bind(a);
    e.EmitBranch(JmpImm8, 0, b);
    items := e.items;
    UnboundUsed();
    UnboundDetectedExactly(items, e.pc, e.branches, e.targets, e.pcs, e.bytecode);
    var output;
    res, output := e.Build();
  }

  lemma {:induction false} UnboundUsed()
    ensures var items := [Layout.Bind(0), Branch(JmpImm8, 0, 1)]; BoundAtStart(items) && !UsedAreBound(items)
  {
    var items := [Layout.Bind(0), Branch(JmpImm8, 0, 1)];
    assert items[1] == Branch(JmpImm8, 0, 1);
    assert Used(items, 1);
    OffsetZero(items, AllKeep(|items|));
    assert items[0].Bind? && Offset(items, AllKeep(|items|), 0) == 0;
  }
}
