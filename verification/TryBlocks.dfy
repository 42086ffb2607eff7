/**
  Try blocks of a function: catch blocks are grouped by the range they protect, and their labels
  become byte offsets that survive writing and reading.
 */
module TryBlocks {
  import opened Bytes
  import opened Isa
  import opened Layout
  import opened Fits
  import opened Assembly
  import opened LabelOffsets
  import opened FileBytes
  import opened CodeFormat

  /** A handler in the assembly: the labels of the protected range and of the handler, and the class it catches. */
  datatype CatchDef = CatchDef(tryBegin: Label, tryEnd: Label, catchBegin: Label, catchEnd: Label, typ: Option<nat>)

  datatype Range = Range(begin: Label, end: Label)

  function RangeOf(c: CatchDef): Range {
    Range(c.tryBegin, c.tryEnd)
  }

  /** The distinct ranges of cs[..n] in the order they first appear. */
  function Order(cs: seq<CatchDef>, n: nat): seq<Range>
    requires n <= |cs|
  {
    if n == 0 then []
    else
      var before := Order(cs, n - 1);
      if RangeOf(cs[n - 1]) in before then before else before + [RangeOf(cs[n - 1])]
  }

  /** The handlers of one range, in order. */
  function Group(cs: seq<CatchDef>, n: nat, r: Range): seq<CatchDef>
    requires n <= |cs|
  {
    if n == 0 then []
    else if RangeOf(cs[n - 1]) == r then Group(cs, n - 1, r) + [cs[n - 1]]
    else Group(cs, n - 1, r)
  }

  function Labels(cs: seq<CatchDef>): set<Label> {
    if cs == [] then {}
    else {cs[0].tryBegin, cs[0].tryEnd, cs[0].catchBegin, cs[0].catchEnd} + Labels(cs[1..])
  }

  /** Sizes are unsigned 64-bit differences. */
  function Distance(from: nat, to: nat): nat {
    (to - from) % 0x1_0000_0000_0000_0000
  }

  function CatchOf(offsets: map<Label, nat>, c: CatchDef): CatchItem
    requires c.catchBegin in offsets && c.catchEnd in offsets
  {
    CatchItem(c.typ, offsets[c.catchBegin], Distance(offsets[c.catchBegin], offsets[c.catchEnd]))
  }

  ghost predicate Known(offsets: map<Label, nat>, cs: seq<CatchDef>) {
    forall i :: 0 <= i < |cs| ==>
      cs[i].tryBegin in offsets && cs[i].tryEnd in offsets && cs[i].catchBegin in offsets && cs[i].catchEnd in offsets
  }

  /** t is the try block of one range. */
  ghost predicate TryOf(offsets: map<Label, nat>, group: seq<CatchDef>, r: Range, t: TryItem) {
    && Known(offsets, group) && r.begin in offsets && r.end in offsets
    && t.start == offsets[r.begin] && t.length == Distance(offsets[r.begin], offsets[r.end])
    && |t.catches| == |group|
    && forall k :: 0 <= k < |group| ==> t.catches[k] == CatchOf(offsets, group[k])
  }

  // ---------- grouping ----------

  ghost predicate Grouped(cs: seq<CatchDef>, n: nat, groups: map<Range, seq<CatchDef>>, order: seq<Range>)
    requires n <= |cs|
  {
    && order == Order(cs, n)
    && (forall r :: r in groups <==> r in order)
    && (forall r :: r in groups ==> groups[r] == Group(cs, n, r))
  }

  lemma {:induction false} OrderHolds(cs: seq<CatchDef>, n: nat, i: nat)
    requires i < n <= |cs|
    ensures RangeOf(cs[i]) in Order(cs, n)
  {
    if i < n - 1 {
      OrderHolds(cs, n - 1, i);
    }
  }

  lemma {:induction false} OrderComesFrom(cs: seq<CatchDef>, n: nat, r: Range)
    requires n <= |cs|
    ensures r in Order(cs, n) <==> Group(cs, n, r) != []
  {
    if n > 0 {
      OrderComesFrom(cs, n - 1, r);
    }
  }

  lemma {:induction false} OrderDistinct(cs: seq<CatchDef>, n: nat)
    requires n <= |cs|
    ensures forall i, j :: 0 <= i < j < |Order(cs, n)| ==> Order(cs, n)[i] != Order(cs, n)[j]
  {
    if n > 0 {
      OrderDistinct(cs, n - 1);
    }
  }

  /** Every handler is in the group of its range, after those before it and in no other group. */
  lemma {:induction false} GroupHolds(cs: seq<CatchDef>, n: nat, i: nat)
    requires i < n <= |cs|
    ensures
      var at := |Group(cs, i, RangeOf(cs[i]))|;
      at < |Group(cs, n, RangeOf(cs[i]))| && Group(cs, n, RangeOf(cs[i]))[at] == cs[i]
  {
    if i < n - 1 {
      GroupHolds(cs, n - 1, i);
    }
  }

  lemma {:induction false} GroupSize(cs: seq<CatchDef>, n: nat, r: Range)
    requires n <= |cs|
    ensures |Group(cs, n, r)| <= n
  {
    if n > 0 {
      GroupSize(cs, n - 1, r);
    }
  }

  lemma {:induction false} GroupFrom(cs: seq<CatchDef>, n: nat, r: Range, k: nat)
    requires n <= |cs| && k < |Group(cs, n, r)|
    ensures Group(cs, n, r)[k] in cs && RangeOf(Group(cs, n, r)[k]) == r
  {
    if !(RangeOf(cs[n - 1]) == r && k == |Group(cs, n - 1, r)|) {
      GroupFrom(cs, n - 1, r, k);
    }
  }

  lemma {:induction false} GroupedNext(cs: seq<CatchDef>, n: nat, groups: map<Range, seq<CatchDef>>, order: seq<Range>)
    requires n < |cs| && Grouped(cs, n, groups, order)
    ensures
      var r := RangeOf(cs[n]);
      var order' := if r in groups then order else order + [r];
      var g := if r in groups then groups[r] else [];
      Grouped(cs, n + 1, groups[r := g + [cs[n]]], order')
  {
    OrderComesFrom(cs, n, RangeOf(cs[n]));
  }

  method MakeOrder(cs: seq<CatchDef>) returns (groups: map<Range, seq<CatchDef>>, order: seq<Range>)
    ensures Grouped(cs, |cs|, groups, order)
  {
    hide Order, Group, Grouped;
    groups, order := map[], [];
    GroupedNone(cs);
    for i := 0 to |cs|
      invariant Grouped(cs, i, groups, order)
    {
      var r := RangeOf(cs[i]);
      GroupedNext(cs, i, groups, order);
      ghost var known, group := groups, if r in groups then groups[r] else [];
      if r !in groups {
        groups := groups[r := []];
        order := order + [r];
      }
      groups := groups[r := groups[r] + [cs[i]]];
      assert groups == known[r := group + [cs[i]]];
    }
  }

  lemma {:induction false} GroupedNone(cs: seq<CatchDef>)
    ensures Grouped(cs, 0, map[], [])
  {
  }

  /** The label offsets that the walk over the bytes gives. */
  ghost predicate Walked(
    length: seq<byte> -> nat, ins: seq<Ins>, bytecode: seq<byte>, cs: seq<CatchDef>, offsets: map<Label, nat>)
  {
    && offsets.Keys == Labels(cs)
    && (forall k :: 0 <= k < |ins| && ins[k].lbl.Some? && ins[k].lbl.value in offsets ==>
          offsets[ins[k].lbl.value] == Walk(length, bytecode, Opcodes(ins, k)))
    && (forall l :: l in offsets && (forall k :: 0 <= k < |ins| ==> ins[k].lbl != Some(l)) ==> offsets[l] == 0)
  }

  lemma {:induction false} LabelsKnown(cs: seq<CatchDef>, offsets: map<Label, nat>)
    requires Labels(cs) <= offsets.Keys
    ensures Known(offsets, cs)
  {
    if cs != [] {
      LabelsKnown(cs[1..], offsets);
      assert cs == [cs[0]] + cs[1..];
    }
  }

  method BuildTryBlocks(length: seq<byte> -> nat, ins: seq<Ins>, cs: seq<CatchDef>, bytecode: seq<byte>)
    returns (tries: seq<TryItem>, ghost offsets: map<Label, nat>)
    requires LabelsOnce(ins)
    ensures ins == [] ==> tries == []
    ensures ins != [] ==>
      && Walked(length, ins, bytecode, cs, offsets)
      && |tries| == |Order(cs, |cs|)|
      && forall j :: 0 <= j < |tries| ==>
        TryOf(offsets, Group(cs, |cs|, Order(cs, |cs|)[j]), Order(cs, |cs|)[j], tries[j])
  {
    hide Order, Group, Labels, TryOf, Walk;
    tries, offsets := [], map[];
    if ins == [] {
      return;
    }
    var groups, order := MakeOrder(cs);
    var os := MakeOffsets(length, ins, Labels(cs), bytecode);
    offsets := os;
    for j := 0 to |order|
      invariant |tries| == j
      invariant forall i :: 0 <= i < j ==> TryOf(os, Group(cs, |cs|, order[i]), order[i], tries[i])
    {
      GroupKnown(cs, os, order[j]);
      var t := BuildTryBlock(os, groups[order[j]], order[j]);
      tries := tries + [t];
    }
  }

  lemma {:induction false} GroupKnown(cs: seq<CatchDef>, offsets: map<Label, nat>, r: Range)
    requires offsets.Keys == Labels(cs) && r in Order(cs, |cs|)
    ensures
      var g := Group(cs, |cs|, r);
      g != [] && RangeOf(g[0]) == r && Known(offsets, g)
  {
    hide Order, Group, Labels;
    LabelsKnown(cs, offsets);
    OrderComesFrom(cs, |cs|, r);
    var g := Group(cs, |cs|, r);
    forall k | 0 <= k < |g| ensures g[k] in cs && RangeOf(g[k]) == r {
      GroupFrom(cs, |cs|, r, k);
    }
  }

  method BuildTryBlock(offsets: map<Label, nat>, group: seq<CatchDef>, ghost r: Range) returns (t: TryItem)
    requires group != [] && RangeOf(group[0]) == r && Known(offsets, group)
    ensures TryOf(offsets, group, r, t)
  {
    var catches := [];
    for k := 0 to |group|
      invariant |catches| == k
      invariant forall i :: 0 <= i < k ==> catches[i] == CatchOf(offsets, group[i])
    {
      catches := catches + [CatchOf(offsets, group[k])];
    }
    var start, end := offsets[group[0].tryBegin], offsets[group[0].tryEnd];
    return TryItem(start, Distance(start, end), catches);
  }

  // ---------- end to end ----------

  /** Where the built code has the instruction that carries a label. */
  function FinalPc(ins: seq<Ins>, l: Label): nat {
    var items := ToItems(ins, |ins|);
    Offset(items, FinalForms(items), Target(items, l))
  }

  ghost predicate Carried(ins: seq<Ins>, l: Label) {
    exists k :: 0 <= k < |ins| && ins[k].lbl == Some(l)
  }

  ghost predicate AllCarried(ins: seq<Ins>, c: CatchDef) {
    Carried(ins, c.tryBegin) && Carried(ins, c.tryEnd) && Carried(ins, c.catchBegin) && Carried(ins, c.catchEnd)
  }

  ghost predicate NoFar(ins: seq<Ins>) {
    var items := ToItems(ins, |ins|);
    !FarBetween(items, FinalForms(items), 0, |items|)
  }

  lemma {:induction false} OffsetsAreFinal(
    length: seq<byte> -> nat, ins: seq<Ins>, cs: seq<CatchDef>, offsets: map<Label, nat>, l: Label)
    requires forall j :: 0 <= j < |ins| ==> ValidIns(ins[j])
    requires BoundOnce(ToItems(ins, |ins|)) && LengthsKnown(length, ToItems(ins, |ins|)) && NoFar(ins)
    requires Walked(length, ins, Linked(ToItems(ins, |ins|)), cs, offsets) && l in offsets && Carried(ins, l)
    ensures offsets[l] == FinalPc(ins, l)
  {
    hide Code, Offset, Walk, Plan, ToItems, Target, Opcodes, LengthsKnown, InsnSize, BoundOnce, Linked, FinalForms;
    var k :| 0 <= k < |ins| && ins[k].lbl == Some(l);
    TryLabelsAgreeExactly(length, ins, k);
  }

  /** Some try block that is read back protects the range of c with its handler, at their places in the built code. */
  ghost predicate Protected(ins: seq<Ins>, c: CatchDef, seen: seq<Try>) {
    exists j, k :: 0 <= j < |seen| && 0 <= k < |seen[j].catches| && ProtectedAt(ins, c, seen[j], seen[j].catches[k])
  }

  ghost predicate ProtectedAt(ins: seq<Ins>, c: CatchDef, t: Try, h: Catch) {
    && t.startPc == FinalPc(ins, c.tryBegin)
    && t.length == Distance(FinalPc(ins, c.tryBegin), FinalPc(ins, c.tryEnd))
    && h.handlerPc == FinalPc(ins, c.catchBegin)
    && h.codeSize == Distance(FinalPc(ins, c.catchBegin), FinalPc(ins, c.catchEnd))
    && h.typeIdx == (match c.typ case Some(i) => i case None => INVALID_INDEX)
  }

  lemma {:induction false} HandlerSurvives(
    length: seq<byte> -> nat, ins: seq<Ins>, cs: seq<CatchDef>, offsets: map<Label, nat>, tries: seq<TryItem>, i: nat)
    requires (forall j :: 0 <= j < |ins| ==> ValidIns(ins[j])) && ins != []
    requires BoundOnce(ToItems(ins, |ins|)) && LengthsKnown(length, ToItems(ins, |ins|)) && NoFar(ins)
    requires Walked(length, ins, Linked(ToItems(ins, |ins|)), cs, offsets) && |tries| == |Order(cs, |cs|)|
    requires forall j :: 0 <= j < |tries| ==>
      TryOf(offsets, Group(cs, |cs|, Order(cs, |cs|)[j]), Order(cs, |cs|)[j], tries[j])
    requires i < |cs| && AllCarried(ins, cs[i])
    ensures Protected(ins, cs[i], TryViews(tries, |cs|))
  {
    hide Order, Group, Labels, Walk, ToItems, BoundOnce, LengthsKnown, NoFar, Linked, FinalPc, Carried, Distance,
      Walked;
    var c := cs[i];
    OrderHolds(cs, |cs|, i);
    GroupHolds(cs, |cs|, i);
    var j :| 0 <= j < |tries| && Order(cs, |cs|)[j] == RangeOf(c);
    var g, at, t := Group(cs, |cs|, RangeOf(c)), |Group(cs, i, RangeOf(c))|, tries[j];
    assert TryOf(offsets, g, RangeOf(c), t);
    assert t.catches[at] == CatchOf(offsets, c);
    OffsetsAreFinal(length, ins, cs, offsets, c.tryBegin);
    OffsetsAreFinal(length, ins, cs, offsets, c.tryEnd);
    OffsetsAreFinal(length, ins, cs, offsets, c.catchBegin);
    OffsetsAreFinal(length, ins, cs, offsets, c.catchEnd);
    var view := TryViews(tries, |cs|)[j];
    assert view == TryView(t, |cs|);
    GroupSize(cs, |cs|, RangeOf(c));
    assert view.catches == CatchViews(t.catches);
    assert ProtectedAt(ins, c, view, view.catches[at]);
  }

  lemma {:induction false} TriesValid(cs: seq<CatchDef>, offsets: map<Label, nat>, item: CodeItem)
    requires forall i :: 0 <= i < |cs| && cs[i].typ.Some? ==> cs[i].typ.value < INVALID_INDEX
    requires |item.tries| == |Order(cs, |cs|)|
    requires forall j :: 0 <= j < |item.tries| ==>
      TryOf(offsets, Group(cs, |cs|, Order(cs, |cs|)[j]), Order(cs, |cs|)[j], item.tries[j])
    ensures ValidCode(item)
  {
    hide Order, Group;
    forall j | 0 <= j < |item.tries| ensures ValidTry(item.tries[j]) {
      var r := Order(cs, |cs|)[j];
      assert TryOf(offsets, Group(cs, |cs|, r), r, item.tries[j]);
      forall k | 0 <= k < |item.tries[j].catches| ensures ValidCatch(item.tries[j].catches[k]) {
        GroupFrom(cs, |cs|, r, k);
      }
    }
  }

  lemma {:induction false} LiesInside(before: seq<byte>, s: seq<byte>, after: seq<byte>)
    ensures Lies(before + s + after, |before|, s)
  {
  }

  /**
    Building the blocks of a function, writing them with its code and reading them back: every handler
    whose labels are set protects its range again, provided no branch took the far form.
   */
  method BuildAndRead(
    length: seq<byte> -> nat, ins: seq<Ins>, cs: seq<CatchDef>, vregs: nat, args: nat, before: seq<byte>,
    after: seq<byte>)
    returns (seen: seq<Try>)
    requires (forall j :: 0 <= j < |ins| ==> ValidIns(ins[j])) && ins != [] && LabelsOnce(ins)
    requires BoundOnce(ToItems(ins, |ins|)) && LengthsKnown(length, ToItems(ins, |ins|))
    requires forall i :: 0 <= i < |cs| && cs[i].typ.Some? ==> cs[i].typ.value < INVALID_INDEX
    ensures |seen| == |Order(cs, |cs|)|
    ensures NoFar(ins) ==> forall i :: 0 <= i < |cs| && AllCarried(ins, cs[i]) ==> Protected(ins, cs[i], seen)
  {
    hide Order, Group, Labels, Walk, ToItems, BoundOnce, LengthsKnown, NoFar, Linked, FinalPc, AllCarried,
      Protected, TryOf, Lies, CodeBytes, Walked, TryView;
    var code := Linked(ToItems(ins, |ins|));
    var tries, offsets := BuildTryBlocks(length, ins, cs, code);
    var item := CodeItem(vregs, args, code, tries);
    TriesValid(cs, offsets, item);
    var file := before + CodeBytes(item) + after;
    assert Lies(file, |before|, CodeBytes(item)) by {
      LiesInside(before, CodeBytes(item), after);
    }
    var a := new CodeDataAccessor(file, |before|, item);
    seen := a.EnumerateTryBlocks(|tries|, |cs|);
    assert seen == TryViews(tries, |cs|);
    if NoFar(ins) {
      forall i | 0 <= i < |cs| && AllCarried(ins, cs[i]) ensures Protected(ins, cs[i], seen) {
        HandlerSurvives(length, ins, cs, offsets, tries, i);
      }
    }
  }
}
