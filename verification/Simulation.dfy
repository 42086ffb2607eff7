/**
  What the built bytes do. Both the labelled program and the bytes are given a small-step meaning
  over the same abstract machine; a layout whose offsets all fit runs exactly like its source.
 */
module Simulation {
  import opened Bytes
  import opened Isa
  import opened Layout

  /** At a position, past the end, out of the function, or at something that is not an instruction. */
  datatype Config<S> = At(pos: nat, state: S) | Done(state: S) | Exit(state: S) | Stuck

  function Continue<S(!new)>(e: Effect<S>, next: nat): Config<S> {
    match e
    case Next(s) => At(next, s)
    case Leave(s) => Exit(s)
  }

  /** One step of the labelled program; positions are item indices. */
  function SourceStep<S(!new)>(m: Machine<S>, items: seq<Item>, c: Config<S>): Config<S> {
    if !c.At? then c
    else if c.pos >= |items| then Done(c.state)
    else
      match items[c.pos]
      case Plain(b) => Continue(m.exec(b, c.state), c.pos + 1)
      case Bind(_) => At(c.pos + 1, c.state)
      case Branch(op, reg, l) =>
        if !Taken(m, op, reg, c.state) then At(c.pos + 1, c.state)
        else if Bound(items, l) then At(Target(items, l), c.state)
        else Stuck
  }

  /** One step of the bytes; positions are offsets, and jump offsets count from the jump itself. */
  function CodeStep<S(!new)>(m: Machine<S>, code: seq<byte>, c: Config<S>): Config<S> {
    if !c.At? then c
    else if c.pos >= |code| then Done(c.state)
    else
      match ParseOpcode(code[c.pos])
      case None =>
        var n := m.length(code[c.pos..]);
        if n == 0 || c.pos + n > |code| then Stuck
        else Continue(m.exec(code[c.pos..c.pos + n], c.state), c.pos + n)
      case Some(op) =>
        var size := SizeByOpcode(op);
        if c.pos + size > |code| then Stuck
        else
          var (reg, imm) := DecodeJump(op, code[c.pos..]);
          if !Taken(m, op, reg, c.state) then At(c.pos + size, c.state)
          else if 0 <= c.pos + imm <= |code| then At(c.pos + imm, c.state)
          else Stuck
  }

  function SourceRun<S(!new)>(m: Machine<S>, items: seq<Item>, c: Config<S>, n: nat): Config<S>
    decreases n
  {
    if n == 0 then c else SourceRun(m, items, SourceStep(m, items, c), n - 1)
  }

  function CodeRun<S(!new)>(m: Machine<S>, code: seq<byte>, c: Config<S>, n: nat): Config<S>
    decreases n
  {
    if n == 0 then c else CodeRun(m, code, CodeStep(m, code, c), n - 1)
  }

  ghost predicate KnowsLengths<S(!new)>(m: Machine<S>, items: seq<Item>) {
    LengthsKnown(m.length, items)
  }

  ghost predicate AllBound(items: seq<Item>) {
    forall l :: Used(items, l) ==> Bound(items, l)
  }

  /** The stored offset of branch i is not truncated by its field. */
  predicate OffsetFits(items: seq<Item>, forms: seq<Form>, i: nat)
    requires i < |items| == |forms|
  {
    items[i].Branch? ==> FitsSigned(Displacement(items, forms, i), ImmBytes(CarrierOp(items[i].op, forms[i])))
  }

  ghost predicate AllFit(items: seq<Item>, forms: seq<Form>) {
    && |items| == |forms|
    && forall i :: 0 <= i < |items| ==> OffsetFits(items, forms, i)
  }

  function Relocated(items: seq<Item>, forms: seq<Form>): seq<byte>
    requires |items| == |forms|
  {
    Code(items, forms, Displacements(items, forms), 0, |items|)
  }

  function Image<S>(items: seq<Item>, forms: seq<Form>, c: Config<S>): Config<S>
    requires |items| == |forms| && (c.At? ==> c.pos <= |items|)
  {
    if c.At? then At(Offset(items, forms, c.pos), c.state) else c
  }

  /** Steps of the bytes that one step of the source takes: a binding costs nothing, a far branch up to two. */
  function Cost<S(!new)>(m: Machine<S>, items: seq<Item>, forms: seq<Form>, c: Config<S>): nat
    requires |items| == |forms|
  {
    if !c.At? || c.pos >= |items| then 1
    else
      var it := items[c.pos];
      if it.Bind? then 0
      else if IsFar(it, forms[c.pos]) && Holds(m, it.op.cond, it.reg, c.state) then 2
      else 1
  }

  lemma {:induction false} CodeTotal(items: seq<Item>, forms: seq<Form>, imms: seq<int>)
    requires |items| == |forms| == |imms|
    ensures |Code(items, forms, imms, 0, |items|)| == Offset(items, forms, |items|)
  {
    CodeLength(items, forms, imms, 0, |items|);
  }

  /** A jump at the front of the remaining code is executed as written. */
  lemma {:induction false} JumpStep<S(!new)>(
    m: Machine<S>, code: seq<byte>, at: nat, op: Opcode, reg: byte, imm: int, rest: seq<byte>, s: S)
    requires at <= |code| && code[at..] == EncodeJump(op, reg, imm) + rest
    requires FitsSigned(imm, ImmBytes(op)) && 0 <= at + imm <= |code|
    ensures CodeStep(m, code, At(at, s))
         == At(if Taken(m, op, reg, s) then at + imm else at + SizeByOpcode(op), s)
  {
    JumpRoundTrip(op, reg, imm, rest);
    assert code[at] == code[at..][0];
  }

  lemma {:induction false} PlainStep<S(
    !new)>(m: Machine<S>, items: seq<Item>, code: seq<byte>, at: nat, i: nat, rest: seq<byte>, s: S)
    requires i < |items| && items[i].Plain? && WellFormed(items[i]) && KnowsLengths(m, items)
    requires at <= |code| && code[at..] == items[i].bytes + rest
    ensures CodeStep(m, code, At(at, s)) == Continue(m.exec(items[i].bytes, s), at + |items[i].bytes|)
  {
    var b := items[i].bytes;
    assert code[at] == code[at..][0];
    assert m.length(b + rest) == |b|;
    assert code[at..at + |b|] == code[at..][..|b|];
  }

  /** A branch in direct form: one step of the bytes. */
  lemma {:induction false} DirectBranch<S(!new)>(m: Machine<S>, items: seq<Item>, forms: seq<Form>, i: nat, s: S)
    requires i < |items| == |forms| && items[i].Branch? && !IsFar(items[i], forms[i])
    requires WellFormed(items[i]) && OffsetFits(items, forms, i)
    ensures CodeStep(m, Relocated(items, forms), At(Offset(items, forms, i), s))
         == At(Offset(items, forms,
                      if Taken(m, items[i].op, items[i].reg, s) then Target(items, items[i].lbl) else i + 1), s)
  {
    var it, imms, code := items[i], Displacements(items, forms), Relocated(items, forms);
    var op, at := CarrierOp(it.op, forms[i]), Offset(items, forms, i);
    assert Encode(it, forms[i], imms[i]) == EncodeJump(op, it.reg, imms[i]);
    assert Size(it, forms[i]) == SizeByOpcode(op);
    assert Taken(m, op, it.reg, s) == Taken(m, it.op, it.reg, s);
    hide Encode, EncodeJump, Size, Code, CodeStep, SizeByOpcode, Taken;
    CodeFrom(items, forms, imms, i);
    CodeTotal(items, forms, imms);
    OffsetMonotone(items, forms, Target(items, it.lbl), |items|);
    JumpStep(m, code, at, op, it.reg, imms[i], Code(items, forms, imms, i + 1, |items|), s);
  }

  lemma {:induction false} FarBytes(it: Item, form: Form, imm: int)
    requires IsFar(it, form)
    ensures
      var c := it.op.cond;
      var op, k := JccImm16(RevertConditionCode(c)), SizeByOpcode(JccImm16(c));
      && Encode(it, form, imm) == EncodeJump(op, it.reg, k + 5) + EncodeJump(JmpImm32, 0, imm)
      && SizeByOpcode(op) == k == CarrierDelta(it, form) && Size(it, form) == k + 5
      && FitsSigned(k + 5, ImmBytes(op)) && ImmBytes(CarrierOp(it.op, form)) == ImmBytes(JmpImm32)
  {
    RevertKeepsRegister(it.op.cond);
    assert Base(2) == 65536;
  }

  /** A far branch: the inverted jump skips the 32-bit jump exactly when the condition fails. */
  lemma {:induction false} FarBranch<S(!new)>(m: Machine<S>, items: seq<Item>, forms: seq<Form>, i: nat, s: S)
    requires i < |items| == |forms| && IsFar(items[i], forms[i]) && OffsetFits(items, forms, i)
    ensures
      var code, at, it := Relocated(items, forms), Offset(items, forms, i), items[i];
      var mid := At(at + CarrierDelta(it, forms[i]), s);
      && CodeStep(m, code, At(at, s))
         == (if Holds(m, it.op.cond, it.reg, s) then mid else At(Offset(items, forms, i + 1), s))
      && CodeStep(m, code, mid) == At(Offset(items, forms, Target(items, it.lbl)), s)
  {
    hide Encode, EncodeJump, Size, Code, CodeStep, SizeByOpcode, CarrierDelta, CarrierOp, Offset, Target, Holds,
         RevertConditionCode;
    var it, imms, code := items[i], Displacements(items, forms), Relocated(items, forms);
    var at, k, op := Offset(items, forms, i), CarrierDelta(it, forms[i]), JccImm16(RevertConditionCode(it.op.cond));
    var rest := Code(items, forms, imms, i + 1, |items|);
    FarBytes(it, forms[i], imms[i]);
    CodeFrom(items, forms, imms, i);
    CodeTotal(items, forms, imms);
    OffsetMonotone(items, forms, Target(items, it.lbl), |items|);
    RevertNegates(m, it.op.cond, it.reg, s);
    assert code[at..] == EncodeJump(op, it.reg, k + 5) + (EncodeJump(JmpImm32, 0, imms[i]) + rest);
    JumpStep(m, code, at, op, it.reg, k + 5, EncodeJump(JmpImm32, 0, imms[i]) + rest, s);
    assert code[at + k..] == code[at..][k..];
    assert code[at + k..] == EncodeJump(JmpImm32, 0, imms[i]) + rest;
    JumpStep(m, code, at + k, JmpImm32, 0, imms[i], rest, s);
  }

  /** One step of the source is Cost steps of the bytes, from image to image. */
  lemma {:induction false} StepSimulated<S(!new)>(m: Machine<S>, items: seq<Item>, forms: seq<Form>, c: Config<S>)
    requires AllWellFormed(items) && KnowsLengths(m, items) && AllFit(items, forms)
    requires c.At? ==> c.pos <= |items|
    requires !SourceStep(m, items, c).Stuck?
    ensures var c' := SourceStep(m, items, c);
            && (c'.At? ==> c'.pos <= |items|)
            && CodeRun(m, Relocated(items, forms), Image(items, forms, c), Cost(m, items, forms, c))
               == Image(items, forms, c')
  {
    hide Encode, EncodeJump, Size, Code, CodeRun, CarrierDelta, CarrierOp, Target, Holds;
    var imms, code, c' := Displacements(items, forms), Relocated(items, forms), SourceStep(m, items, c);
    OneStepRun(m, code, Image(items, forms, c));
    if c.At? && c.pos < |items| {
      var i, s, it, at := c.pos, c.state, items[c.pos], Offset(items, forms, c.pos);
      match it
      case Bind(_) =>
        PlainEncoding(it, forms[i], imms[i]);
        CodeFrom(items, forms, imms, i);
      case Plain(b) =>
        CodeFrom(items, forms, imms, i);
        assert Encode(it, forms[i], imms[i]) == b by {
          PlainEncoding(it, forms[i], imms[i]);
        }
        PlainStep(m, items, code, at, i, Code(items, forms, imms, i + 1, |items|), s);
      case Branch(op, reg, l) =>
        if IsFar(it, forms[i]) {
          FarBranch(m, items, forms, i, s);
        } else {
          DirectBranch(m, items, forms, i, s);
        }
    } else {
      CodeTotal(items, forms, imms);
    }
  }

  lemma {:induction false} OneStepRun<S(!new)>(m: Machine<S>, code: seq<byte>, c: Config<S>)
    ensures CodeRun(m, code, c, 0) == c
    ensures CodeRun(m, code, c, 1) == CodeStep(m, code, c)
    ensures CodeRun(m, code, c, 2) == CodeStep(m, code, CodeStep(m, code, c))
  {
  }

  // ---------- whole runs ----------

  function TotalCost<S(!new)>(m: Machine<S>, items: seq<Item>, forms: seq<Form>, c: Config<S>, n: nat): nat
    requires |items| == |forms|
    decreases n
  {
    if n == 0 then 0
    else Cost(m, items, forms, c) + TotalCost(m, items, forms, SourceStep(m, items, c), n - 1)
  }

  lemma {:induction false} CodeRunSplit<S(!new)>(m: Machine<S>, code: seq<byte>, c: Config<S>, j: nat, k: nat)
    ensures CodeRun(m, code, c, j + k) == CodeRun(m, code, CodeRun(m, code, c, j), k)
    decreases j
  {
    if j > 0 {
      CodeRunSplit(m, code, CodeStep(m, code, c), j - 1, k);
    }
  }

  lemma {:induction false} NeverStuck<S(!new)>(m: Machine<S>, items: seq<Item>, c: Config<S>)
    requires AllBound(items) && !c.Stuck?
    ensures !SourceStep(m, items, c).Stuck?
  {
    if c.At? && c.pos < |items| && items[c.pos].Branch? {
      assert Used(items, items[c.pos].lbl);
    }
  }

  /** Every run of the labelled program is a run of the bytes, state for state. */
  lemma {:induction false} RunSimulated<S(
    !new)>(m: Machine<S>, items: seq<Item>, forms: seq<Form>, c: Config<S>, n: nat)
    requires AllWellFormed(items) && AllBound(items) && KnowsLengths(m, items) && AllFit(items, forms)
    requires !c.Stuck? && (c.At? ==> c.pos <= |items|)
    ensures var c' := SourceRun(m, items, c, n);
            && !c'.Stuck? && (c'.At? ==> c'.pos <= |items|)
            && CodeRun(m, Relocated(items, forms), Image(items, forms, c), TotalCost(m, items, forms, c, n))
               == Image(items, forms, c')
    decreases n
  {
    hide SourceStep, Cost, CodeRun, Relocated, Image, OffsetFits, KnowsLengths, AllWellFormed, AllBound;
    OneStepRun(m, Relocated(items, forms), Image(items, forms, c));
    if n > 0 {
      var code, next := Relocated(items, forms), SourceStep(m, items, c);
      NeverStuck(m, items, c);
      StepSimulated(m, items, forms, c);
      RunSimulated(m, items, forms, next, n - 1);
      CodeRunSplit(m, code, Image(items, forms, c), Cost(m, items, forms, c), TotalCost(m, items, forms, next, n - 1));
    }
  }

  ghost predicate SourceEnds<S(!new)>(m: Machine<S>, items: seq<Item>, c: Config<S>, end: Config<S>) {
    exists n: nat :: SourceRun(m, items, c, n) == end
  }

  ghost predicate CodeEnds<S(!new)>(m: Machine<S>, code: seq<byte>, c: Config<S>, end: Config<S>) {
    exists n: nat :: CodeRun(m, code, c, n) == end
  }

  lemma {:induction false} SourceEndsStep<S(!new)>(m: Machine<S>, items: seq<Item>, c: Config<S>, end: Config<S>)
    requires SourceEnds(m, items, SourceStep(m, items, c), end)
    ensures SourceEnds(m, items, c, end)
  {
    var n: nat :| SourceRun(m, items, SourceStep(m, items, c), n) == end;
    assert SourceRun(m, items, c, n + 1) == end;
  }

  /** A run of the bytes that has ended was following a run of the labelled program. */
  lemma {:induction false} RunTracked<S(!new)>(
    m: Machine<S>, items: seq<Item>, forms: seq<Form>, c: Config<S>, n: nat, end: Config<S>)
    requires AllWellFormed(items) && AllBound(items) && KnowsLengths(m, items) && AllFit(items, forms)
    requires !c.Stuck? && (c.At? ==> c.pos <= |items|)
    requires !end.At? && CodeRun(m, Relocated(items, forms), Image(items, forms, c), n) == end
    ensures SourceEnds(m, items, c, end)
    decreases n, if c.At? then |items| - c.pos else 0
  {
    hide CodeRun, Relocated, Offset, Target, OffsetFits, KnowsLengths, AllWellFormed, AllBound, IsFar, Holds, Taken;
    var code, next, k := Relocated(items, forms), SourceStep(m, items, c), Cost(m, items, forms, c);
    if !c.At? {
      FinalStays(m, code, c, n);
      assert SourceRun(m, items, c, 0) == end;
    } else {
      NeverStuck(m, items, c);
      StepSimulated(m, items, forms, c);
      if n < k {
        ShortRun(m, items, forms, c, n);
      } else {
        CodeRunSplit(m, code, Image(items, forms, c), k, n - k);
        RunTracked(m, items, forms, next, n - k, end);
        SourceEndsStep(m, items, c, end);
      }
    }
  }

  lemma {:induction false} FinalStays<S(!new)>(m: Machine<S>, code: seq<byte>, c: Config<S>, n: nat)
    requires !c.At?
    ensures CodeRun(m, code, c, n) == c
    decreases n
  {
    if n > 0 {
      FinalStays(m, code, c, n - 1);
    }
  }

  /** In the middle of a source step the bytes are still running. */
  lemma {:induction false} ShortRun<S(!new)>(m: Machine<S>, items: seq<Item>, forms: seq<Form>, c: Config<S>, n: nat)
    requires AllFit(items, forms) && c.At? && c.pos <= |items| && n < Cost(m, items, forms, c)
    ensures CodeRun(m, Relocated(items, forms), Image(items, forms, c), n).At?
  {
    OneStepRun(m, Relocated(items, forms), Image(items, forms, c));
    if n == 1 {
      FarBranch(m, items, forms, c.pos, c.state);
    }
  }

  /**
    Relaxation preserves meaning: started at the beginning, the bytes leave the function, or run past
    its end, in exactly the states in which the labelled program does.
   */
  lemma {:induction false} SameOutcomes<S(
    !new)>(m: Machine<S>, items: seq<Item>, forms: seq<Form>, s: S, end: Config<S>)
    requires AllWellFormed(items) && AllBound(items) && KnowsLengths(m, items) && AllFit(items, forms)
    requires !end.At?
    ensures SourceEnds(m, items, At(0, s), end) <==> CodeEnds(m, Relocated(items, forms), At(0, s), end)
  {
    var code := Relocated(items, forms);
    if SourceEnds(m, items, At(0, s), end) {
      var n: nat :| SourceRun(m, items, At(0, s), n) == end;
      RunSimulated(m, items, forms, At(0, s), n);
      assert CodeRun(m, code, At(0, s), TotalCost(m, items, forms, At(0, s), n)) == end;
    }
    if CodeEnds(m, code, At(0, s), end) {
      var n: nat :| CodeRun(m, code, At(0, s), n) == end;
      RunTracked(m, items, forms, At(0, s), n, end);
    }
  }
}
