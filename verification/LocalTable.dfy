/**
  Local variable tables end to end. The table extracted from a compiled program has one entry for each
  variable that was started, in the order of their starts. It is exact for variables that do not share
  a register, and for those that do exactly if none starts while another one on it is still live.
 */
module LocalTable {
  import opened Bytes
  import opened Isa
  import opened Layout
  import opened LabelOffsets
  import opened Assembly
  import opened LineProgram
  import opened LineProcessor
  import opened LineCompiler
  import opened LineTable

  // ---------- starts and ends, by instruction ----------

  /** At each instruction, variables are handled in order: event (e, j) comes before event (i, k). */
  predicate Before(e: nat, j: nat, i: nat, k: nat) {
    e < i || (e == i && j < k)
  }

  function EndOf(v: Local): nat {
    v.start + v.length
  }

  /** A started variable and the instruction noted as its end. */
  datatype Live = Live(v: nat, end: Option<nat>)

  predicate InRange(locals: seq<Local>, t: seq<Live>) {
    forall p :: 0 <= p < |t| ==> t[p].v < |locals|
  }

  /** Index of the last started variable on a register, or -1. */
  function LastLive(locals: seq<Local>, t: seq<Live>, reg: int): (k: int)
    requires InRange(locals, t)
    ensures -1 <= k < |t|
    ensures k >= 0 ==> locals[t[k].v].reg == reg
    ensures forall j :: k < j < |t| ==> locals[t[j].v].reg != reg
  {
    if t == [] then -1
    else if locals[t[|t| - 1].v].reg == reg then |t| - 1
    else LastLive(locals, t[..|t| - 1], reg)
  }

  function TrackStart(locals: seq<Local>, k: nat, i: nat, t: seq<Live>): (t': seq<Live>)
    requires k < |locals| && InRange(locals, t)
    ensures InRange(locals, t')
  {
    if !locals[k].isParameter && i == locals[k].start then t + [Live(k, None)] else t
  }

  function TrackEnd(locals: seq<Local>, k: nat, i: nat, t: seq<Live>): (t': seq<Live>)
    requires k < |locals| && InRange(locals, t)
    ensures InRange(locals, t')
  {
    var a := LastLive(locals, t, locals[k].reg);
    if !locals[k].isParameter && i == EndOf(locals[k]) && a >= 0 then t[a := t[a].(end := Some(i))] else t
  }

  /** What has been noted before variable k is handled at instruction i. */
  function Track(locals: seq<Local>, i: nat, k: nat): (t: seq<Live>)
    requires k <= |locals|
    ensures InRange(locals, t)
    decreases i, k
  {
    if k > 0 then TrackEnd(locals, k - 1, i, TrackStart(locals, k - 1, i, Track(locals, i, k - 1)))
    else if i > 0 then Track(locals, i - 1, |locals|)
    else []
  }

  lemma {:induction false} TrackStep(locals: seq<Local>, i: nat, k: nat)
    ensures Track(locals, 0, 0) == []
    ensures Track(locals, i + 1, 0) == Track(locals, i, |locals|)
    ensures k < |locals| ==>
      Track(locals, i, k + 1) == TrackEnd(locals, k, i, TrackStart(locals, k, i, Track(locals, i, k)))
  {
    hide TrackStart, TrackEnd;
  }

  predicate StartedBy(locals: seq<Local>, i: nat, k: nat, j: nat)
    requires j < |locals|
  {
    !locals[j].isParameter && Before(locals[j].start, j, i, k)
  }

  predicate StartsEarlier(locals: seq<Local>, j: nat, k: nat)
    requires j < |locals| && k < |locals|
  {
    Before(locals[j].start, j, locals[k].start, k)
  }

  ghost predicate Has(t: seq<Live>, j: nat) {
    exists p :: 0 <= p < |t| && t[p].v == j
  }

  /** Exactly the variables started so far, in the order of their starts. */
  ghost predicate Ordered(locals: seq<Local>, i: nat, k: nat, t: seq<Live>) {
    && InRange(locals, t)
    && (forall p, q :: 0 <= p < q < |t| ==> StartsEarlier(locals, t[p].v, t[q].v))
    && (forall p :: 0 <= p < |t| ==> StartedBy(locals, i, k, t[p].v))
    && (forall j: nat :: j < |locals| && StartedBy(locals, i, k, j) ==> Has(t, j))
  }

  lemma {:induction false} StartKeepsOrder(locals: seq<Local>, i: nat, k: nat, t: seq<Live>)
    requires k < |locals| && Ordered(locals, i, k, t)
    ensures Ordered(locals, i, k + 1, TrackStart(locals, k, i, t))
  {
    var t' := TrackStart(locals, k, i, t);
    forall j: nat | j < |locals| && StartedBy(locals, i, k + 1, j) ensures Has(t', j) {
      if j == k && locals[k].start == i {
        assert t'[|t|].v == j;
      } else {
        assert StartedBy(locals, i, k, j);
        var p :| 0 <= p < |t| && t[p].v == j;
        assert t'[p].v == j;
      }
    }
  }

  lemma {:induction false} SameOrder(locals: seq<Local>, i: nat, k: nat, t: seq<Live>, t': seq<Live>)
    requires Ordered(locals, i, k, t) && |t'| == |t| && forall p :: 0 <= p < |t| ==> t'[p].v == t[p].v
    ensures Ordered(locals, i, k, t')
  {
    forall j: nat | Has(t, j) ensures Has(t', j) {
      var p :| 0 <= p < |t| && t[p].v == j;
      assert t'[p].v == j;
    }
  }

  /** The table lists exactly the variables started so far, in the order of their starts. */
  lemma {:induction false} TrackOrdered(locals: seq<Local>, i: nat, k: nat)
    requires k <= |locals|
    ensures Ordered(locals, i, k, Track(locals, i, k))
    decreases i, k
  {
    hide Track, TrackStart;
    if k > 0 {
      TrackOrdered(locals, i, k - 1);
      TrackStep(locals, i, k - 1);
      StartKeepsOrder(locals, i, k - 1, Track(locals, i, k - 1));
      SameOrder(locals, i, k, TrackStart(locals, k - 1, i, Track(locals, i, k - 1)), Track(locals, i, k));
    } else if i > 0 {
      TrackOrdered(locals, i - 1, |locals|);
      TrackStep(locals, i - 1, 0);
      var t := Track(locals, i, 0);
      assert forall j: nat :: j < |locals| ==> (StartedBy(locals, i, 0, j) <==> StartedBy(locals, i - 1, |locals|, j));
    } else {
      TrackStep(locals, 0, 0);
    }
  }

  /** The end of a variable finds it, or another one that started on its register since. */
  lemma {:induction false} EndFinds(locals: seq<Local>, i: nat, k: nat, t: seq<Live>)
    requires k < |locals| && Ordered(locals, i, k + 1, t) && StartedBy(locals, i, k + 1, k)
    ensures
      var a := LastLive(locals, t, locals[k].reg);
      && a >= 0
      && (t[a].v == k || StartsEarlier(locals, k, t[a].v))
      && (forall x: nat :: x < |locals| && StartedBy(locals, i, k + 1, x) && locals[x].reg == locals[k].reg ==>
            x == t[a].v || StartsEarlier(locals, x, t[a].v))
  {
    hide LastLive;
    var a := LastLive(locals, t, locals[k].reg);
    forall x: nat | x < |locals| && StartedBy(locals, i, k + 1, x) && locals[x].reg == locals[k].reg
      ensures a >= 0 && (x == t[a].v || StartsEarlier(locals, x, t[a].v))
    {
      assert Has(t, x);
      var p :| 0 <= p < |t| && t[p].v == x;
      assert p <= a;
    }
    assert StartedBy(locals, i, k + 1, k);
  }

  // ---------- when the noted ends are right ----------

  /** Variable k starts on the register of j after j has started and before j ends. */
  predicate StartsWithin(locals: seq<Local>, n: nat, j: nat, k: nat)
    requires j < |locals| && k < |locals|
  {
    var v, w := locals[j], locals[k];
    && !v.isParameter && !w.isParameter && v.reg == w.reg
    && StartsEarlier(locals, j, k)
    && EndOf(v) < n && Before(w.start, k, EndOf(v), j)
  }

  predicate Separate(locals: seq<Local>, n: nat) {
    forall j, k :: 0 <= j < |locals| && 0 <= k < |locals| ==> !StartsWithin(locals, n, j, k)
  }

  /** The end a variable should have before (i, k): its own, once that has been passed. */
  function OwnEnd(locals: seq<Local>, i: nat, k: nat, j: nat): Option<nat>
    requires j < |locals|
  {
    if Before(EndOf(locals[j]), j, i, k) then Some(EndOf(locals[j])) else None
  }

  predicate OwnEnds(locals: seq<Local>, i: nat, k: nat, t: seq<Live>)
    requires InRange(locals, t)
  {
    forall p :: 0 <= p < |t| ==> t[p].end == OwnEnd(locals, i, k, t[p].v)
  }

  lemma {:induction false} StepKeepsEnds(locals: seq<Local>, n: nat, i: nat, k: nat, t: seq<Live>)
    requires k < |locals| && i < n && Separate(locals, n)
    requires Ordered(locals, i, k, t) && OwnEnds(locals, i, k, t)
    ensures OwnEnds(locals, i, k + 1, TrackEnd(locals, k, i, TrackStart(locals, k, i, t)))
  {
    hide LastLive;
    var t1 := TrackStart(locals, k, i, t);
    StartKeepsOrder(locals, i, k, t);
    if !locals[k].isParameter && i == EndOf(locals[k]) {
      EndFinds(locals, i, k, t1);
      var a := LastLive(locals, t1, locals[k].reg);
      assert !StartsWithin(locals, n, k, t1[a].v);
      assert StartedBy(locals, i, k + 1, t1[a].v);
      assert t1[a].v == k;
      forall p | 0 <= p < |t1| && p != a ensures t1[p].v != k {
        if p < a {
          assert StartsEarlier(locals, t1[p].v, t1[a].v);
        } else {
          assert StartsEarlier(locals, t1[a].v, t1[p].v);
        }
      }
    }
  }

  lemma {:induction false} SeparateEnds(locals: seq<Local>, n: nat, i: nat, k: nat)
    requires k <= |locals| && Separate(locals, n) && (i < n || (i == n && k == 0))
    ensures OwnEnds(locals, i, k, Track(locals, i, k))
    decreases i, k
  {
    hide Track, TrackStart, TrackEnd, Separate, Ordered;
    if k > 0 {
      SeparateEnds(locals, n, i, k - 1);
      TrackStep(locals, i, k - 1);
      TrackOrdered(locals, i, k - 1);
      StepKeepsEnds(locals, n, i, k - 1, Track(locals, i, k - 1));
    } else if i > 0 {
      SeparateEnds(locals, n, i - 1, |locals|);
      TrackStep(locals, i - 1, 0);
    } else {
      TrackStep(locals, 0, 0);
    }
  }

  predicate LaterOn(locals: seq<Local>, v: nat, x: nat)
    requires v < |locals| && x < |locals|
  {
    !locals[x].isParameter && locals[x].reg == locals[v].reg && StartsEarlier(locals, v, x)
  }

  /** Variable m may have set the end of v: v is the last one on the register that started before m ends. */
  ghost predicate Setter(locals: seq<Local>, m: nat, v: nat)
    requires v < |locals|
  {
    && m < |locals| && !locals[m].isParameter && locals[m].reg == locals[v].reg
    && (m == v || (StartsEarlier(locals, m, v) && Before(locals[v].start, v, EndOf(locals[m]), m)))
    && forall x: nat :: x < |locals| && LaterOn(locals, v, x) ==> !Before(locals[x].start, x, EndOf(locals[m]), m)
  }

  ghost predicate SetBySome(locals: seq<Local>, n: nat, e: Live)
    requires e.v < |locals|
  {
    e.end.Some? ==> exists m: nat :: Setter(locals, m, e.v) && EndOf(locals[m]) == e.end.value < n
  }

  ghost predicate AllSet(locals: seq<Local>, n: nat, t: seq<Live>)
    requires InRange(locals, t)
  {
    forall p :: 0 <= p < |t| ==> SetBySome(locals, n, t[p])
  }

  lemma {:induction false} StepKeepsSet(locals: seq<Local>, n: nat, i: nat, k: nat, t: seq<Live>)
    requires k < |locals| && i < n && Ordered(locals, i, k, t) && AllSet(locals, n, t)
    ensures AllSet(locals, n, TrackEnd(locals, k, i, TrackStart(locals, k, i, t)))
  {
    hide LastLive;
    var t1 := TrackStart(locals, k, i, t);
    StartKeepsOrder(locals, i, k, t);
    assert AllSet(locals, n, t1);
    if !locals[k].isParameter && i == EndOf(locals[k]) {
      EndFinds(locals, i, k, t1);
      var a := LastLive(locals, t1, locals[k].reg);
      var v := t1[a].v;
      assert StartedBy(locals, i, k + 1, v);
      forall x: nat | x < |locals| && LaterOn(locals, v, x) ensures !Before(locals[x].start, x, EndOf(locals[k]), k) {
        assert StartedBy(locals, i, k + 1, x) <==> Before(locals[x].start, x, i, k + 1);
      }
      assert Setter(locals, k, v);
    }
  }

  lemma {:induction false} TrackSet(locals: seq<Local>, n: nat, i: nat, k: nat)
    requires k <= |locals| && (i < n || (i == n && k == 0))
    ensures AllSet(locals, n, Track(locals, i, k))
    decreases i, k
  {
    hide Track, TrackStart, TrackEnd, Ordered, SetBySome;
    if k > 0 {
      TrackSet(locals, n, i, k - 1);
      TrackStep(locals, i, k - 1);
      TrackOrdered(locals, i, k - 1);
      StepKeepsSet(locals, n, i, k - 1, Track(locals, i, k - 1));
    } else if i > 0 {
      TrackSet(locals, n, i - 1, |locals|);
      TrackStep(locals, i - 1, 0);
    } else {
      TrackStep(locals, 0, 0);
    }
  }

  /** If all noted ends are right, no variable starts within another: the first of such pairs would be wrong. */
  lemma {:induction false} RightEndsSeparate(locals: seq<Local>, n: nat, j: nat, k: nat)
    requires j < |locals| && k < |locals| && OwnEnds(locals, n, 0, Track(locals, n, 0))
    ensures !StartsWithin(locals, n, j, k)
    decreases locals[j].start, j
  {
    hide Track;
    if StartsWithin(locals, n, j, k) {
      var t := Track(locals, n, 0);
      TrackOrdered(locals, n, 0);
      TrackSet(locals, n, n, 0);
      assert StartedBy(locals, n, 0, j);
      assert Has(t, j);
      var p :| 0 <= p < |t| && t[p].v == j;
      assert SetBySome(locals, n, t[p]);
      var m: nat :| Setter(locals, m, j) && EndOf(locals[m]) == t[p].end.value < n;
      if m != j {
        RightEndsSeparate(locals, n, m, j);
      }
    }
  }

  /**
    After n instructions every variable has been given its own end exactly if none starts on the
    register of another one between its start and its end.
   */
  lemma {:induction false} EndsExactly(locals: seq<Local>, n: nat)
    ensures OwnEnds(locals, n, 0, Track(locals, n, 0)) <==> Separate(locals, n)
  {
    hide Track, OwnEnds;
    if Separate(locals, n) {
      SeparateEnds(locals, n, n, 0);
    }
    if OwnEnds(locals, n, 0, Track(locals, n, 0)) {
      forall j, k | 0 <= j < |locals| && 0 <= k < |locals| ensures !StartsWithin(locals, n, j, k) {
        RightEndsSeparate(locals, n, j, k);
      }
    }
  }

  /** Two variables that hand over a register at instruction 2. */
  function HandOver(inOrder: bool): seq<Local> {
    var a, b := Local(0, 0, 2, 1, 1, None, false), Local(0, 2, 2, 2, 2, None, false);
    if inOrder then [a, b] else [b, a]
  }

  /** They are told apart if the one that ends is listed first; listed last, its end is given to the other. */
  lemma {:induction false} HandOverExactly(inOrder: bool)
    ensures OwnEnds(HandOver(inOrder), 5, 0, Track(HandOver(inOrder), 5, 0)) <==> inOrder
  {
    hide Track, OwnEnds;
    EndsExactly(HandOver(inOrder), 5);
    if !inOrder {
      assert StartsWithin(HandOver(inOrder), 5, 1, 0);
    }
  }

  // ---------- the operations ----------

  /** The entry of a variable that starts and ends at the given offsets. */
  function Entry(v: Local, start: nat, end: nat): Variable {
    Variable(v.name, v.typ, if v.sig.Some? then v.sig.value else v.typ, v.reg, start, end)
  }

  /** What the table of the processor shows for what has been noted. */
  function Shown(locals: seq<Local>, off: nat -> nat, t: seq<Live>): (r: seq<Variable>)
    requires InRange(locals, t)
    ensures |r| == |t|
    ensures forall p :: 0 <= p < |t| ==> r[p] == ShownEntry(locals, off, t[p])
  {
    seq(|t|, p requires 0 <= p < |t| => ShownEntry(locals, off, t[p]))
  }

  function ShownEntry(locals: seq<Local>, off: nat -> nat, e: Live): Variable
    requires e.v < |locals|
  {
    Entry(locals[e.v], off(locals[e.v].start), if e.end.Some? then off(e.end.value) else 0)
  }

  /** What handling variable k at instruction i does to the table. */
  function StartIn(v: Local, i: nat, off: nat -> nat, table: seq<Variable>): seq<Variable> {
    if !v.isParameter && i == v.start then table + [Entry(v, off(i), 0)] else table
  }

  function EndIn(v: Local, i: nat, off: nat -> nat, table: seq<Variable>): seq<Variable> {
    var a := LastOn(table, v.reg);
    if !v.isParameter && i == EndOf(v) && a >= 0 then table[a := table[a].(end := off(i))] else table
  }

  lemma {:induction false} LastShown(locals: seq<Local>, off: nat -> nat, t: seq<Live>, reg: int)
    requires InRange(locals, t)
    ensures LastOn(Shown(locals, off, t), reg) == LastLive(locals, t, reg)
  {
    hide LastOn, LastLive;
    var r, a := Shown(locals, off, t), LastLive(locals, t, reg);
    assert forall j :: 0 <= j < |r| ==> r[j].reg == locals[t[j].v].reg;
  }

  lemma {:induction false} ShownStep(locals: seq<Local>, off: nat -> nat, i: nat, k: nat, t: seq<Live>)
    requires k < |locals| && InRange(locals, t)
    ensures
      var t1 := TrackStart(locals, k, i, t);
      && StartIn(locals[k], i, off, Shown(locals, off, t)) == Shown(locals, off, t1)
      && EndIn(locals[k], i, off, Shown(locals, off, t1)) == Shown(locals, off, TrackEnd(locals, k, i, t1))
  {
    hide LastOn, LastLive;
    LastShown(locals, off, TrackStart(locals, k, i, t), locals[k].reg);
  }

  /** Handling variable v at instruction i, as operations, is handling it in the table. */
  lemma {:induction false} VariableOps(v: Local, i: nat, g: Gen, start: State, off: nat -> nat)
    requires ValidOps(g.ops) && Reached(g, start).address + g.pcInc == off(i)
    requires var t := StartIn(v, i, off, Reached(g, start).locals);
             !v.isParameter && i == EndOf(v) ==> LastOn(t, v.reg) >= 0
    ensures
      var g' := GenEnd(v, i, GenStart(v, i, g));
      && SameLines(g, g', start)
      && Reached(g', start).locals == EndIn(v, i, off, StartIn(v, i, off, Reached(g, start).locals))
      && Reached(g', start).fatal == Reached(g, start).fatal
  {
    hide ExecAll, ValidOps, LastOn;
    LocalMeaning(v, i, g, start);
    FlushMeaning(g, start);
    AddOpMeaning(Flush(g), StartOp(v), start);
    var g1 := GenStart(v, i, g);
    FlushMeaning(g1, start);
    AddOpMeaning(Flush(g1), EndLocal(v.reg), start);
  }

  lemma {:induction false} NeverUnknown(locals: seq<Local>, off: nat -> nat, i: nat, k: nat)
    requires k < |locals| && !locals[k].isParameter && i == EndOf(locals[k])
    ensures LastOn(Shown(locals, off, TrackStart(locals, k, i, Track(locals, i, k))), locals[k].reg) >= 0
  {
    hide Track, TrackStart, LastOn, LastLive;
    var t := Track(locals, i, k);
    TrackOrdered(locals, i, k);
    StartKeepsOrder(locals, i, k, t);
    EndFinds(locals, i, k, TrackStart(locals, k, i, t));
    LastShown(locals, off, TrackStart(locals, k, i, t), locals[k].reg);
  }

  lemma {:induction false} LocalsTable(locals: seq<Local>, k: nat, i: nat, g: Gen, start: State, off: nat -> nat)
    requires k <= |locals| && ValidOps(g.ops)
    requires Reached(g, start).address + g.pcInc == off(i)
    requires Reached(g, start).locals == Shown(locals, off, Track(locals, i, 0))
    ensures
      var g' := GenLocals(locals, k, i, g);
      && SameLines(g, g', start)
      && Reached(g', start).locals == Shown(locals, off, Track(locals, i, k))
      && Reached(g', start).fatal == Reached(g, start).fatal
  {
    hide ExecAll, ValidOps, Track, Shown, GenStart, GenEnd, StartIn, EndIn, TrackStart, TrackEnd, LastOn;
    LocalsMeaning(locals, k, i, g, start);
    if k > 0 {
      var g1, t := GenLocals(locals, k - 1, i, g), Track(locals, i, k - 1);
      LocalsTable(locals, k - 1, i, g, start, off);
      TrackStep(locals, i, k - 1);
      ShownStep(locals, off, i, k - 1, t);
      if !locals[k - 1].isParameter && i == EndOf(locals[k - 1]) {
        NeverUnknown(locals, off, i, k - 1);
      }
      VariableOps(locals[k - 1], i, g1, start, off);
    }
  }

  /** Line and column operations leave the table alone. */
  lemma {:induction false} OthersKeepLocals(line: int, column: int, g: Gen, start: State)
    requires ValidOps(g.ops) && g.pcInc * LINE_RANGE < 0x1_0000_0000
    ensures ValidOps(GenLine(line, g).ops) && Reached(GenLine(line, g), start).locals == Reached(g, start).locals
    ensures Reached(GenLine(line, g), start).fatal == Reached(g, start).fatal
    ensures ValidOps(GenColumn(column, g).ops)
    ensures Reached(GenColumn(column, g), start).locals == Reached(g, start).locals
    ensures Reached(GenColumn(column, g), start).fatal == Reached(g, start).fatal
  {
    hide ExecAll, NumberOps;
    SameLine(line, g);
    if line != g.prevLine {
      LineMeaning(line, g, start);
    }
    FlushMeaning(g, start);
    AddOpMeaning(Flush(g), SetColumn(column % 0x1_0000_0000), start);
  }

  lemma {:induction false} TurnTable(f: Function, size: nat, i: nat, g: Gen, start: State, off: nat -> nat)
    requires i < |f.ins| && ValidOps(g.ops)
    requires Reached(g, start).address + g.pcInc == off(i) && off(i) * LINE_RANGE < 0x1_0000_0000
    requires Reached(g, start).locals == Shown(f.locals, off, Track(f.locals, i, 0))
    ensures
      var g' := GenIns(f, true, size, i, g);
      && ValidOps(g'.ops)
      && Reached(g', start).locals == Shown(f.locals, off, Track(f.locals, i + 1, 0))
      && Reached(g', start).fatal == Reached(g, start).fatal
  {
    hide ExecAll, ValidOps, Track, Shown, GenLocals, GenLine, GenColumn;
    var ins := f.ins[i];
    var g1 := GenLocals(f.locals, |f.locals|, i, g);
    LocalsTable(f.locals, |f.locals|, i, g, start, off);
    TrackStep(f.locals, i, 0);
    if ins.code.Some? {
      OthersKeepLocals(ins.line, ins.column, g1, start);
      var g2 := GenLine(ins.line, g1);
      SmallAfterLine(ins.line, g1);
      OthersKeepLocals(ins.line, ins.column, g2, start);
    }
  }

  lemma {:induction false} SmallAfterLine(line: int, g: Gen)
    ensures GenLine(line, g).pcInc <= g.pcInc
  {
  }

  // ---------- whole functions ----------

  ghost function OffsetOf(f: Function, length: seq<byte> -> nat, code: seq<byte>): nat -> nat {
    (k: nat) => if k <= |f.ins| then Off(f, length, code, k) else 0
  }

  lemma {:induction false} TableAfter(f: Function, file: nat, length: seq<byte> -> nat, code: seq<byte>, k: nat)
    requires f.ins != [] && k <= |f.ins| && Walkable(f, length, code)
    ensures
      var g, start := GenAll(f, true, length, code, k), Start(f, file);
      && ValidOps(g.ops)
      && Reached(g, start).locals == Shown(f.locals, OffsetOf(f, length, code), Track(f.locals, k, 0))
      && !Reached(g, start).fatal
  {
    hide InsnSize, Walk, Opcodes, GenIns, GenAll, ExecAll, ValidOps, Walkable, Track;
    var start, off := Start(f, file), OffsetOf(f, length, code);
    if k == 0 {
      GenStep(f, true, length, code, 0);
      TrackStep(f.locals, 0, 0);
      NoOps(start);
    } else {
      hide Shown;
      var g := GenAll(f, true, length, code, k - 1);
      TableAfter(f, file, length, code, k - 1);
      RowsAfter(f, file, true, length, code, k - 1);
      NoWrap(f, length, code, k - 1);
      GenStep(f, true, length, code, k - 1);
      TurnTable(f, InsnSize(length, code, Off(f, length, code, k - 1)), k - 1, g, start, off);
    }
  }

  /**
    The extracted table is the one noted during the walk, with byte offsets for instructions, unless the
    program starts with a column; then it is empty. No end of a variable is ever reported for a register
    that is not in the table.
   */
  lemma {:induction false} LocalTableExactly(f: Function, file: nat, length: seq<byte> -> nat, code: seq<byte>)
    requires f.ins != [] && Walkable(f, length, code)
    ensures ValidOps(Compile(f, true, length, code))
    ensures
      var st := Tables(Compile(f, true, length, code), file, f.ins[0].line);
      && !st.fatal
      && st.locals == if ColumnFirst(f, true) then []
                      else CloseAll(Shown(f.locals, OffsetOf(f, length, code), Track(f.locals, |f.ins|, 0)), st.address)
  {
    hide InsnSize, Walk, GenAll, ColumnFirst, Walkable, Compile, Tables, ExecAll, Track, Shown;
    TableAfter(f, file, length, code, |f.ins|);
    ExecutedExactly(f, file, true, length, code);
  }

  /** The offset at which a variable ends: that of its end instruction, or the last address reached if it has none. */
  function FinalEnd(f: Function, off: nat -> nat, last: nat, v: Local): nat {
    var e := if EndOf(v) < |f.ins| then off(EndOf(v)) else 0;
    if e == 0 then last else e
  }

  function FinalEntry(f: Function, off: nat -> nat, last: nat, v: Local): Variable {
    Entry(v, off(v.start), FinalEnd(f, off, last, v))
  }

  /** One entry for each variable that starts in the function, in the order of their starts, and no others. */
  ghost predicate CompleteTable(f: Function, off: nat -> nat, last: nat, table: seq<Variable>) {
    exists t: seq<Live> ::
      && Ordered(f.locals, |f.ins|, 0, t) && |t| == |table|
      && forall p :: 0 <= p < |t| ==> table[p] == FinalEntry(f, off, last, f.locals[t[p].v])
  }

  /** With separate variables, the extracted table has exactly the right entries. */
  lemma {:induction false} SeparateTable(f: Function, file: nat, length: seq<byte> -> nat, code: seq<byte>)
    requires f.ins != [] && Walkable(f, length, code) && Separate(f.locals, |f.ins|)
    ensures ValidOps(Compile(f, true, length, code))
    ensures
      var st := Tables(Compile(f, true, length, code), file, f.ins[0].line);
      !ColumnFirst(f, true) ==> CompleteTable(f, OffsetOf(f, length, code), st.address, st.locals)
  {
    hide Walk, ColumnFirst, Walkable, Compile, Tables, Track, Separate, Ordered, OffsetOf;
    LocalTableExactly(f, file, length, code);
    EndsExactly(f.locals, |f.ins|);
    TrackOrdered(f.locals, |f.ins|, 0);
  }

  // ---------- when the extracted table tells ----------

  /** Two lists of the same variables, each in the order of their starts, are the same list. */
  lemma {:induction false} OneOrder(locals: seq<Local>, i: nat, k: nat, t: seq<Live>, u: seq<Live>, p: nat)
    requires Ordered(locals, i, k, t) && Ordered(locals, i, k, u) && p < |t| && p < |u|
    ensures t[p].v == u[p].v
  {
    forall r: nat | r < p ensures t[r].v == u[r].v {
      OneOrder(locals, i, k, t, u, r);
    }
    assert Has(u, t[p].v) && Has(t, u[p].v);
    var q :| 0 <= q < |u| && u[q].v == t[p].v;
    var r :| 0 <= r < |t| && t[r].v == u[p].v;
  }

  /** Offsets of ends differ from each other, from zero, and from the last address reached. */
  ghost predicate Apart(f: Function, off: nat -> nat, last: nat) {
    forall j, k :: 0 <= j < |f.locals| && 0 <= k < |f.locals| && Ends(f, j) && Ends(f, k) ==>
      var a, b := EndOf(f.locals[j]), EndOf(f.locals[k]);
      off(a) != 0 && off(a) != last && (off(a) == off(b) ==> a == b)
  }

  predicate Ends(f: Function, j: nat)
    requires j < |f.locals|
  {
    !f.locals[j].isParameter && EndOf(f.locals[j]) < |f.ins|
  }

  lemma {:induction false} ApartEnds(f: Function, off: nat -> nat, last: nat, t: seq<Live>, table: seq<Variable>)
    requires Apart(f, off, last) && Ordered(f.locals, |f.ins|, 0, t) && AllSet(f.locals, |f.ins|, t)
    requires table == CloseAll(Shown(f.locals, off, t), last) && CompleteTable(f, off, last, table)
    ensures OwnEnds(f.locals, |f.ins|, 0, t)
  {
    var u: seq<Live> :|
      && Ordered(f.locals, |f.ins|, 0, u) && |u| == |table|
      && forall p :: 0 <= p < |u| ==> table[p] == FinalEntry(f, off, last, f.locals[u[p].v]);
    forall p | 0 <= p < |t| ensures t[p].end == OwnEnd(f.locals, |f.ins|, 0, t[p].v) {
      hide Ordered, CompleteTable, Setter;
      OneOrder(f.locals, |f.ins|, 0, t, u, p);
      StartedIn(f.locals, |f.ins|, t, p);
      assert SetBySome(f.locals, |f.ins|, t[p]);
      if t[p].end.Some? {
        var m: nat :| Setter(f.locals, m, t[p].v) && EndOf(f.locals[m]) == t[p].end.value < |f.ins|;
        SetterEnds(f, m, t[p].v);
      }
    }
  }

  lemma {:induction false} StartedIn(locals: seq<Local>, n: nat, t: seq<Live>, p: nat)
    requires Ordered(locals, n, 0, t) && p < |t|
    ensures t[p].v < |locals| && !locals[t[p].v].isParameter
  {
    assert StartedBy(locals, n, 0, t[p].v);
  }

  lemma {:induction false} SetterEnds(f: Function, m: nat, v: nat)
    requires v < |f.locals| && Setter(f.locals, m, v)
    ensures m < |f.locals| && !f.locals[m].isParameter
  {
  }

  /** Where the offsets of ends tell them apart, the table is right for separate variables and for no others. */
  lemma {:induction false} ApartExactly(f: Function, file: nat, length: seq<byte> -> nat, code: seq<byte>)
    requires f.ins != [] && Walkable(f, length, code)
    ensures ValidOps(Compile(f, true, length, code))
    ensures
      var st := Tables(Compile(f, true, length, code), file, f.ins[0].line);
      !ColumnFirst(f, true) && Apart(f, OffsetOf(f, length, code), st.address) ==>
        (CompleteTable(f, OffsetOf(f, length, code), st.address, st.locals) <==> Separate(f.locals, |f.ins|))
  {
    hide Walk, ColumnFirst, Walkable, Compile, Tables, Track, Separate, Ordered, OffsetOf, Apart, CompleteTable,
      OwnEnds, AllSet, Shown, CloseAll;
    LocalTableExactly(f, file, length, code);
    EndsExactly(f.locals, |f.ins|);
    TrackOrdered(f.locals, |f.ins|, 0);
    TrackSet(f.locals, |f.ins|, |f.ins|, 0);
    var off, t := OffsetOf(f, length, code), Track(f.locals, |f.ins|, 0);
    var st := Tables(Compile(f, true, length, code), file, f.ins[0].line);
    if Separate(f.locals, |f.ins|) {
      SeparateTable(f, file, length, code);
    } else if !ColumnFirst(f, true) && Apart(f, off, st.address) && CompleteTable(f, off, st.address, st.locals) {
      ApartEnds(f, off, st.address, t, st.locals);
      assert false;
    }
  }

  /** Instruction e has an opcode, follows one, and one with another line comes later. */
  predicate Seen(f: Function, e: nat) {
    && e < |f.ins| && f.ins[e].code.Some?
    && (exists i :: 0 <= i < e && f.ins[i].code.Some?)
    && (exists k :: e < k < |f.ins| && f.ins[k].code.Some? && f.ins[k].line != f.ins[e].line)
  }

  /** The address gets past an instruction whose line is not the last one. */
  lemma {:induction false} AddressPasses(
    f: Function, file: nat, length: seq<byte> -> nat, code: seq<byte>, e: nat, k: nat)
    requires f.ins != [] && Walkable(f, length, code) && e < k < |f.ins|
    requires f.ins[e].code.Some? && f.ins[k].code.Some? && f.ins[k].line != f.ins[e].line
    ensures ValidOps(GenAll(f, true, length, code, |f.ins|).ops)
    ensures Reached(GenAll(f, true, length, code, |f.ins|), Start(f, file)).address > Off(f, length, code, e)
  {
    hide GenAll, Walkable, Off, ValidOps, ExecAll, Start;
    RowsAfter(f, file, true, length, code, |f.ins|);
    OffMonotone(f, length, code, e, k);
    var lines := Reached(GenAll(f, true, length, code, |f.ins|), Start(f, file)).lines;
    assert Noted(f.ins[e], true) && Noted(f.ins[k], true);
    assert LineAt(lines, Off(f, length, code, e)) == f.ins[e].line;
    assert LineAt(lines, Off(f, length, code, k)) == f.ins[k].line;
  }

  lemma {:induction false} SeenApart(f: Function, file: nat, length: seq<byte> -> nat, code: seq<byte>, a: nat, b: nat)
    requires f.ins != [] && Walkable(f, length, code) && Seen(f, a) && Seen(f, b)
    ensures ValidOps(GenAll(f, true, length, code, |f.ins|).ops)
    ensures
      var off := OffsetOf(f, length, code);
      var last := Reached(GenAll(f, true, length, code, |f.ins|), Start(f, file)).address;
      off(a) != 0 && off(a) != last && (off(a) == off(b) ==> a == b)
  {
    hide GenAll, Walkable, Off, ValidOps, ExecAll, Start;
    var i :| 0 <= i < a && f.ins[i].code.Some?;
    var k :| a < k < |f.ins| && f.ins[k].code.Some? && f.ins[k].line != f.ins[a].line;
    AddressPasses(f, file, length, code, a, k);
    OffStep(f, length, code, i);
    OffMonotone(f, length, code, i + 1, a);
    OffStep(f, length, code, a);
    OffStep(f, length, code, b);
    if a < b {
      OffMonotone(f, length, code, a + 1, b);
    } else if b < a {
      OffMonotone(f, length, code, b + 1, a);
    }
  }

  /**
    If every end in the function is seen, the extracted table is right exactly if no variable starts
    on the register of another one between its start and its end.
   */
  lemma {:induction false} TableExactly(f: Function, file: nat, length: seq<byte> -> nat, code: seq<byte>)
    requires f.ins != [] && Walkable(f, length, code)
    requires forall j :: 0 <= j < |f.locals| && Ends(f, j) ==> Seen(f, EndOf(f.locals[j]))
    ensures ValidOps(Compile(f, true, length, code))
    ensures
      var st := Tables(Compile(f, true, length, code), file, f.ins[0].line);
      !ColumnFirst(f, true) ==>
        (CompleteTable(f, OffsetOf(f, length, code), st.address, st.locals) <==> Separate(f.locals, |f.ins|))
  {
    hide GenAll, Walkable, ValidOps, ExecAll, Start, Separate, CompleteTable, OffsetOf, ColumnFirst, Seen, Tables,
      Compile;
    ApartExactly(f, file, length, code);
    ExecutedExactly(f, file, true, length, code);
    var st := Tables(Compile(f, true, length, code), file, f.ins[0].line);
    forall j, k | 0 <= j < |f.locals| && 0 <= k < |f.locals| && Ends(f, j) && Ends(f, k) && !ColumnFirst(f, true)
      ensures
        var off, a, b := OffsetOf(f, length, code), EndOf(f.locals[j]), EndOf(f.locals[k]);
        off(a) != 0 && off(a) != st.address && (off(a) == off(b) ==> a == b)
    {
      SeenApart(f, file, length, code, EndOf(f.locals[j]), EndOf(f.locals[k]));
    }
  }

  /** Six one-byte instructions, the last on a line of its own, with two variables that hand over a register. */
  function HandOverFunction(inOrder: bool, source: Source): Function {
    var code := Some(Plain([0x00]));
    Function(seq(6, i => Ins(None, code, if i == 5 then 2 else 1, 0, false)), HandOver(inOrder), false, source)
  }

  const SIX: seq<byte> := [0x00, 0x00, 0x00, 0x00, 0x00, 0x00]

  lemma {:induction false} HandOverWalk(inOrder: bool, source: Source, k: nat)
    requires k <= 6
    ensures Opcodes(HandOverFunction(inOrder, source).ins, k) == k && Walk(OneByte, SIX, k) == k
  {
    if k > 0 {
      HandOverWalk(inOrder, source, k - 1);
    }
  }

  lemma {:induction false} HandOverWalkable(inOrder: bool, source: Source)
    ensures Walkable(HandOverFunction(inOrder, source), OneByte, SIX)
  {
    hide Opcodes, Walk;
    forall k: nat | k <= 6
      ensures Opcodes(HandOverFunction(inOrder, source).ins, k) == k && Walk(OneByte, SIX, k) == k
    {
      HandOverWalk(inOrder, source, k);
    }
  }

  /** In the table that is extracted, too, they are told apart exactly if the one that ends is listed first. */
  lemma {:induction false} HandOverTable(inOrder: bool, source: Source, file: nat)
    ensures
      var f := HandOverFunction(inOrder, source);
      && Walkable(f, OneByte, SIX) && ValidOps(Compile(f, true, OneByte, SIX))
      && var st := Tables(Compile(f, true, OneByte, SIX), file, 1);
      CompleteTable(f, OffsetOf(f, OneByte, SIX), st.address, st.locals) <==> inOrder
  {
    hide Walkable, ValidOps, Tables, Compile, CompleteTable, OffsetOf, Track, OwnEnds;
    var f := HandOverFunction(inOrder, source);
    HandOverWalkable(inOrder, source);
    assert f.ins[0].code.Some? && f.ins[5].code.Some? && f.ins[2].code.Some? && f.ins[4].code.Some?;
    assert Seen(f, 2) && Seen(f, 4);
    TableExactly(f, file, OneByte, SIX);
    if !inOrder {
      assert StartsWithin(f.locals, 6, 1, 0);
    }
  }

  /** Variables on distinct registers are separate, and so are variables whose live ranges do not touch. */
  lemma {:induction false} DisjointIsSeparate(locals: seq<Local>, n: nat)
    requires forall j, k :: 0 <= j < |locals| && 0 <= k < |locals| && j != k && locals[j].reg == locals[k].reg ==>
               EndOf(locals[j]) < locals[k].start || EndOf(locals[k]) < locals[j].start
    ensures Separate(locals, n)
  {
    forall j, k | 0 <= j < |locals| && 0 <= k < |locals| ensures !StartsWithin(locals, n, j, k) {
      assert j != k && locals[j].reg == locals[k].reg ==>
          EndOf(locals[j]) < locals[k].start || EndOf(locals[k]) < locals[j].start;
    }
  }
}
