/**
  Items that deduplication works on, and what it must keep: counts, order, and what every method reaches.
 */
module DedupState {
  import opened Bytes
  import opened Leb128
  import opened ProgramIndex

  /** A reference to another item, by its position in the container. */
  datatype Link = NoItem | Item(id: nat)

  /** Parameters name strings; 0 stands for no name. */
  datatype DebugInfo = DebugInfo(line: nat, params: seq<nat>, pool: seq<byte>, program: nat, emit: bool)
  /** What a pass over debug infos works on; of each method, its link to a debug info. */
  datatype Store = Store(methods: seq<Link>, debugs: seq<DebugInfo>, programs: seq<Program>, index: seq<nat>)

  /** What the deduplicators have seen: the written form of an item, and the first item that had it. */
  datatype Seen = Seen(programs: map<seq<byte>, nat>, debugs: map<seq<byte>, nat>)

  // ---------- the written form of a debug info ----------

  /** Where strings lie, and the indexes of programs, in the layout at hand. */
  datatype Places = Places(text: nat -> nat, program: nat -> nat)

  ghost predicate Injective(f: nat -> nat) {
    forall a, b :: f(a) == f(b) ==> a == b
  }

  ghost predicate Distinguishes(l: Places) {
    Injective(l.text) && Injective(l.program)
  }

  function ParamBytes(l: Places, params: seq<nat>): seq<byte> {
    if params == [] then [] else Uleb(l.text(params[0])) + ParamBytes(l, params[1..])
  }

  function DebugBytes(l: Places, d: DebugInfo): seq<byte> {
    Uleb(d.line)
      + (Uleb(|d.params|) + (ParamBytes(l, d.params) + (Uleb(|d.pool|) + (d.pool + Uleb(l.program(d.program))))))
  }

  lemma {:induction false} ParamsInjective(l: Places, a: seq<nat>, b: seq<nat>, s: seq<byte>, t: seq<byte>)
    requires Injective(l.text) && |a| == |b| && ParamBytes(l, a) + s == ParamBytes(l, b) + t
    ensures a == b && s == t
  {
    if a != [] {
      assert ParamBytes(l, a) + s == Uleb(l.text(a[0])) + (ParamBytes(l, a[1..]) + s);
      assert ParamBytes(l, b) + t == Uleb(l.text(b[0])) + (ParamBytes(l, b[1..]) + t);
      UlebInjective(l.text(a[0]), l.text(b[0]), ParamBytes(l, a[1..]) + s, ParamBytes(l, b[1..]) + t);
      ParamsInjective(l, a[1..], b[1..], s, t);
      assert a == [a[0]] + a[1..] && b == [b[0]] + b[1..];
    } else {
      assert ParamBytes(l, a) + s == s && ParamBytes(l, b) + t == t;
    }
  }

  /** Equal bytes mean equal debug infos: same line, names, pool and the same program. */
  lemma {:induction false} DebugInjective(l: Places, a: DebugInfo, b: DebugInfo)
    requires Distinguishes(l)
    ensures DebugBytes(l, a) == DebugBytes(l, b) <==>
      a.line == b.line && a.params == b.params && a.pool == b.pool && a.program == b.program
  {
    hide Uleb, ParamBytes, Injective;
    if DebugBytes(l, a) == DebugBytes(l, b) {
      var tailA := Uleb(|a.pool|) + (a.pool + Uleb(l.program(a.program)));
      var tailB := Uleb(|b.pool|) + (b.pool + Uleb(l.program(b.program)));
      UlebInjective(a.line, b.line,
        Uleb(|a.params|) + (ParamBytes(l, a.params) + tailA), Uleb(|b.params|) + (ParamBytes(l, b.params) + tailB));
      UlebInjective(|a.params|, |b.params|, ParamBytes(l, a.params) + tailA, ParamBytes(l, b.params) + tailB);
      ParamsInjective(l, a.params, b.params, tailA, tailB);
      UlebInjective(|a.pool|, |b.pool|, a.pool + Uleb(l.program(a.program)), b.pool + Uleb(l.program(b.program)));
      SameSplit(a.pool, b.pool, Uleb(l.program(a.program)), Uleb(l.program(b.program)));
      ProgramInjective(l, a.program, b.program);
    }
  }

  lemma {:induction false} SameSplit(a: seq<byte>, b: seq<byte>, s: seq<byte>, t: seq<byte>)
    requires |a| == |b| && a + s == b + t
    ensures a == b && s == t
  {
    assert a == (a + s)[..|a|] && b == (b + t)[..|a|];
    assert s == (a + s)[|a|..] && t == (b + t)[|a|..];
  }

  lemma {:induction false} ProgramInjective(l: Places, p: nat, q: nat)
    requires Injective(l.program) && Uleb(l.program(p)) == Uleb(l.program(q))
    ensures p == q
  {
    assert Uleb(l.program(p)) + [] == Uleb(l.program(q)) + [];
    UlebInjective(l.program(p), l.program(q), [], []);
  }

  // ---------- counts ----------

  ghost predicate WellLinked(s: Store) {
    && (forall d :: 0 <= d < |s.debugs| ==> s.debugs[d].program < |s.programs|)
    && (forall m :: 0 <= m < |s.methods| && s.methods[m].Item? ==> s.methods[m].id < |s.debugs|)
  }

  /** Debug infos that will be emitted and point at p. */
  ghost function Users(debugs: seq<DebugInfo>, p: nat): set<nat> {
    set d | 0 <= d < |debugs| && debugs[d].emit && debugs[d].program == p
  }

  ghost predicate Counted(debugs: seq<DebugInfo>, programs: seq<Program>, p: nat)
    requires p < |programs|
  {
    programs[p].refs == |Users(debugs, p)| && programs[p].refs >= 1
  }

  /**
    The index is ordered; it holds just the programs to emit; each is counted once per emitted debug
    info that points at it, and at least once; and every emitted debug info points at one of them.
   */
  ghost predicate Consistent(debugs: seq<DebugInfo>, programs: seq<Program>, index: seq<nat>) {
    && Sorted(programs, index)
    && (forall p :: 0 <= p < |programs| ==> (programs[p].emit <==> p in Members(index)))
    && (forall p :: 0 <= p < |programs| && programs[p].emit ==> Counted(debugs, programs, p))
    && (forall d :: 0 <= d < |debugs| ==>
          debugs[d].program < |programs| && (debugs[d].emit ==> programs[debugs[d].program].emit))
  }

  /** One debug info leaves its program for another one. */
  lemma {:induction false} MovedUser(debugs: seq<DebugInfo>, d: nat, q: nat, p: nat)
    requires d < |debugs| && debugs[d].emit
    ensures
      var after := debugs[d := debugs[d].(program := q)];
      Users(after, p) == if p == q then Users(debugs, p) + {d} else Users(debugs, p) - {d}
  {
  }

  lemma {:induction false} DroppedUser(debugs: seq<DebugInfo>, d: nat, p: nat)
    requires d < |debugs|
    ensures Users(debugs[d := debugs[d].(emit := false)], p) == Users(debugs, p) - {d}
  {
  }

  lemma {:induction false} ConsistentAt(debugs: seq<DebugInfo>, programs: seq<Program>, index: seq<nat>, p: nat)
    requires Consistent(debugs, programs, index) && p < |programs|
    ensures p in Members(index) <==> programs[p].emit
    ensures programs[p].emit ==> Counted(debugs, programs, p)
  {
  }

  /** The counts after a debug info's only program was replaced by an equal one. */
  lemma {:induction false} MergeKeepsCounts(
    debugs: seq<DebugInfo>, programs: seq<Program>, index: seq<nat>, d: nat, q: nat, after: seq<Program>,
    index': seq<nat>)
    requires Consistent(debugs, programs, index)
    requires d < |debugs| && debugs[d].emit && q < |programs| && programs[q].emit && q != debugs[d].program
    requires Users(debugs, debugs[d].program) == {d}
    requires
      var p := debugs[d].program;
      && after == programs[p := programs[p].(emit := false)][q := programs[q].(refs := programs[q].refs + 1)]
      && Sorted(after, index') && Members(index') == Members(index) - {p}
    ensures Consistent(debugs[d := debugs[d].(program := q)], after, index')
  {
    hide Sorted, Members, Users;
    var p := debugs[d].program;
    var debugs' := debugs[d := debugs[d].(program := q)];
    forall x | 0 <= x < |after|
      ensures after[x].emit <==> x in Members(index')
      ensures after[x].emit ==> Counted(debugs', after, x)
    {
      MovedUser(debugs, d, q, x);
      ConsistentAt(debugs, programs, index, x);
      if x == q {
        NotUser(debugs, d, q);
        assert |Users(debugs, q) + {d}| == |Users(debugs, q)| + 1;
      } else if x != p {
        NotUser(debugs, d, x);
        assert Users(debugs, x) - {d} == Users(debugs, x);
      }
    }
    forall e | 0 <= e < |debugs'|
      ensures debugs'[e].program < |after| && (debugs'[e].emit ==> after[debugs'[e].program].emit)
    {
      if e != d && debugs[e].emit {
        IsUser(debugs, e);
        assert debugs[e].program != p;
      }
    }
  }

  lemma {:induction false} NotUser(debugs: seq<DebugInfo>, d: nat, p: nat)
    requires d < |debugs| && debugs[d].program != p
    ensures d !in Users(debugs, p)
  {
  }

  lemma {:induction false} IsUser(debugs: seq<DebugInfo>, d: nat)
    requires d < |debugs|
    ensures debugs[d].emit <==> d in Users(debugs, debugs[d].program)
  {
  }

  /** The counts after a debug info was dropped for another one with the same program. */
  lemma {:induction false} DropKeepsCounts(
    debugs: seq<DebugInfo>, programs: seq<Program>, index: seq<nat>, d: nat, e: nat, after: seq<Program>,
    index': seq<nat>)
    requires Consistent(debugs, programs, index)
    requires d < |debugs| && e < |debugs| && d != e && debugs[d].emit && debugs[e].emit
    requires debugs[d].program == debugs[e].program
    requires
      var p := debugs[d].program;
      && programs[p].refs >= 1
      && after == programs[p := programs[p].(refs := programs[p].refs - 1)]
      && Sorted(after, index') && Members(index') == Members(index)
    ensures Consistent(debugs[d := debugs[d].(emit := false)], after, index')
  {
    hide Sorted, Members, Users;
    var p := debugs[d].program;
    var debugs' := debugs[d := debugs[d].(emit := false)];
    forall x | 0 <= x < |after|
      ensures after[x].emit <==> x in Members(index')
      ensures after[x].emit ==> Counted(debugs', after, x)
    {
      DroppedUser(debugs, d, x);
      ConsistentAt(debugs, programs, index, x);
      IsUser(debugs, d);
      IsUser(debugs, e);
      if x == p {
        var u := Users(debugs, p);
        assert |u - {d}| == |u| - 1;
        assert e in u - {d};
      } else {
        NotUser(debugs, d, x);
        assert Users(debugs, x) - {d} == Users(debugs, x);
      }
    }
  }
}
