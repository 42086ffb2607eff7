/**
  How far a deduplication pass over the methods has come, relative to the state it started from.
 */
module DedupProgress {
  import opened Bytes
  import opened ProgramIndex
  import opened DedupState

  predicate HasDebug(s: Store, i: nat) {
    i < |s.methods| && s.methods[i].Item?
  }

  function DebugOf(s: Store, i: nat): nat
    requires HasDebug(s, i)
  {
    s.methods[i].id
  }

  /** What a method reaches through its debug info. */
  datatype Content = Content(line: nat, params: seq<nat>, pool: seq<byte>, program: seq<byte>)

  function ContentOf(s: Store, d: nat): Content
    requires d < |s.debugs| && s.debugs[d].program < |s.programs|
  {
    var i := s.debugs[d];
    Content(i.line, i.params, i.pool, s.programs[i.program].data)
  }

  function DataOf(s: Store, d: nat): seq<byte>
    requires d < |s.debugs| && s.debugs[d].program < |s.programs|
  {
    s.programs[s.debugs[d].program].data
  }

  // ---------- duplicates ----------

  /** A program that has a duplicate is used by one debug info only. */
  ghost predicate ProgramsUnshared(s: Store)
    requires WellLinked(s)
  {
    forall i: nat, j: nat :: HasDebug(s, i) && HasDebug(s, j)
      && DataOf(s, DebugOf(s, i)) == DataOf(s, DebugOf(s, j))
      && s.debugs[DebugOf(s, i)].program != s.debugs[DebugOf(s, j)].program
      ==> Users(s.debugs, s.debugs[DebugOf(s, i)].program) == {DebugOf(s, i)}
  }

  /** A debug info that has a duplicate belongs to one method only. */
  ghost predicate DebugsUnshared(s: Store)
    requires WellLinked(s)
  {
    forall i: nat, j: nat, k: nat :: HasDebug(s, i) && HasDebug(s, j) && HasDebug(s, k)
      && ContentOf(s, DebugOf(s, i)) == ContentOf(s, DebugOf(s, j)) && DebugOf(s, i) != DebugOf(s, j)
      && DebugOf(s, k) == DebugOf(s, i)
      ==> k == i
  }

  ghost predicate DebugsEmitted(s: Store)
    requires WellLinked(s)
  {
    forall i: nat :: HasDebug(s, i) ==> s.debugs[DebugOf(s, i)].emit
  }

  /** There are no duplicates. */
  ghost predicate DebugsCanonical(s: Store)
    requires WellLinked(s)
  {
    forall i: nat, j: nat :: HasDebug(s, i) && HasDebug(s, j) ==>
      && (DataOf(s, DebugOf(s, i)) == DataOf(s, DebugOf(s, j)) ==>
            s.debugs[DebugOf(s, i)].program == s.debugs[DebugOf(s, j)].program)
      && (ContentOf(s, DebugOf(s, i)) == ContentOf(s, DebugOf(s, j)) ==> DebugOf(s, i) == DebugOf(s, j))
  }

  /** As the assembler leaves it: every debug info has a program, and every method a debug info, of its own. */
  ghost predicate OneEach(s: Store) {
    && WellLinked(s) && Sorted(s.programs, s.index)
    && (forall p :: 0 <= p < |s.programs| ==>
          s.programs[p].refs == 1 && s.programs[p].emit && p in Members(s.index)
          && exists d :: 0 <= d < |s.debugs| && s.debugs[d].program == p)
    && (forall d :: 0 <= d < |s.debugs| ==> s.debugs[d].emit)
    && (forall d, e :: 0 <= d < |s.debugs| && 0 <= e < |s.debugs| && s.debugs[d].program == s.debugs[e].program ==>
          d == e)
    && (forall i: nat, j: nat :: HasDebug(s, i) && HasDebug(s, j) && DebugOf(s, i) == DebugOf(s, j) ==> i == j)
  }

  lemma {:induction false} OneEachIsReady(s: Store)
    requires OneEach(s)
    ensures Consistent(s.debugs, s.programs, s.index)
    ensures DebugsEmitted(s) && ProgramsUnshared(s) && DebugsUnshared(s)
  {
    hide Sorted, Members;
    forall d | 0 <= d < |s.debugs| ensures Users(s.debugs, s.debugs[d].program) == {d} {
    }
    forall p | 0 <= p < |s.programs| ensures Counted(s.debugs, s.programs, p) {
      assert s.programs[p].refs == 1;
      var d :| 0 <= d < |s.debugs| && s.debugs[d].program == p;
      assert Users(s.debugs, s.debugs[d].program) == {d};
    }
  }

  // ---------- progress ----------

  /** Nothing but links, counts and flags changes: every debug info still leads to the same bytes. */
  ghost predicate SameContent(s0: Store, s: Store) {
    && WellLinked(s0) && WellLinked(s)
    && |s.methods| == |s0.methods| && |s.debugs| == |s0.debugs| && |s.programs| == |s0.programs|
    && (forall p :: 0 <= p < |s.programs| ==> s.programs[p].data == s0.programs[p].data)
    && (forall d :: 0 <= d < |s.debugs| ==> ContentOf(s, d) == ContentOf(s0, d))
  }

  /** Program p is the one that its data stands for. */
  ghost predicate Chosen(programs: seq<Program>, sp: map<seq<byte>, nat>, p: nat) {
    p < |programs| && programs[p].data in sp && sp[programs[p].data] == p
  }

  ghost predicate ProgramOrigin(s0: Store, m: nat, q: nat)
    requires WellLinked(s0)
  {
    exists j: nat :: HasDebug(s0, j) && j < m && s0.debugs[DebugOf(s0, j)].program == q
  }

  /** Each remembered program has its key as data, is emitted, and came from a method already visited. */
  ghost predicate SeenPrograms(programs: seq<Program>, sp: map<seq<byte>, nat>) {
    forall key :: key in sp ==> sp[key] < |programs| && programs[sp[key]].data == key && programs[sp[key]].emit
  }

  ghost predicate SeenOrigins(s0: Store, sp: map<seq<byte>, nat>, m: nat)
    requires WellLinked(s0)
  {
    forall key :: key in sp ==> ProgramOrigin(s0, m, sp[key])
  }

  ghost predicate DebugOrigin(s0: Store, m: nat, e: nat) {
    exists j: nat :: HasDebug(s0, j) && j < m && DebugOf(s0, j) == e
  }

  ghost predicate SeenDebug(l: Places, s: Store, seen: Seen, key: seq<byte>, e: nat) {
    e < |s.debugs| && s.debugs[e].emit && DebugBytes(l, s.debugs[e]) == key
    && Chosen(s.programs, seen.programs, s.debugs[e].program)
  }

  ghost predicate SeenDebugs(l: Places, s0: Store, s: Store, seen: Seen, m: nat) {
    forall key :: key in seen.debugs ==>
      SeenDebug(l, s, seen, key, seen.debugs[key]) && DebugOrigin(s0, m, seen.debugs[key])
  }

  /** Method j was visited: its debug info is the first of its kind, and says what the original one said. */
  ghost predicate Visited(l: Places, s0: Store, s: Store, seen: Seen, j: nat)
    requires SameContent(s0, s)
  {
    && (HasDebug(s, j) <==> HasDebug(s0, j))
    && (HasDebug(s, j) ==>
          && DebugBytes(l, s.debugs[DebugOf(s, j)]) in seen.debugs
          && seen.debugs[DebugBytes(l, s.debugs[DebugOf(s, j)])] == DebugOf(s, j)
          && ContentOf(s, DebugOf(s, j)) == ContentOf(s0, DebugOf(s0, j)))
  }

  ghost predicate Waiting(s0: Store, s: Store, m: nat)
    requires SameContent(s0, s)
  {
    forall i :: m <= i < |s.methods| ==>
      s.methods[i] == s0.methods[i] && (HasDebug(s, i) ==> s.debugs[DebugOf(s, i)].emit)
  }

  ghost predicate Replaced(s0: Store, s: Store, seen: Seen)
    requires SameContent(s0, s)
  {
    && (forall d :: 0 <= d < |s.debugs| ==>
          s.debugs[d].program == s0.debugs[d].program || Chosen(s.programs, seen.programs, s.debugs[d].program))
    && (forall p :: 0 <= p < |s.programs| && !Chosen(s.programs, seen.programs, p) ==>
          Users(s.debugs, p) <= Users(s0.debugs, p))
  }

  ghost predicate Untouched(s0: Store, s: Store) {
    s.methods == s0.methods && s.debugs == s0.debugs && s.programs == s0.programs && s.index == s0.index
  }

  ghost predicate Progress(l: Places, s0: Store, s: Store, seen: Seen, m: nat) {
    && SameContent(s0, s)
    && m <= |s.methods|
    && Consistent(s.debugs, s.programs, s.index)
    && SeenPrograms(s.programs, seen.programs)
    && SeenOrigins(s0, seen.programs, m)
    && SeenDebugs(l, s0, s, seen, m)
    && (forall j :: 0 <= j < m ==> Visited(l, s0, s, seen, j))
    && Waiting(s0, s, m)
    && Replaced(s0, s, seen)
  }

  // ---------- replacing a program ----------

  ghost predicate SameData(ps: seq<Program>, qs: seq<Program>) {
    |qs| == |ps| && forall p :: 0 <= p < |ps| ==> qs[p].data == ps[p].data
  }

  function Keep(seen: map<seq<byte>, nat>, key: seq<byte>, item: nat): nat {
    if key in seen then seen[key] else item
  }

  /** Debug info d gets the first program with its data. */
  ghost predicate ProgramStep(s: Store, seen: Seen, d: nat, s': Store, seen': Seen) {
    && d < |s.debugs| && s.debugs[d].program < |s.programs|
    && var p := s.debugs[d].program;
      var data := s.programs[p].data;
      var q := Keep(seen.programs, data, p);
      && seen' == seen.(programs := seen.programs[data := q])
      && s'.debugs == s.debugs[d := s.debugs[d].(program := q)]
      && s'.methods == s.methods
      && SameData(s.programs, s'.programs)
      && (q == p ==> s'.programs == s.programs && s'.index == s.index)
      && Consistent(s'.debugs, s'.programs, s'.index)
      && SeenPrograms(s'.programs, seen'.programs)
  }

  /** What the step needs to know: a program is replaced only when nobody else uses it. */
  lemma {:induction false} SoleUser(l: Places, s0: Store, s: Store, seen: Seen, m: nat)
    requires WellLinked(s0) && ProgramsUnshared(s0)
    requires Progress(l, s0, s, seen, m) && HasDebug(s, m)
    ensures
      var d := DebugOf(s, m);
      && s.debugs[d].emit
      && (Keep(seen.programs, DataOf(s, d), s.debugs[d].program) != s.debugs[d].program ==>
            Users(s.debugs, s.debugs[d].program) == {d})
  {
    hide Consistent, SeenDebugs, Visited;
    var d := DebugOf(s, m);
    var p := s.debugs[d].program;
    var q := Keep(seen.programs, DataOf(s, d), p);
    assert HasDebug(s0, m) && DebugOf(s0, m) == d;
    if q != p {
      assert !Chosen(s.programs, seen.programs, p);
      assert ProgramOrigin(s0, m, q);
      var j: nat :| HasDebug(s0, j) && j < m && s0.debugs[DebugOf(s0, j)].program == q;
      assert ContentOf(s, d) == ContentOf(s0, d);
      assert s.programs[q].data == DataOf(s, d);
      assert DataOf(s0, DebugOf(s0, m)) == DataOf(s0, DebugOf(s0, j));
      assert s0.debugs[d].program == p;
      IsUser(s.debugs, d);
      assert Users(s.debugs, p) <= {d};
    }
  }

  lemma {:induction false} HeldEmitted(s0: Store, s: Store, m: nat)
    requires SameContent(s0, s) && Waiting(s0, s, m) && HasDebug(s, m)
    ensures DebugOf(s, m) < |s.debugs| && s.debugs[DebugOf(s, m)].emit && s.debugs[DebugOf(s, m)].program < |s.programs|
    ensures HasDebug(s0, m) && DebugOf(s0, m) == DebugOf(s, m)
  {
  }

  lemma {:induction false} StepKeepsContent(s0: Store, s: Store, seen: Seen, d: nat, s': Store, seen': Seen)
    requires SameContent(s0, s) && ProgramStep(s, seen, d, s', seen') && SeenPrograms(s.programs, seen.programs)
    ensures SameContent(s0, s')
  {
    hide Consistent;
    forall e | 0 <= e < |s'.debugs|
      ensures s'.debugs[e].program < |s'.programs| && ContentOf(s', e) == ContentOf(s, e)
    {
    }
  }

  /** A chosen program stays chosen. */
  lemma {:induction false} StepKeepsChosen(s: Store, seen: Seen, d: nat, s': Store, seen': Seen, p: nat)
    requires ProgramStep(s, seen, d, s', seen')
    ensures Chosen(s.programs, seen.programs, p) ==> Chosen(s'.programs, seen'.programs, p)
  {
    hide Consistent, SeenPrograms;
  }

  lemma {:induction false} StepChooses(s: Store, seen: Seen, d: nat, s': Store, seen': Seen)
    requires ProgramStep(s, seen, d, s', seen') && SeenPrograms(s.programs, seen.programs)
    ensures Chosen(s'.programs, seen'.programs, s'.debugs[d].program)
    ensures Chosen(s.programs, seen.programs, s.debugs[d].program) ==> s'.debugs == s.debugs
  {
    hide Consistent;
    if Chosen(s.programs, seen.programs, s.debugs[d].program) {
      assert s.debugs[d := s.debugs[d]] == s.debugs;
    }
  }

  lemma {:induction false} StepKeepsSeenDebugs(
    l: Places, s0: Store, s: Store, seen: Seen, m: nat, s': Store, seen': Seen, d: nat)
    requires SeenDebugs(l, s0, s, seen, m) && ProgramStep(s, seen, d, s', seen')
    requires SeenPrograms(s.programs, seen.programs)
    ensures SeenDebugs(l, s0, s', seen', m)
  {
    hide Consistent, DebugBytes, DebugOrigin;
    forall key | key in seen'.debugs
      ensures SeenDebug(l, s', seen', key, seen'.debugs[key])
    {
      var e := seen.debugs[key];
      assert SeenDebug(l, s, seen, key, e);
      StepKeepsChosen(s, seen, d, s', seen', s.debugs[e].program);
      StepChooses(s, seen, d, s', seen');
    }
  }

  lemma {:induction false} StepKeepsReplaced(s0: Store, s: Store, seen: Seen, s': Store, seen': Seen, d: nat)
    requires SameContent(s0, s) && SameContent(s0, s') && Replaced(s0, s, seen)
    requires ProgramStep(s, seen, d, s', seen') && SeenPrograms(s.programs, seen.programs) && s.debugs[d].emit
    ensures Replaced(s0, s', seen')
  {
    hide Consistent;
    StepChooses(s, seen, d, s', seen');
    var q := s'.debugs[d].program;
    forall e | 0 <= e < |s'.debugs|
      ensures s'.debugs[e].program == s0.debugs[e].program || Chosen(s'.programs, seen'.programs, s'.debugs[e].program)
    {
      StepKeepsChosen(s, seen, d, s', seen', s.debugs[e].program);
    }
    forall p | 0 <= p < |s'.programs| && !Chosen(s'.programs, seen'.programs, p)
      ensures Users(s'.debugs, p) <= Users(s0.debugs, p)
    {
      StepKeepsChosen(s, seen, d, s', seen', p);
      MovedUser(s.debugs, d, q, p);
    }
  }

  lemma {:induction false} StepKeepsOrigins(s0: Store, s: Store, seen: Seen, m: nat, s': Store, seen': Seen)
    requires SameContent(s0, s) && SeenOrigins(s0, seen.programs, m) && HasDebug(s, m) && Waiting(s0, s, m)
    requires Replaced(s0, s, seen)
    requires ProgramStep(s, seen, DebugOf(s, m), s', seen')
    ensures SeenOrigins(s0, seen'.programs, m + 1)
  {
    hide Consistent, SeenPrograms, Users;
    var d := DebugOf(s, m);
    assert HasDebug(s0, m) && DebugOf(s0, m) == d;
    forall key | key in seen'.programs ensures ProgramOrigin(s0, m + 1, seen'.programs[key]) {
      if key in seen.programs {
        assert ProgramOrigin(s0, m, seen.programs[key]);
        var j: nat :| HasDebug(s0, j) && j < m && s0.debugs[DebugOf(s0, j)].program == seen.programs[key];
        assert j < m + 1;
      } else {
        assert s0.debugs[d].program == s.debugs[d].program;
        assert m < m + 1;
      }
    }
  }

  /** The state between the two halves of a visit: the program is the chosen one, the debug info still to do. */
  ghost predicate Halfway(l: Places, s0: Store, s: Store, seen: Seen, m: nat) {
    && SameContent(s0, s)
    && HasDebug(s, m)
    && Consistent(s.debugs, s.programs, s.index)
    && SeenPrograms(s.programs, seen.programs)
    && SeenOrigins(s0, seen.programs, m + 1)
    && SeenDebugs(l, s0, s, seen, m)
    && (forall j :: 0 <= j < m ==> Visited(l, s0, s, seen, j))
    && Waiting(s0, s, m)
    && Replaced(s0, s, seen)
    && Chosen(s.programs, seen.programs, s.debugs[DebugOf(s, m)].program)
  }

  lemma {:induction false} StepKeepsVisited(
    l: Places, s0: Store, s: Store, seen: Seen, m: nat, s': Store, seen': Seen, d: nat, j: nat)
    requires SameContent(s0, s) && SameContent(s0, s') && SeenDebugs(l, s0, s, seen, m) && Visited(l, s0, s, seen, j)
    requires ProgramStep(s, seen, d, s', seen') && SeenPrograms(s.programs, seen.programs)
    ensures Visited(l, s0, s', seen', j)
  {
    hide Consistent, DebugBytes, DebugOrigin;
    if HasDebug(s, j) {
      var e := DebugOf(s, j);
      assert SeenDebug(l, s, seen, DebugBytes(l, s.debugs[e]), e);
      StepChooses(s, seen, d, s', seen');
    }
  }

  lemma {:induction false} StepKeepsWaiting(s0: Store, s: Store, seen: Seen, m: nat, s': Store, seen': Seen, d: nat)
    requires SameContent(s0, s) && SameContent(s0, s') && Waiting(s0, s, m) && ProgramStep(s, seen, d, s', seen')
    ensures Waiting(s0, s', m)
  {
    hide Consistent, SeenPrograms;
  }

  lemma {:induction false} FirstHalf(l: Places, s0: Store, s: Store, seen: Seen, m: nat, s': Store, seen': Seen)
    requires WellLinked(s0) && Progress(l, s0, s, seen, m) && HasDebug(s, m)
    requires ProgramStep(s, seen, DebugOf(s, m), s', seen')
    ensures Halfway(l, s0, s', seen', m)
  {
    hide Consistent, SeenDebugs, Visited, SeenOrigins, Replaced, SameContent, SeenPrograms, Chosen, Waiting;
    HeldEmitted(s0, s, m);
    var d := DebugOf(s, m);
    StepKeepsContent(s0, s, seen, d, s', seen');
    StepKeepsSeenDebugs(l, s0, s, seen, m, s', seen', d);
    StepKeepsReplaced(s0, s, seen, s', seen', d);
    StepKeepsOrigins(s0, s, seen, m, s', seen');
    StepKeepsWaiting(s0, s, seen, m, s', seen', d);
    StepChooses(s, seen, d, s', seen');
    forall j | 0 <= j < m ensures Visited(l, s0, s', seen', j) {
      StepKeepsVisited(l, s0, s, seen, m, s', seen', d, j);
    }
  }

  // ---------- replacing a debug info ----------

  /** Method m gets the first debug info with the bytes of its own. */
  ghost predicate DebugStep(l: Places, s: Store, seen: Seen, m: nat, s': Store, seen': Seen) {
    && HasDebug(s, m) && DebugOf(s, m) < |s.debugs|
    && var d := DebugOf(s, m);
      var key := DebugBytes(l, s.debugs[d]);
      var e := Keep(seen.debugs, key, d);
      && seen' == seen.(debugs := seen.debugs[key := e])
      && s'.methods == s.methods[m := Item(e)]
      && s'.debugs == (if e == d then s.debugs else s.debugs[d := s.debugs[d].(emit := false)])
      && SameData(s.programs, s'.programs)
      && (e == d ==> s'.programs == s.programs && s'.index == s.index)
      && Consistent(s'.debugs, s'.programs, s'.index)
      && SeenPrograms(s'.programs, seen'.programs)
  }

  /** The debug info that takes over is another one that says the same. */
  lemma {:induction false} TakesOver(l: Places, s0: Store, s: Store, seen: Seen, m: nat)
    requires Distinguishes(l) && Halfway(l, s0, s, seen, m)
    ensures
      var d := DebugOf(s, m);
      var e := Keep(seen.debugs, DebugBytes(l, s.debugs[d]), d);
      && d < |s.debugs| && e < |s.debugs| && s.debugs[d].emit && s.debugs[e].emit
      && s.debugs[d].program == s.debugs[e].program < |s.programs|
      && DebugBytes(l, s.debugs[e]) == DebugBytes(l, s.debugs[d])
      && ContentOf(s, d) == ContentOf(s, e)
      && (e != d ==> DebugOrigin(s0, m, e))
  {
    hide Consistent, Distinguishes, DebugBytes, SeenPrograms, SeenOrigins, Visited, Chosen, Replaced, DebugOrigin;
    var d := DebugOf(s, m);
    HeldEmitted(s0, s, m);
    var key := DebugBytes(l, s.debugs[d]);
    if key in seen.debugs {
      var e := seen.debugs[key];
      assert SeenDebug(l, s, seen, key, e);
      DebugInjective(l, s.debugs[d], s.debugs[e]);
    }
  }

  /** A debug info that is dropped belongs to no method still waiting. */
  lemma {:induction false} DroppedIsAlone(l: Places, s0: Store, s: Store, seen: Seen, m: nat, k: nat)
    requires WellLinked(s0) && DebugsUnshared(s0) && Distinguishes(l) && Halfway(l, s0, s, seen, m)
    requires m < k && HasDebug(s, k)
    ensures
      var d := DebugOf(s, m);
      Keep(seen.debugs, DebugBytes(l, s.debugs[d]), d) != d ==> DebugOf(s, k) != d
  {
    hide Consistent, Distinguishes, DebugBytes, SeenPrograms, SeenOrigins, Visited, Chosen, Replaced, SeenDebugs;
    TakesOver(l, s0, s, seen, m);
    var d := DebugOf(s, m);
    var e := Keep(seen.debugs, DebugBytes(l, s.debugs[d]), d);
    HeldEmitted(s0, s, m);
    HeldWaiting(s0, s, m, k);
    if e != d {
      var j: nat :| HasDebug(s0, j) && j < m && DebugOf(s0, j) == e;
      assert ContentOf(s0, DebugOf(s0, m)) == ContentOf(s0, DebugOf(s0, j));
    }
  }

  lemma {:induction false} HeldWaiting(s0: Store, s: Store, m: nat, k: nat)
    requires SameContent(s0, s) && Waiting(s0, s, m) && m <= k && HasDebug(s, k)
    ensures HasDebug(s0, k) && DebugOf(s0, k) == DebugOf(s, k)
  {
  }

  lemma {:induction false} DropKeepsContent(l: Places, s0: Store, s: Store, seen: Seen, m: nat, s': Store, seen': Seen)
    requires SameContent(s0, s) && DebugStep(l, s, seen, m, s', seen')
    requires Keep(seen.debugs, DebugBytes(l, s.debugs[DebugOf(s, m)]), DebugOf(s, m)) < |s.debugs|
    ensures SameContent(s0, s')
  {
    hide Consistent, DebugBytes, SeenPrograms;
    forall d | 0 <= d < |s'.debugs|
      ensures s'.debugs[d].program < |s'.programs| && ContentOf(s', d) == ContentOf(s, d)
    {
    }
  }

  lemma {:induction false} DropKeepsBytes(l: Places, s: Store, seen: Seen, m: nat, s': Store, seen': Seen, e: nat)
    requires DebugStep(l, s, seen, m, s', seen') && e < |s.debugs|
    ensures |s'.debugs| == |s.debugs| && s'.debugs[e].program == s.debugs[e].program
    ensures DebugBytes(l, s'.debugs[e]) == DebugBytes(l, s.debugs[e])
  {
    hide Consistent, SeenPrograms;
  }

  lemma {:induction false} DropKeepsChosen(l: Places, s: Store, seen: Seen, m: nat, s': Store, seen': Seen, p: nat)
    requires DebugStep(l, s, seen, m, s', seen')
    ensures Chosen(s'.programs, seen'.programs, p) <==> Chosen(s.programs, seen.programs, p)
  {
    hide Consistent, SeenPrograms, DebugBytes;
  }

  lemma {:induction false} OriginLater(s0: Store, m: nat, e: nat)
    requires DebugOrigin(s0, m, e)
    ensures DebugOrigin(s0, m + 1, e)
  {
    var j: nat :| HasDebug(s0, j) && j < m && DebugOf(s0, j) == e;
    assert j < m + 1;
  }

  lemma {:induction false} DropKeepsSeenDebugs(
    l: Places, s0: Store, s: Store, seen: Seen, m: nat, s': Store, seen': Seen)
    requires Distinguishes(l) && Halfway(l, s0, s, seen, m) && DebugStep(l, s, seen, m, s', seen')
    ensures SeenDebugs(l, s0, s', seen', m + 1)
  {
    hide Consistent, SeenPrograms, Distinguishes, DebugBytes, SameContent, SeenOrigins, Visited, Waiting, Replaced,
      Chosen, DebugOrigin;
    var d := DebugOf(s, m);
    var key := DebugBytes(l, s.debugs[d]);
    TakesOver(l, s0, s, seen, m);
    HeldEmitted(s0, s, m);
    assert DebugOrigin(s0, m + 1, d) by {
      IsOrigin(s0, m, d);
    }
    forall k | k in seen'.debugs
      ensures SeenDebug(l, s', seen', k, seen'.debugs[k]) && DebugOrigin(s0, m + 1, seen'.debugs[k])
    {
      if k in seen.debugs {
        var e := seen.debugs[k];
        assert SeenDebug(l, s, seen, k, e) && DebugOrigin(s0, m, e);
        OriginLater(s0, m, e);
        DropKeepsBytes(l, s, seen, m, s', seen', e);
        DropKeepsChosen(l, s, seen, m, s', seen', s.debugs[e].program);
      } else {
        DropKeepsChosen(l, s, seen, m, s', seen', s.debugs[d].program);
      }
    }
  }

  lemma {:induction false} IsOrigin(s0: Store, m: nat, d: nat)
    requires HasDebug(s0, m) && DebugOf(s0, m) == d
    ensures DebugOrigin(s0, m + 1, d)
  {
    assert m < m + 1;
  }

  lemma {:induction false} DropVisits(
    l: Places, s0: Store, s: Store, seen: Seen, m: nat, s': Store, seen': Seen, j: nat)
    requires Distinguishes(l) && Halfway(l, s0, s, seen, m) && DebugStep(l, s, seen, m, s', seen')
    requires SameContent(s0, s')
    requires j <= m
    ensures Visited(l, s0, s', seen', j)
  {
    hide Consistent, SeenPrograms, Distinguishes, DebugBytes, SeenOrigins, Waiting, Replaced, Chosen, SeenDebugs,
      DebugOrigin;
    TakesOver(l, s0, s, seen, m);
    HeldEmitted(s0, s, m);
    if j < m {
      assert Visited(l, s0, s, seen, j);
      if HasDebug(s, j) {
        DropKeepsBytes(l, s, seen, m, s', seen', DebugOf(s, j));
      }
    } else {
      var e := DebugOf(s', m);
      DropKeepsBytes(l, s, seen, m, s', seen', e);
      assert ContentOf(s', e) == ContentOf(s0, e) == ContentOf(s, e);
    }
  }

  lemma {:induction false} DropKeepsReplaced(l: Places, s0: Store, s: Store, seen: Seen, m: nat, s': Store, seen': Seen)
    requires SameContent(s0, s) && SameContent(s0, s') && Replaced(s0, s, seen) && DebugStep(l, s, seen, m, s', seen')
    ensures Replaced(s0, s', seen')
  {
    hide Consistent, SeenPrograms, DebugBytes, Chosen, Users;
    forall d | 0 <= d < |s'.debugs|
      ensures s'.debugs[d].program == s0.debugs[d].program || Chosen(s'.programs, seen'.programs, s'.debugs[d].program)
    {
      DropKeepsBytes(l, s, seen, m, s', seen', d);
      DropKeepsChosen(l, s, seen, m, s', seen', s.debugs[d].program);
    }
    forall p | 0 <= p < |s'.programs| && !Chosen(s'.programs, seen'.programs, p)
      ensures Users(s'.debugs, p) <= Users(s0.debugs, p)
    {
      DropKeepsChosen(l, s, seen, m, s', seen', p);
      DroppedUser(s.debugs, DebugOf(s, m), p);
    }
  }

  lemma {:induction false} DropKeepsWaiting(l: Places, s0: Store, s: Store, seen: Seen, m: nat, s': Store, seen': Seen)
    requires WellLinked(s0) && DebugsUnshared(s0) && Distinguishes(l)
    requires Halfway(l, s0, s, seen, m) && DebugStep(l, s, seen, m, s', seen') && SameContent(s0, s')
    ensures Waiting(s0, s', m + 1)
  {
    hide Consistent, SeenPrograms, Distinguishes, DebugBytes, SeenOrigins, Replaced, Chosen, SeenDebugs, Visited,
      DebugsUnshared;
    forall i | m + 1 <= i < |s'.methods|
      ensures s'.methods[i] == s0.methods[i] && (HasDebug(s', i) ==> s'.debugs[DebugOf(s', i)].emit)
    {
      if HasDebug(s, i) {
        DroppedIsAlone(l, s0, s, seen, m, i);
      }
    }
  }

  lemma {:induction false} SecondHalf(l: Places, s0: Store, s: Store, seen: Seen, m: nat, s': Store, seen': Seen)
    requires WellLinked(s0) && DebugsUnshared(s0) && Distinguishes(l)
    requires Halfway(l, s0, s, seen, m) && DebugStep(l, s, seen, m, s', seen')
    ensures Progress(l, s0, s', seen', m + 1)
  {
    hide Consistent, SeenPrograms, Distinguishes, DebugBytes, SeenOrigins, Replaced, Chosen, SeenDebugs, Visited,
      DebugsUnshared, Waiting, SameContent;
    TakesOver(l, s0, s, seen, m);
    DropKeepsContent(l, s0, s, seen, m, s', seen');
    DropKeepsSeenDebugs(l, s0, s, seen, m, s', seen');
    DropKeepsReplaced(l, s0, s, seen, m, s', seen');
    DropKeepsWaiting(l, s0, s, seen, m, s', seen');
    forall j | 0 <= j < m + 1 ensures Visited(l, s0, s', seen', j) {
      DropVisits(l, s0, s, seen, m, s', seen', j);
    }
  }

  /** A method without debug info is passed over. */
  lemma {:induction false} NothingToDo(l: Places, s0: Store, s: Store, seen: Seen, m: nat)
    requires Progress(l, s0, s, seen, m) && m < |s.methods| && !HasDebug(s, m)
    ensures Progress(l, s0, s, seen, m + 1)
  {
    hide Consistent, SeenPrograms, DebugBytes, Replaced, Chosen;
    forall key | key in seen.programs ensures ProgramOrigin(s0, m + 1, seen.programs[key]) {
      assert ProgramOrigin(s0, m, seen.programs[key]);
      var j: nat :| HasDebug(s0, j) && j < m && s0.debugs[DebugOf(s0, j)].program == seen.programs[key];
      assert j < m + 1;
    }
    forall key | key in seen.debugs ensures DebugOrigin(s0, m + 1, seen.debugs[key]) {
      OriginLater(s0, m, seen.debugs[key]);
    }
  }

  // ---------- before and after ----------

  lemma {:induction false} Start(l: Places, s: Store)
    requires WellLinked(s) && Consistent(s.debugs, s.programs, s.index) && DebugsEmitted(s)
    ensures Progress(l, s, s, Seen(map[], map[]), 0)
  {
    hide Consistent, Users;
  }

  /** After the last method there are no duplicates left. */
  lemma {:induction false} Finish(l: Places, s0: Store, s: Store, seen: Seen)
    requires Distinguishes(l) && Progress(l, s0, s, seen, |s.methods|)
    ensures DebugsCanonical(s) && DebugsEmitted(s)
    ensures forall i: nat :: i < |s.methods| ==> (HasDebug(s, i) <==> HasDebug(s0, i))
    ensures forall i: nat :: HasDebug(s, i) ==> ContentOf(s, DebugOf(s, i)) == ContentOf(s0, DebugOf(s0, i))
  {
    hide Consistent, Distinguishes, DebugBytes, SeenPrograms, SeenOrigins, Replaced, Waiting, DebugOrigin;
    forall i: nat | i < |s.methods|
      ensures HasDebug(s, i) <==> HasDebug(s0, i)
      ensures HasDebug(s, i) ==> Settled(l, s, seen, i) && ContentOf(s, DebugOf(s, i)) == ContentOf(s0, DebugOf(s0, i))
    {
      assert Visited(l, s0, s, seen, i);
      if HasDebug(s, i) {
        assert SeenDebug(l, s, seen, DebugBytes(l, s.debugs[DebugOf(s, i)]), DebugOf(s, i));
      }
    }
    forall i: nat, j: nat | HasDebug(s, i) && HasDebug(s, j)
      ensures DataOf(s, DebugOf(s, i)) == DataOf(s, DebugOf(s, j)) ==>
        s.debugs[DebugOf(s, i)].program == s.debugs[DebugOf(s, j)].program
      ensures ContentOf(s, DebugOf(s, i)) == ContentOf(s, DebugOf(s, j)) ==> DebugOf(s, i) == DebugOf(s, j)
    {
      assert Settled(l, s, seen, i) && Settled(l, s, seen, j);
      DebugInjective(l, s.debugs[DebugOf(s, i)], s.debugs[DebugOf(s, j)]);
    }
  }

  ghost predicate Settled(l: Places, s: Store, seen: Seen, i: nat)
    requires WellLinked(s)
  {
    HasDebug(s, i) ==>
      && SeenDebug(l, s, seen, DebugBytes(l, s.debugs[DebugOf(s, i)]), DebugOf(s, i))
      && DebugBytes(l, s.debugs[DebugOf(s, i)]) in seen.debugs
      && seen.debugs[DebugBytes(l, s.debugs[DebugOf(s, i)])] == DebugOf(s, i)
  }

  /** Without duplicates nothing is shared that has one. */
  lemma {:induction false} CanonicalIsUnshared(s: Store)
    requires WellLinked(s) && DebugsCanonical(s)
    ensures ProgramsUnshared(s) && DebugsUnshared(s)
  {
    hide Users;
  }

  /** Without duplicates a visit finds nothing to replace. */
  lemma {:induction false} CanonicalKeepsProgram(l: Places, s0: Store, s: Store, seen: Seen, m: nat)
    requires WellLinked(s0) && DebugsCanonical(s0) && Untouched(s0, s)
    requires Progress(l, s0, s, seen, m) && HasDebug(s, m)
    ensures var d := DebugOf(s, m); Keep(seen.programs, DataOf(s, d), s.debugs[d].program) == s.debugs[d].program
  {
    hide Consistent, SeenDebugs, Visited, Replaced, DebugBytes, Waiting;
    var d := DebugOf(s, m);
    if DataOf(s, d) in seen.programs {
      var q := seen.programs[DataOf(s, d)];
      assert ProgramOrigin(s0, m, q);
      var j: nat :| HasDebug(s0, j) && j < m && s0.debugs[DebugOf(s0, j)].program == q;
      assert HasDebug(s0, m) && DebugOf(s0, m) == d;
    }
  }

  lemma {:induction false} CanonicalKeepsDebug(l: Places, s0: Store, s: Store, seen: Seen, m: nat)
    requires WellLinked(s0) && DebugsCanonical(s0) && Untouched(s0, s)
    requires Distinguishes(l) && Halfway(l, s0, s, seen, m)
    ensures var d := DebugOf(s, m); Keep(seen.debugs, DebugBytes(l, s.debugs[d]), d) == d
  {
    hide Consistent, Distinguishes, DebugBytes, SeenPrograms, SeenOrigins, Visited, Chosen, Replaced, SeenDebugs;
    TakesOver(l, s0, s, seen, m);
    var d := DebugOf(s, m);
    var e := Keep(seen.debugs, DebugBytes(l, s.debugs[d]), d);
    if DebugOrigin(s0, m, e) {
      var j: nat :| HasDebug(s0, j) && j < m && DebugOf(s0, j) == e;
      assert HasDebug(s0, m) && DebugOf(s0, m) == d;
      assert ContentOf(s0, DebugOf(s0, m)) == ContentOf(s0, DebugOf(s0, j));
    }
  }
}
