/**
  Deduplication of code, debug infos and line number programs before a file is written.
 */
module Deduplication {
  import opened Bytes
  import opened ProgramIndex
  import opened DedupState
  import opened DedupProgress

  datatype Code = Code(bytes: seq<byte>, emit: bool)
  datatype Method = Method(debug: Link, code: Link)

  // ---------- code ----------

  /** Of each method, its link to a code item. */
  datatype CodeStore = CodeStore(methods: seq<Link>, codes: seq<Code>)

  predicate HasCode(s: CodeStore, i: nat) {
    i < |s.methods| && s.methods[i].Item?
  }

  ghost predicate CodeLinked(s: CodeStore) {
    forall i: nat :: HasCode(s, i) ==> s.methods[i].id < |s.codes|
  }

  function CodeBytes(s: CodeStore, i: nat): seq<byte>
    requires HasCode(s, i) && s.methods[i].id < |s.codes|
  {
    s.codes[s.methods[i].id].bytes
  }

  /** A code item that has a duplicate belongs to one method only. */
  ghost predicate CodeUnshared(s: CodeStore)
    requires CodeLinked(s)
  {
    forall i: nat, j: nat, k: nat :: HasCode(s, i) && HasCode(s, j) && HasCode(s, k)
      && CodeBytes(s, i) == CodeBytes(s, j) && s.methods[i] != s.methods[j] && s.methods[k] == s.methods[i]
      ==> k == i
  }

  ghost predicate CodeEmitted(s: CodeStore)
    requires CodeLinked(s)
  {
    forall i: nat :: HasCode(s, i) ==> s.codes[s.methods[i].id].emit
  }

  ghost predicate CodeCanonical(s: CodeStore)
    requires CodeLinked(s)
  {
    forall i: nat, j: nat :: HasCode(s, i) && HasCode(s, j) && CodeBytes(s, i) == CodeBytes(s, j) ==>
      s.methods[i] == s.methods[j]
  }

  ghost predicate SameBytes(s0: CodeStore, s: CodeStore) {
    && CodeLinked(s0) && CodeLinked(s)
    && |s.methods| == |s0.methods| && |s.codes| == |s0.codes|
    && forall c :: 0 <= c < |s.codes| ==> s.codes[c].bytes == s0.codes[c].bytes
  }

  ghost predicate CodeOrigin(s0: CodeStore, m: nat, c: nat) {
    exists j: nat :: HasCode(s0, j) && j < m && s0.methods[j].id == c
  }

  ghost predicate SeenCode(s0: CodeStore, s: CodeStore, m: nat, key: seq<byte>, c: nat) {
    c < |s.codes| && s.codes[c].bytes == key && s.codes[c].emit && CodeOrigin(s0, m, c)
  }

  ghost predicate CodeVisited(s0: CodeStore, s: CodeStore, seen: map<seq<byte>, nat>, j: nat)
    requires SameBytes(s0, s)
  {
    && (HasCode(s, j) <==> HasCode(s0, j))
    && (HasCode(s, j) ==>
          CodeBytes(s, j) == CodeBytes(s0, j) && CodeBytes(s, j) in seen && seen[CodeBytes(s, j)] == s.methods[j].id)
  }

  ghost predicate CodeWaiting(s0: CodeStore, s: CodeStore, i: nat)
    requires SameBytes(s0, s)
  {
    i < |s.methods| && s.methods[i] == s0.methods[i] && (HasCode(s, i) ==> s.codes[s.methods[i].id].emit)
  }

  ghost predicate CodeProgress(s0: CodeStore, s: CodeStore, seen: map<seq<byte>, nat>, m: nat) {
    && SameBytes(s0, s)
    && m <= |s.methods|
    && (forall key :: key in seen ==> SeenCode(s0, s, m, key, seen[key]))
    && (forall j :: 0 <= j < m ==> CodeVisited(s0, s, seen, j))
    && (forall i :: m <= i < |s.methods| ==> CodeWaiting(s0, s, i))
  }

  ghost predicate CodeStep(s: CodeStore, seen: map<seq<byte>, nat>, m: nat, s': CodeStore, seen': map<seq<byte>, nat>)
    requires CodeLinked(s)
  {
    && m < |s.methods|
    && (!HasCode(s, m) ==> s' == s && seen' == seen)
    && (HasCode(s, m) ==>
        var c := s.methods[m].id;
        var key := CodeBytes(s, m);
        var k := Keep(seen, key, c);
        && seen' == seen[key := k]
        && s'.methods == s.methods[m := Item(k)]
        && s'.codes == if k == c then s.codes else s.codes[c := s.codes[c].(emit := false)])
  }

  lemma {:induction false} CodeOriginLater(s0: CodeStore, m: nat, c: nat)
    requires CodeOrigin(s0, m, c) || (HasCode(s0, m) && s0.methods[m].id == c)
    ensures CodeOrigin(s0, m + 1, c)
  {
    if CodeOrigin(s0, m, c) {
      var j: nat :| HasCode(s0, j) && j < m && s0.methods[j].id == c;
      assert j < m + 1;
    } else {
      assert m < m + 1;
    }
  }

  /** A code item that is dropped belongs to no method still waiting. */
  lemma {:induction false} DroppedCodeIsAlone(s0: CodeStore, s: CodeStore, seen: map<seq<byte>, nat>, m: nat, i: nat)
    requires CodeProgress(s0, s, seen, m) && CodeUnshared(s0) && HasCode(s, m) && m < i && HasCode(s, i)
    ensures Keep(seen, CodeBytes(s, m), s.methods[m].id) != s.methods[m].id ==> s.methods[i] != s.methods[m]
  {
    hide CodeVisited;
    assert CodeWaiting(s0, s, m) && CodeWaiting(s0, s, i);
    var k := Keep(seen, CodeBytes(s, m), s.methods[m].id);
    if k != s.methods[m].id {
      assert SeenCode(s0, s, m, CodeBytes(s, m), k);
      var j: nat :| HasCode(s0, j) && j < m && s0.methods[j].id == k;
      assert CodeBytes(s0, m) == CodeBytes(s0, j);
    }
  }

  lemma {:induction false} CodeStepKeepsBytes(
    s0: CodeStore, s: CodeStore, seen: map<seq<byte>, nat>, m: nat, s': CodeStore, seen': map<seq<byte>, nat>)
    requires CodeProgress(s0, s, seen, m) && HasCode(s, m) && CodeStep(s, seen, m, s', seen')
    ensures SameBytes(s0, s') && HasCode(s0, m) && s'.methods[m].Item?
    ensures s'.codes[s'.methods[m].id].bytes == CodeBytes(s0, m)
  {
    hide CodeVisited, CodeOrigin;
    assert CodeWaiting(s0, s, m);
    var key := CodeBytes(s, m);
    if key in seen {
      assert SeenCode(s0, s, m, key, seen[key]);
    }
    forall i: nat | HasCode(s', i) ensures s'.methods[i].id < |s'.codes| {
      if i != m {
        assert HasCode(s, i);
      }
    }
  }

  lemma {:induction false} CodeStepSeen(
    s0: CodeStore, s: CodeStore, seen: map<seq<byte>, nat>, m: nat, s': CodeStore, seen': map<seq<byte>, nat>,
    key: seq<byte>)
    requires CodeProgress(s0, s, seen, m) && HasCode(s, m) && CodeStep(s, seen, m, s', seen') && key in seen'
    ensures SeenCode(s0, s', m + 1, key, seen'[key])
  {
    hide CodeVisited, CodeOrigin;
    assert CodeWaiting(s0, s, m);
    if key in seen {
      assert SeenCode(s0, s, m, key, seen[key]);
      CodeOriginLater(s0, m, seen[key]);
    } else {
      CodeOriginLater(s0, m, s.methods[m].id);
    }
  }

  lemma {:induction false} CodeAdvances(
    s0: CodeStore, s: CodeStore, seen: map<seq<byte>, nat>, m: nat, s': CodeStore, seen': map<seq<byte>, nat>)
    requires CodeProgress(s0, s, seen, m) && CodeUnshared(s0) && CodeStep(s, seen, m, s', seen')
    ensures CodeProgress(s0, s', seen', m + 1)
  {
    hide CodeOrigin, CodeUnshared;
    assert CodeWaiting(s0, s, m);
    if HasCode(s, m) {
      CodeStepKeepsBytes(s0, s, seen, m, s', seen');
      forall key | key in seen' ensures SeenCode(s0, s', m + 1, key, seen'[key]) {
        CodeStepSeen(s0, s, seen, m, s', seen', key);
      }
      forall j | 0 <= j < m + 1 ensures CodeVisited(s0, s', seen', j) {
        if j < m {
          assert CodeVisited(s0, s, seen, j);
        }
      }
      forall i | m + 1 <= i < |s'.methods| ensures CodeWaiting(s0, s', i) {
        assert CodeWaiting(s0, s, i);
        if HasCode(s, i) {
          DroppedCodeIsAlone(s0, s, seen, m, i);
        }
      }
    } else {
      forall key | key in seen ensures SeenCode(s0, s, m + 1, key, seen[key]) {
        assert SeenCode(s0, s, m, key, seen[key]);
        CodeOriginLater(s0, m, seen[key]);
      }
    }
  }

  lemma {:induction false} CodeFinish(s0: CodeStore, s: CodeStore, seen: map<seq<byte>, nat>)
    requires CodeProgress(s0, s, seen, |s.methods|)
    ensures CodeCanonical(s) && CodeEmitted(s)
    ensures forall i: nat :: i < |s.methods| ==> (HasCode(s, i) <==> HasCode(s0, i))
    ensures forall i: nat :: HasCode(s, i) ==> CodeBytes(s, i) == CodeBytes(s0, i)
  {
    hide CodeOrigin;
    forall i: nat | i < |s.methods|
      ensures HasCode(s, i) <==> HasCode(s0, i)
      ensures HasCode(s, i) ==>
        CodeBytes(s, i) == CodeBytes(s0, i) && CodeBytes(s, i) in seen && seen[CodeBytes(s, i)] == s.methods[i].id
        && s.codes[s.methods[i].id].emit
    {
      assert CodeVisited(s0, s, seen, i);
      if HasCode(s, i) {
        assert SeenCode(s0, s, |s.methods|, CodeBytes(s, i), s.methods[i].id);
      }
    }
  }

  // ---------- which code items are kept ----------

  /** Code item c belongs to the first of the first m methods that has code with these bytes. */
  ghost predicate FirstCode(s: CodeStore, m: nat, key: seq<byte>, c: nat)
    requires CodeLinked(s)
  {
    exists j: nat :: j < m && FirstWith(s, key, j) && s.methods[j].id == c
  }

  ghost predicate FirstWith(s: CodeStore, key: seq<byte>, j: nat)
    requires CodeLinked(s)
  {
    && HasCode(s, j) && CodeBytes(s, j) == key
    && forall k: nat :: k < j && HasCode(s, k) ==> CodeBytes(s, k) != key
  }

  /** One of the first m methods has code item c, and one before it another item with the same bytes. */
  ghost predicate Duplicate(s: CodeStore, m: nat, c: nat)
    requires CodeLinked(s)
  {
    exists j: nat, k: nat :: k < j < m && DuplicateOf(s, j, k) && s.methods[j].id == c
  }

  ghost predicate DuplicateOf(s: CodeStore, j: nat, k: nat)
    requires CodeLinked(s)
  {
    HasCode(s, j) && HasCode(s, k) && CodeBytes(s, j) == CodeBytes(s, k) && s.methods[j] != s.methods[k]
  }

  /** What was remembered are the first ones, and exactly the duplicates were dropped. */
  ghost predicate CodeKept(s0: CodeStore, s: CodeStore, seen: map<seq<byte>, nat>, m: nat) {
    && SameBytes(s0, s)
    && (forall key :: key in seen ==> FirstCode(s0, m, key, seen[key]))
    && (forall c :: 0 <= c < |s.codes| ==> (s.codes[c].emit <==> s0.codes[c].emit && !Duplicate(s0, m, c)))
  }

  lemma {:induction false} FirstCodeLater(s: CodeStore, m: nat, key: seq<byte>, c: nat)
    requires CodeLinked(s) && FirstCode(s, m, key, c)
    ensures FirstCode(s, m + 1, key, c)
  {
    var j: nat :| j < m && FirstWith(s, key, j) && s.methods[j].id == c;
    assert j < m + 1;
  }

  /** Whether there are more duplicates is decided by the next method. */
  lemma {:induction false} DuplicateNext(s: CodeStore, m: nat, c: nat)
    requires CodeLinked(s)
    ensures Duplicate(s, m + 1, c) <==>
      Duplicate(s, m, c) || (HasCode(s, m) && s.methods[m].id == c && exists k: nat :: k < m && DuplicateOf(s, m, k))
  {
    if Duplicate(s, m + 1, c) {
      var j: nat, k: nat :| k < j < m + 1 && DuplicateOf(s, j, k) && s.methods[j].id == c;
      assert j < m ==> Duplicate(s, m, c);
    }
    if Duplicate(s, m, c) {
      var j: nat, k: nat :| k < j < m && DuplicateOf(s, j, k) && s.methods[j].id == c;
      assert k < j < m + 1;
    }
    if HasCode(s, m) && s.methods[m].id == c && exists k: nat :: k < m && DuplicateOf(s, m, k) {
      var k: nat :| k < m && DuplicateOf(s, m, k);
      assert k < m < m + 1;
    }
  }

  /** A method keeps its code item exactly if no method before it has another one with the same bytes. */
  lemma {:induction false} KeptExactly(s0: CodeStore, s: CodeStore, seen: map<seq<byte>, nat>, m: nat)
    requires CodeProgress(s0, s, seen, m) && CodeUnshared(s0) && CodeKept(s0, s, seen, m) && HasCode(s, m)
    ensures HasCode(s0, m) && s0.methods[m] == s.methods[m]
    ensures Keep(seen, CodeBytes(s, m), s.methods[m].id) != s.methods[m].id <==>
      exists k: nat :: k < m && DuplicateOf(s0, m, k)
    ensures CodeBytes(s, m) !in seen ==> FirstWith(s0, CodeBytes(s0, m), m)
    ensures Keep(seen, CodeBytes(s, m), s.methods[m].id) == s.methods[m].id ==> !Duplicate(s0, m, s.methods[m].id)
  {
    hide CodeOrigin, Duplicate;
    assert CodeWaiting(s0, s, m);
    var key, c := CodeBytes(s, m), s.methods[m].id;
    if key in seen {
      assert FirstCode(s0, m, key, seen[key]);
      var j: nat :| j < m && FirstWith(s0, key, j) && s0.methods[j].id == seen[key];
      if seen[key] != c {
        assert DuplicateOf(s0, m, j);
      }
    } else {
      forall k: nat | k < m && HasCode(s0, k) ensures CodeBytes(s0, k) != key {
        assert CodeVisited(s0, s, seen, k);
      }
    }
    assert s.codes[c].emit;
  }

  lemma {:induction false} CodeKeptAdvances(
    s0: CodeStore, s: CodeStore, seen: map<seq<byte>, nat>, m: nat, s': CodeStore, seen': map<seq<byte>, nat>)
    requires CodeProgress(s0, s, seen, m) && CodeUnshared(s0) && CodeStep(s, seen, m, s', seen')
    requires CodeKept(s0, s, seen, m) && SameBytes(s0, s')
    ensures CodeKept(s0, s', seen', m + 1)
  {
    hide CodeOrigin, CodeUnshared, Duplicate, DuplicateOf, FirstWith, CodeVisited, SeenCode;
    assert CodeWaiting(s0, s, m);
    if HasCode(s, m) {
      KeptExactly(s0, s, seen, m);
    }
    forall key | key in seen' ensures FirstCode(s0, m + 1, key, seen'[key]) {
      if key in seen {
        FirstCodeLater(s0, m, key, seen[key]);
      } else {
        assert m < m + 1;
      }
    }
    forall c | 0 <= c < |s'.codes| ensures s'.codes[c].emit <==> s0.codes[c].emit && !Duplicate(s0, m + 1, c) {
      DuplicateNext(s0, m, c);
    }
  }

  lemma {:induction false} CanonicalKeepsCode(
    s0: CodeStore, seen: map<seq<byte>, nat>, m: nat, s': CodeStore, seen': map<seq<byte>, nat>)
    requires CodeProgress(s0, s0, seen, m) && CodeCanonical(s0) && CodeStep(s0, seen, m, s', seen')
    ensures s' == s0
  {
    hide CodeVisited;
    if HasCode(s0, m) && CodeBytes(s0, m) in seen {
      var k := seen[CodeBytes(s0, m)];
      assert SeenCode(s0, s0, m, CodeBytes(s0, m), k);
      var j: nat :| HasCode(s0, j) && j < m && s0.methods[j].id == k;
      assert CodeBytes(s0, m) == CodeBytes(s0, j);
    }
    assert HasCode(s0, m) ==> s0.methods[m] == Item(s0.methods[m].id);
  }

  // ---------- the container ----------

  function DebugLinks(methods: seq<Method>): (r: seq<Link>)
    ensures |r| == |methods| && forall i :: 0 <= i < |r| ==> r[i] == methods[i].debug
  {
    seq(|methods|, i requires 0 <= i < |methods| => methods[i].debug)
  }

  function CodeLinks(methods: seq<Method>): (r: seq<Link>)
    ensures |r| == |methods| && forall i :: 0 <= i < |r| ==> r[i] == methods[i].code
  {
    seq(|methods|, i requires 0 <= i < |methods| => methods[i].code)
  }

  /** Finds the first item with the same bytes, or remembers this one. */
  method Deduplicate(seen: map<seq<byte>, nat>, key: seq<byte>, item: nat) returns (seen': map<seq<byte>, nat>, r: nat)
    ensures r == Keep(seen, key, item) && seen' == seen[key := r]
  {
    if key !in seen {
      return seen[key := item], item;
    }
    r := seen[key];
    assert seen[key := r] == seen;
    seen' := seen;
  }

  /** What has been seen after the first n items, item i having the bytes keys[i]. */
  function SeenAfter(keys: seq<seq<byte>>, n: nat): map<seq<byte>, nat>
    requires n <= |keys|
  {
    if n == 0 then map[]
    else
      var seen := SeenAfter(keys, n - 1);
      seen[keys[n - 1] := Keep(seen, keys[n - 1], n - 1)]
  }

  /** Whatever came before, an item is replaced by the first one with the same bytes. */
  lemma {:induction false} KeepsFirst(keys: seq<seq<byte>>, i: nat)
    requires i < |keys|
    ensures var r := Keep(SeenAfter(keys, i), keys[i], i);
      r <= i && keys[r] == keys[i] && forall j :: 0 <= j < r ==> keys[j] != keys[i]
  {
    SeenFirst(keys, i);
    SeenAll(keys, i, keys[i]);
  }

  lemma {:induction false} SeenFirst(keys: seq<seq<byte>>, n: nat)
    requires n <= |keys|
    ensures forall k :: k in SeenAfter(keys, n) ==>
      var r := SeenAfter(keys, n)[k]; r < n && keys[r] == k && forall j :: 0 <= j < r ==> keys[j] != k
  {
    if n > 0 {
      SeenFirst(keys, n - 1);
      SeenAll(keys, n - 1, keys[n - 1]);
    }
  }

  lemma {:induction false} SeenAll(keys: seq<seq<byte>>, n: nat, k: seq<byte>)
    requires n <= |keys|
    ensures k in SeenAfter(keys, n) <==> exists j :: 0 <= j < n && keys[j] == k
  {
    if n > 0 {
      SeenAll(keys, n - 1, k);
    }
  }

  class ItemContainer {
    var methods: seq<Method>
    var debugs: seq<DebugInfo>
    var programs: seq<Program>
    var index: seq<nat>
    var codes: seq<Code>

    constructor (
      methods: seq<Method>, debugs: seq<DebugInfo>, programs: seq<Program>, index: seq<nat>, codes: seq<Code>)
      ensures this.methods == methods && this.debugs == debugs && this.programs == programs
      ensures this.index == index && this.codes == codes
    {
      this.methods, this.debugs, this.programs, this.index, this.codes := methods, debugs, programs, index, codes;
    }

    ghost function Debugging(): Store
      reads this
    {
      Store(DebugLinks(methods), debugs, programs, index)
    }

    ghost function Coding(): CodeStore
      reads this
    {
      CodeStore(CodeLinks(methods), codes)
    }

    method DeduplicateLineNumberProgram(d: nat, seen: Seen) returns (seen': Seen)
      requires Consistent(debugs, programs, index) && SeenPrograms(programs, seen.programs)
      requires d < |debugs| && debugs[d].emit && debugs[d].program < |programs|
      requires
        var p := debugs[d].program;
        Keep(seen.programs, programs[p].data, p) != p ==> Users(debugs, p) == {d}
      modifies `debugs, `programs, `index
      ensures ProgramStep(old(Debugging()), seen, d, Debugging(), seen')
    {
      hide Consistent, Sorted, Users, Members;
      ghost var ds, ps, ix := debugs, programs, index;
      var p := debugs[d].program;
      var sp, q := Deduplicate(seen.programs, programs[p].data, p);
      seen' := seen.(programs := sp);
      EmittedProgram(ds, ps, ix, d);
      if q != p {
        EmittedMember(ds, ps, ix, q);
        EmittedMember(ds, ps, ix, p);
        programs := programs[p := programs[p].(emit := false)];
        debugs := debugs[d := debugs[d].(program := q)];
        FlagKeepsOrder(ps, programs, index);
        InMembers(index, q);
        index := Remove(programs, index, p);
        InMembers(index, q);
        programs, index := ChangeRefCount(programs, index, q, programs[q].refs + 1);
        MergeKeepsCounts(ds, ps, ix, d, q, programs, index);
        MergeKeepsSeen(ps, seen.programs, p, q, programs);
      } else {
        assert debugs == debugs[d := debugs[d].(program := q)];
      }
    }

    method DeduplicateDebugInfo(l: Places, m: nat, seen: Seen, ghost s0: Store) returns (seen': Seen)
      requires Distinguishes(l) && m < |methods|
      requires WellLinked(s0) && ProgramsUnshared(s0) && DebugsUnshared(s0) && Progress(l, s0, Debugging(), seen, m)
      requires DebugsCanonical(s0) ==> Untouched(s0, Debugging())
      modifies `methods, `debugs, `programs, `index
      ensures Progress(l, s0, Debugging(), seen', m + 1)
      ensures DebugsCanonical(s0) ==> Untouched(s0, Debugging())
      ensures CodeLinks(methods) == CodeLinks(old(methods))
    {
      hide Progress, Halfway, Consistent, SeenPrograms, ProgramsUnshared, DebugsUnshared, DebugsCanonical,
        Distinguishes, WellLinked, DebugBytes, Users;
      ghost var s := Debugging();
      if methods[m].debug.NoItem? {
        NothingToDo(l, s0, s, seen, m);
        return seen;
      }
      var d := methods[m].debug.id;
      ReadyForProgram(l, s0, s, seen, m);
      if DebugsCanonical(s0) {
        CanonicalKeepsProgram(l, s0, s, seen, m);
      }
      var half := DeduplicateLineNumberProgram(d, seen);
      ghost var t := Debugging();
      FirstHalf(l, s0, s, seen, m, t, half);
      if DebugsCanonical(s0) {
        assert s.debugs[d := s.debugs[d].(program := s.debugs[d].program)] == s.debugs;
        CanonicalKeepsDebug(l, s0, t, half, m);
      }
      seen' := ReplaceDebugInfo(l, m, half, s0);
      SecondHalf(l, s0, t, half, m, Debugging(), seen');
      assert DebugOf(t, m) == d && t.methods[m := Item(d)] == t.methods;
    }

    method ReplaceDebugInfo(l: Places, m: nat, seen: Seen, ghost s0: Store) returns (seen': Seen)
      requires Distinguishes(l) && m < |methods| && Halfway(l, s0, Debugging(), seen, m)
      modifies `methods, `debugs, `programs, `index
      ensures DebugStep(l, old(Debugging()), seen, m, Debugging(), seen')
      ensures CodeLinks(methods) == CodeLinks(old(methods))
    {
      hide Consistent, Sorted, Users, Members, DebugBytes, Distinguishes, Halfway, SeenPrograms;
      ghost var s := Debugging();
      ReadyForDebug(l, s0, s, seen, m);
      TakesOver(l, s0, s, seen, m);
      assert methods[m].debug == s.methods[m];
      var d := methods[m].debug.id;
      var sd, e := Deduplicate(seen.debugs, DebugBytes(l, debugs[d]), d);
      seen' := seen.(debugs := sd);
      if e != d {
        debugs := debugs[d := debugs[d].(emit := false)];
        methods := methods[m := methods[m].(debug := Item(e))];
        var p := debugs[d].program;
        EmittedMember(s.debugs, s.programs, s.index, p);
        CountAtLeastOne(s.debugs, s.programs, s.index, p);
        programs, index := ChangeRefCount(programs, index, p, programs[p].refs - 1);
        DropKeepsCounts(s.debugs, s.programs, s.index, d, e, programs, index);
        RefsKeepSeen(s.programs, programs, seen.programs);
      }
      assert DebugLinks(methods) == s.methods[m := Item(e)];
    }

    method DeduplicateCode(m: nat, seen: map<seq<byte>, nat>) returns (seen': map<seq<byte>, nat>)
      requires m < |methods| && CodeLinked(Coding())
      modifies `methods, `codes
      ensures CodeLinked(old(Coding())) && CodeStep(old(Coding()), seen, m, Coding(), seen')
      ensures DebugLinks(methods) == DebugLinks(old(methods))
    {
      ghost var s := Coding();
      assert HasCode(s, m) <==> methods[m].code.Item?;
      if methods[m].code.NoItem? {
        return seen;
      }
      var c := methods[m].code.id;
      var k;
      seen', k := Deduplicate(seen, codes[c].bytes, c);
      if k != c {
        codes := codes[c := codes[c].(emit := false)];
        methods := methods[m := methods[m].(code := Item(k))];
      }
      assert CodeLinks(methods) == s.methods[m := Item(k)];
    }

    /**
      Afterwards no duplicates are left, counts and order hold, and every method reaches the same
      content as before. Where there were no duplicates nothing changes, so a second pass does nothing.
     */
    method DeduplicateCodeAndDebugInfo(l: Places)
      requires Distinguishes(l)
      requires WellLinked(Debugging()) && Consistent(debugs, programs, index) && DebugsEmitted(Debugging())
      requires ProgramsUnshared(Debugging()) && DebugsUnshared(Debugging())
      requires CodeLinked(Coding()) && CodeEmitted(Coding()) && CodeUnshared(Coding())
      modifies this
      ensures WellLinked(Debugging()) && Consistent(debugs, programs, index) && DebugsEmitted(Debugging())
      ensures CodeLinked(Coding()) && CodeEmitted(Coding())
      ensures DebugsCanonical(Debugging()) && CodeCanonical(Coding())
      ensures |methods| == |old(methods)|
      ensures SameContent(old(Debugging()), Debugging()) && SameBytes(old(Coding()), Coding())
      ensures forall i: nat :: i < |methods| ==>
        (HasDebug(Debugging(), i) <==> HasDebug(old(Debugging()), i))
          && (HasCode(Coding(), i) <==> HasCode(old(Coding()), i))
      ensures forall i: nat :: HasDebug(Debugging(), i) ==>
        ContentOf(Debugging(), DebugOf(Debugging(), i)) == ContentOf(old(Debugging()), DebugOf(old(Debugging()), i))
      ensures forall i: nat :: HasCode(Coding(), i) ==> CodeBytes(Coding(), i) == CodeBytes(old(Coding()), i)
      ensures forall i: nat :: HasCode(Coding(), i) ==>
        FirstCode(old(Coding()), |methods|, CodeBytes(Coding(), i), Coding().methods[i].id)
      ensures forall c :: 0 <= c < |codes| ==>
        (codes[c].emit <==> old(codes)[c].emit && !Duplicate(old(Coding()), |methods|, c))
      ensures DebugsCanonical(old(Debugging())) ==> Debugging() == old(Debugging())
      ensures CodeCanonical(old(Coding())) ==> Coding() == old(Coding())
    {
      hide Progress, Consistent, ProgramsUnshared, DebugsUnshared, DebugsCanonical, Distinguishes, CodeProgress,
        CodeUnshared, CodeCanonical, CodeStep, CodeEmitted, DebugsEmitted, SameContent, SameBytes, WellLinked,
        CodeLinked, CodeKept, Duplicate, FirstCode;
      ghost var s0, c0 := Debugging(), Coding();
      var seen, seenCode := Seen(map[], map[]), map[];
      Start(l, s0);
      CodeStart(c0);
      for m := 0 to |methods|
        invariant |methods| == |old(methods)|
        invariant Progress(l, s0, Debugging(), seen, m) && CodeProgress(c0, Coding(), seenCode, m)
        invariant DebugsCanonical(s0) ==> Untouched(s0, Debugging())
        invariant CodeKept(c0, Coding(), seenCode, m)
        invariant CodeCanonical(c0) ==> Coding() == c0
      {
        seen := DeduplicateDebugInfo(l, m, seen, s0);
        ghost var c := Coding();
        CodeInProgress(c0, c, seenCode, m);
        ghost var was := seenCode;
        seenCode := DeduplicateCode(m, seenCode);
        CodeAdvances(c0, c, was, m, Coding(), seenCode);
        CodeInProgress(c0, Coding(), seenCode, m + 1);
        CodeKeptAdvances(c0, c, was, m, Coding(), seenCode);
        if CodeCanonical(c0) {
          CanonicalKeepsCode(c0, was, m, Coding(), seenCode);
        }
      }
      InProgress(l, s0, Debugging(), seen, |methods|);
      CodeInProgress(c0, Coding(), seenCode, |methods|);
      Finish(l, s0, Debugging(), seen);
      CodeFinish(c0, Coding(), seenCode);
      CodeKeptFinish(c0, Coding(), seenCode);
    }
  }

  // ---------- what the methods need to know ----------

  lemma {:induction false} EmittedMember(debugs: seq<DebugInfo>, programs: seq<Program>, index: seq<nat>, p: nat)
    requires Consistent(debugs, programs, index) && p < |programs|
    ensures Sorted(programs, index) && (programs[p].emit <==> p in index)
  {
    assert p in Members(index) <==> p in index;
  }

  lemma {:induction false} EmittedProgram(debugs: seq<DebugInfo>, programs: seq<Program>, index: seq<nat>, d: nat)
    requires Consistent(debugs, programs, index) && d < |debugs| && debugs[d].emit
    ensures debugs[d].program < |programs| && programs[debugs[d].program].emit
  {
  }

  /** The program that is dropped is not one that was remembered. */
  lemma {:induction false} MergeKeepsSeen(ps: seq<Program>, sp: map<seq<byte>, nat>, p: nat, q: nat, qs: seq<Program>)
    requires SeenPrograms(ps, sp) && p < |ps| && ps[p].data in sp && sp[ps[p].data] == q != p
    requires |qs| == |ps| && forall x :: 0 <= x < |ps| ==>
      qs[x].data == ps[x].data && (x != p ==> qs[x].emit == ps[x].emit)
    ensures SeenPrograms(qs, sp)
  {
  }

  lemma {:induction false} FlagKeepsOrder(ps: seq<Program>, qs: seq<Program>, index: seq<nat>)
    requires Sorted(ps, index) && |qs| == |ps| && forall p :: 0 <= p < |ps| ==> qs[p].refs == ps[p].refs
    ensures Sorted(qs, index)
  {
  }

  lemma {:induction false} InMembers(index: seq<nat>, q: nat)
    ensures q in Members(index) <==> q in index
  {
  }

  lemma {:induction false} CountAtLeastOne(debugs: seq<DebugInfo>, programs: seq<Program>, index: seq<nat>, p: nat)
    requires Consistent(debugs, programs, index) && p < |programs| && programs[p].emit
    ensures programs[p].refs >= 1
  {
    ConsistentAt(debugs, programs, index, p);
  }

  lemma {:induction false} RefsKeepSeen(ps: seq<Program>, qs: seq<Program>, sp: map<seq<byte>, nat>)
    requires SeenPrograms(ps, sp) && |qs| == |ps| && forall p :: 0 <= p < |ps| ==>
      qs[p].data == ps[p].data && qs[p].emit == ps[p].emit
    ensures SeenPrograms(qs, sp)
  {
  }

  lemma {:induction false} ReadyForProgram(l: Places, s0: Store, s: Store, seen: Seen, m: nat)
    requires WellLinked(s0) && ProgramsUnshared(s0) && Progress(l, s0, s, seen, m) && HasDebug(s, m)
    ensures Consistent(s.debugs, s.programs, s.index) && SeenPrograms(s.programs, seen.programs)
    ensures
      var d := DebugOf(s, m);
      && d < |s.debugs| && s.debugs[d].emit && s.debugs[d].program < |s.programs|
      && (Keep(seen.programs, DataOf(s, d), s.debugs[d].program) != s.debugs[d].program ==>
            Users(s.debugs, s.debugs[d].program) == {d})
  {
    hide Consistent, SeenPrograms, SeenDebugs, Visited, Replaced, Users, SeenOrigins, ProgramsUnshared;
    SoleUser(l, s0, s, seen, m);
  }

  lemma {:induction false} ReadyForDebug(l: Places, s0: Store, s: Store, seen: Seen, m: nat)
    requires Halfway(l, s0, s, seen, m)
    ensures Consistent(s.debugs, s.programs, s.index) && SeenPrograms(s.programs, seen.programs)
    ensures HasDebug(s, m) && DebugOf(s, m) < |s.debugs|
    ensures s.debugs[DebugOf(s, m)].program < |s.programs| && s.programs[s.debugs[DebugOf(s, m)].program].emit
  {
    HeldEmitted(s0, s, m);
  }

  lemma {:induction false} InProgress(l: Places, s0: Store, s: Store, seen: Seen, m: nat)
    requires Progress(l, s0, s, seen, m)
    ensures SameContent(s0, s) && WellLinked(s) && Consistent(s.debugs, s.programs, s.index)
  {
  }

  lemma {:induction false} CodeInProgress(s0: CodeStore, s: CodeStore, seen: map<seq<byte>, nat>, m: nat)
    requires CodeProgress(s0, s, seen, m)
    ensures SameBytes(s0, s) && CodeLinked(s)
  {
  }

  lemma {:induction false} CodeStart(s: CodeStore)
    requires CodeLinked(s) && CodeEmitted(s)
    ensures CodeProgress(s, s, map[], 0) && CodeKept(s, s, map[], 0)
  {
  }

  lemma {:induction false} CodeKeptFinish(s0: CodeStore, s: CodeStore, seen: map<seq<byte>, nat>)
    requires CodeProgress(s0, s, seen, |s.methods|) && CodeKept(s0, s, seen, |s.methods|)
    ensures forall i: nat :: HasCode(s, i) ==> FirstCode(s0, |s.methods|, CodeBytes(s, i), s.methods[i].id)
    ensures forall c :: 0 <= c < |s.codes| ==>
      (s.codes[c].emit <==> s0.codes[c].emit && !Duplicate(s0, |s.methods|, c))
  {
    hide FirstCode, Duplicate, SeenCode;
    forall i: nat | HasCode(s, i) ensures FirstCode(s0, |s.methods|, CodeBytes(s, i), s.methods[i].id) {
      assert CodeVisited(s0, s, seen, i);
    }
  }
}
