/**
  Index regions. Items refer to classes, methods, fields and protos by 16-bit indices into tables
  that hold for a contiguous stretch of items; a new stretch begins when the next item would push
  one of the four tables over its limit.
 */
module IndexRegions {

  const MAX_INDEX_16: nat := 65535
  const INDEX_COUNT_16: nat := 4

  /**
    Something that is referred to by index: which of the four tables it goes to, and where it is
    ordered there (by type id for classes, then by identity).
   */
  datatype Dep = Dep(kind: nat, rank: nat, ptr: nat)

  predicate Less(a: Dep, b: Dep) {
    a.rank < b.rank || (a.rank == b.rank && a.ptr < b.ptr)
  }

  // ---------- ordered sets ----------

  predicate Ordered(s: seq<Dep>, kind: nat) {
    && (forall i :: 0 <= i < |s| ==> s[i].kind == kind)
    && (forall i, j :: 0 <= i < j < |s| ==> Less(s[i], s[j]))
  }

  ghost function Elems(s: seq<Dep>): set<Dep> {
    set d | d in s
  }

  function Insert(s: seq<Dep>, d: Dep): seq<Dep> {
    if s == [] || Less(d, s[0]) then [d] + s else [s[0]] + Insert(s[1..], d)
  }

  function Erase(s: seq<Dep>, d: Dep): seq<Dep> {
    if s == [] then [] else if s[0] == d then s[1..] else [s[0]] + Erase(s[1..], d)
  }

  lemma {:induction false} InsertMembers(s: seq<Dep>, d: Dep)
    ensures |Insert(s, d)| == |s| + 1
    ensures forall x :: x in Insert(s, d) <==> x in s || x == d
  {
    if !(s == [] || Less(d, s[0])) {
      InsertMembers(s[1..], d);
      assert s == [s[0]] + s[1..];
    }
  }

  lemma {:induction false} InsertOrdered(s: seq<Dep>, d: Dep, kind: nat)
    requires Ordered(s, kind) && d.kind == kind && d !in s
    ensures Ordered(Insert(s, d), kind)
  {
    if !(s == [] || Less(d, s[0])) {
      var t := Insert(s[1..], d);
      InsertOrdered(s[1..], d, kind);
      InsertMembers(s[1..], d);
      forall i | 0 <= i < |t| ensures Less(s[0], t[i]) {
        assert t[i] in t;
      }
    }
  }

  lemma {:induction false} EraseOrdered(s: seq<Dep>, d: Dep, kind: nat)
    requires Ordered(s, kind)
    ensures Ordered(Erase(s, d), kind)
    ensures forall x :: x in Erase(s, d) <==> x in s && x != d
  {
    if s != [] {
      assert s == [s[0]] + s[1..];
      if s[0] == d {
        assert d !in s[1..];
      } else {
        var t := Erase(s[1..], d);
        EraseOrdered(s[1..], d, kind);
        forall i | 0 <= i < |t| ensures t[i].kind == kind && Less(s[0], t[i]) {
          assert t[i] in t;
        }
      }
    }
  }

  /** An ordered set has one enumeration. */
  lemma {:induction false} OrderedUnique(s: seq<Dep>, t: seq<Dep>, kind: nat)
    requires Ordered(s, kind) && Ordered(t, kind) && forall x :: x in s <==> x in t
    ensures s == t
  {
    assert s == [] <==> t == [] by {
      if s != [] {
        assert s[0] in s;
      }
      if t != [] {
        assert t[0] in t;
      }
    }
    if s != [] {
      assert s[0] in t;
      assert t[0] in s;
      assert s[0] == t[0];
      forall x ensures x in s[1..] <==> x in t[1..] {
        assert x in s[1..] <==> x in s && x != s[0];
        assert x in t[1..] <==> x in t && x != t[0];
      }
      OrderedUnique(s[1..], t[1..], kind);
    }
  }

  lemma {:induction false} OrderedCount(s: seq<Dep>, kind: nat)
    requires Ordered(s, kind)
    ensures |Elems(s)| == |s|
  {
    if s == [] {
      assert Elems(s) == {};
    } else {
      OrderedCount(s[1..], kind);
      assert s == [s[0]] + s[1..];
      assert s[0] !in s[1..];
      assert Elems(s) == {s[0]} + Elems(s[1..]);
    }
  }

  lemma {:induction false} SubsetCount<T>(a: set<T>, b: set<T>)
    requires a <= b
    ensures |a| <= |b|
  {
    if a != {} {
      var x :| x in a;
      SubsetCount(a - {x}, b - {x});
    }
  }

  // ---------- headers ----------

  /** One region: it holds for the items from number `start` up to number `end`. */
  datatype Header = Header(start: nat, end: nat, indexes: seq<seq<Dep>>)

  ghost predicate ValidHeader(h: Header) {
    && |h.indexes| == INDEX_COUNT_16
    && forall k :: 0 <= k < INDEX_COUNT_16 ==> Ordered(h.indexes[k], k) && |h.indexes[k]| <= MAX_INDEX_16
  }

  predicate ValidDeps(deps: seq<Dep>) {
    forall i :: 0 <= i < |deps| ==> deps[i].kind < INDEX_COUNT_16
  }

  ghost function OfKind(deps: seq<Dep>, kind: nat): set<Dep> {
    set d | d in deps && d.kind == kind
  }

  /** The k-th table after adding some dependencies. */
  ghost predicate Grown(before: Header, deps: seq<Dep>, after: Header) {
    && ValidHeader(before) && ValidHeader(after)
    && after.start == before.start && after.end == before.end
    && forall k :: 0 <= k < INDEX_COUNT_16 ==> Elems(after.indexes[k]) == Elems(before.indexes[k]) + OfKind(deps, k)
  }

  ghost predicate FitsIn(h: Header, deps: seq<Dep>) {
    && ValidHeader(h)
    && forall k :: 0 <= k < INDEX_COUNT_16 ==> |Elems(h.indexes[k]) + OfKind(deps, k)| <= MAX_INDEX_16
  }

  function WithTable(h: Header, kind: nat, table: seq<Dep>): Header
    requires kind < |h.indexes|
  {
    h.(indexes := h.indexes[kind := table])
  }

  lemma {:induction false} GrownByOne(h0: Header, deps: seq<Dep>, h: Header, d: Dep)
    requires Grown(h0, deps, h) && d.kind < INDEX_COUNT_16
    ensures d in h.indexes[d.kind] ==> Grown(h0, deps + [d], h)
    ensures d !in h.indexes[d.kind] && |h.indexes[d.kind]| < MAX_INDEX_16 ==>
      Grown(h0, deps + [d], WithTable(h, d.kind, Insert(h.indexes[d.kind], d)))
    ensures d !in h.indexes[d.kind] && |h.indexes[d.kind]| == MAX_INDEX_16 ==> !FitsIn(h0, deps + [d])
  {
    forall k | 0 <= k < INDEX_COUNT_16
      ensures OfKind(deps + [d], k) == if k == d.kind then OfKind(deps, k) + {d} else OfKind(deps, k)
    {
    }
    var t := h.indexes[d.kind];
    if d in t {
      assert d in Elems(t);
    } else {
      InsertMembers(t, d);
      InsertOrdered(t, d, d.kind);
      assert Elems(Insert(t, d)) == Elems(t) + {d};
      if |t| == MAX_INDEX_16 {
        OrderedCount(t, d.kind);
        var u := Elems(h0.indexes[d.kind]) + OfKind(deps + [d], d.kind);
        assert u == Elems(t) + {d};
        assert |u| == MAX_INDEX_16 + 1;
      }
    }
  }

  /** Dependencies beyond a point at which they stopped fitting do not help. */
  lemma {:induction false} FitsPrefix(h: Header, deps: seq<Dep>, n: nat)
    requires n <= |deps| && FitsIn(h, deps)
    ensures FitsIn(h, deps[..n])
  {
    forall k | 0 <= k < INDEX_COUNT_16
      ensures |Elems(h.indexes[k]) + OfKind(deps[..n], k)| <= MAX_INDEX_16
    {
      SubsetCount(Elems(h.indexes[k]) + OfKind(deps[..n], k), Elems(h.indexes[k]) + OfKind(deps, k));
    }
  }

  lemma {:induction false} GrownFits(h0: Header, deps: seq<Dep>, h: Header)
    requires Grown(h0, deps, h)
    ensures FitsIn(h0, deps)
  {
    forall k | 0 <= k < INDEX_COUNT_16
      ensures |Elems(h0.indexes[k]) + OfKind(deps, k)| <= MAX_INDEX_16
    {
      OrderedCount(h.indexes[k], k);
    }
  }

  /** r is h without the given dependencies. */
  ghost predicate Shrunk(h: Header, deps: seq<Dep>, r: Header) {
    && ValidHeader(h) && ValidHeader(r)
    && r.start == h.start && r.end == h.end
    && forall k :: 0 <= k < INDEX_COUNT_16 ==> Elems(r.indexes[k]) == Elems(h.indexes[k]) - OfKind(deps, k)
  }

  lemma {:induction false} ShrunkByOne(h: Header, deps: seq<Dep>, r: Header, d: Dep)
    requires Shrunk(h, deps, r) && d.kind < INDEX_COUNT_16
    ensures Shrunk(h, deps + [d], WithTable(r, d.kind, Erase(r.indexes[d.kind], d)))
  {
    var t := r.indexes[d.kind];
    EraseOrdered(t, d, d.kind);
    EraseShrinks(t, d);
    assert Elems(Erase(t, d)) == Elems(t) - {d};
    forall k | 0 <= k < INDEX_COUNT_16
      ensures OfKind(deps + [d], k) == if k == d.kind then OfKind(deps, k) + {d} else OfKind(deps, k)
    {
    }
  }

  /** Taking the added dependencies out again. */
  method Remove(h: Header, added: seq<Dep>) returns (r: Header)
    requires ValidHeader(h) && ValidDeps(added)
    ensures Shrunk(h, added, r)
  {
    r := h;
    assert added[..0] == [];
    for i := 0 to |added|
      invariant Shrunk(h, added[..i], r)
    {
      var d := added[i];
      ShrunkByOne(h, added[..i], r, d);
      assert added[..i + 1] == added[..i] + [d];
      r := WithTable(r, d.kind, Erase(r.indexes[d.kind], d));
    }
    assert added[..|added|] == added;
  }

  lemma {:induction false} EraseShrinks(s: seq<Dep>, d: Dep)
    ensures |Erase(s, d)| <= |s|
  {
    if s != [] && s[0] != d {
      EraseShrinks(s[1..], d);
    }
  }

  lemma {:induction false} SameTables(h: Header, r: Header)
    requires ValidHeader(h) && ValidHeader(r) && r.start == h.start && r.end == h.end
    requires forall k :: 0 <= k < INDEX_COUNT_16 ==> Elems(r.indexes[k]) == Elems(h.indexes[k])
    ensures r == h
  {
    forall k | 0 <= k < INDEX_COUNT_16 ensures r.indexes[k] == h.indexes[k] {
      forall x ensures x in r.indexes[k] <==> x in h.indexes[k] {
        assert x in r.indexes[k] <==> x in Elems(r.indexes[k]);
        assert x in h.indexes[k] <==> x in Elems(h.indexes[k]);
      }
      OrderedUnique(r.indexes[k], h.indexes[k], k);
    }
    assert r.indexes == h.indexes;
  }

  /** Only dependencies that were not there count as added. */
  ghost predicate New(h: Header, added: seq<Dep>) {
    ValidHeader(h) && ValidDeps(added) && forall d :: d in added ==> d !in h.indexes[d.kind]
  }

  /** All or nothing: the dependencies are added if every table stays within its limit, else none is. */
  method Add(h: Header, deps: seq<Dep>) returns (ok: bool, r: Header)
    requires ValidHeader(h) && ValidDeps(deps)
    ensures ok <==> FitsIn(h, deps)
    ensures ok ==> Grown(h, deps, r)
    ensures !ok ==> r == h
  {
    hide FitsIn, Ordered;
    r := h;
    var added: seq<Dep> := [];
    assert deps[..0] == [];
    for i := 0 to |deps|
      invariant Grown(h, deps[..i], r) && Grown(h, added, r) && New(h, added)
    {
      var d := deps[i];
      assert deps[..i + 1] == deps[..i] + [d];
      GrownByOne(h, deps[..i], r, d);
      GrownByOne(h, added, r, d);
      var table := r.indexes[d.kind];
      if d in table {
        continue;
      }
      if |table| == MAX_INDEX_16 {
        NoLongerFits(h, deps, i + 1);
        ghost var full := r;
        r := Remove(r, added);
        Restored(h, added, full, r);
        return false, r;
      }
      StillNew(h, added, r, d);
      r := WithTable(r, d.kind, Insert(table, d));
      added := added + [d];
    }
    assert deps[..|deps|] == deps;
    GrownFits(h, deps, r);
    return true, r;
  }

  lemma {:induction false} NoLongerFits(h: Header, deps: seq<Dep>, n: nat)
    requires n <= |deps| && !FitsIn(h, deps[..n])
    ensures !FitsIn(h, deps)
  {
    if FitsIn(h, deps) {
      FitsPrefix(h, deps, n);
    }
  }

  lemma {:induction false} StillNew(h: Header, added: seq<Dep>, r: Header, d: Dep)
    requires New(h, added) && Grown(h, added, r) && d.kind < INDEX_COUNT_16 && d !in r.indexes[d.kind]
    ensures New(h, added + [d])
  {
    assert d !in Elems(r.indexes[d.kind]);
  }

  lemma {:induction false} Restored(h: Header, added: seq<Dep>, full: Header, r: Header)
    requires New(h, added) && Grown(h, added, full) && Shrunk(full, added, r)
    ensures r == h
  {
    forall k | 0 <= k < INDEX_COUNT_16 ensures Elems(r.indexes[k]) == Elems(h.indexes[k]) {
      forall d | d in OfKind(added, k) ensures d !in Elems(h.indexes[k]) {
      }
    }
    SameTables(h, r);
  }
}
