/**
  The index section: items are taken in order, each into the current region if it fits and into a
  new one otherwise. No other division of the order into contiguous regions needs fewer.
 */
module IndexSection {
  import opened IndexRegions

  /** Everything of one kind that items[lo..hi] refer to. */
  ghost function Union(items: seq<seq<Dep>>, lo: nat, hi: nat, kind: nat): set<Dep>
    requires lo <= hi <= |items|
    decreases hi
  {
    if lo == hi then {} else Union(items, lo, hi - 1, kind) + OfKind(items[hi - 1], kind)
  }

  /** items[lo..hi] can share one region. */
  ghost predicate Feasible(items: seq<seq<Dep>>, lo: nat, hi: nat)
    requires lo <= hi <= |items|
  {
    forall k :: 0 <= k < INDEX_COUNT_16 ==> |Union(items, lo, hi, k)| <= MAX_INDEX_16
  }

  lemma {:induction false} UnionGrows(items: seq<seq<Dep>>, lo: nat, hi: nat, lo': nat, hi': nat, kind: nat)
    requires lo' <= lo <= hi <= hi' <= |items|
    ensures Union(items, lo, hi, kind) <= Union(items, lo', hi', kind)
    decreases hi'
  {
    if lo < hi {
      if hi == hi' {
        UnionGrows(items, lo, hi - 1, lo', hi' - 1, kind);
      } else {
        UnionGrows(items, lo, hi, lo', hi' - 1, kind);
      }
    }
  }

  lemma {:induction false} FeasibleInside(items: seq<seq<Dep>>, lo: nat, hi: nat, lo': nat, hi': nat)
    requires lo' <= lo <= hi <= hi' <= |items| && Feasible(items, lo', hi')
    ensures Feasible(items, lo, hi)
  {
    forall k | 0 <= k < INDEX_COUNT_16 ensures |Union(items, lo, hi, k)| <= MAX_INDEX_16 {
      UnionGrows(items, lo, hi, lo', hi', k);
      SubsetCount(Union(items, lo, hi, k), Union(items, lo', hi', k));
    }
  }

  ghost predicate FitsAlone(items: seq<seq<Dep>>, i: nat) {
    i < |items| && Feasible(items, i, i + 1)
  }

  /** The tables of a region hold exactly what its items refer to. */
  ghost predicate Holds(items: seq<seq<Dep>>, h: Header, end: nat) {
    && ValidHeader(h)
    && h.start <= end <= |items|
    && forall k :: 0 <= k < INDEX_COUNT_16 ==> Elems(h.indexes[k]) == Union(items, h.start, end, k)
  }

  /** A closed region: nonempty, and its next item would not have fitted. */
  ghost predicate Closed(items: seq<seq<Dep>>, h: Header) {
    && Holds(items, h, h.end)
    && h.start < h.end < |items|
    && !Feasible(items, h.start, h.end + 1)
  }

  /** The regions after the first n items; the last one is still open. */
  ghost predicate Regions(items: seq<seq<Dep>>, n: nat, headers: seq<Header>) {
    && n <= |items|
    && (headers == [] <==> n == 0)
    && (forall h :: 0 <= h < |headers| - 1 ==> Closed(items, headers[h]) && headers[h + 1].start == headers[h].end)
    && (headers != [] ==>
          && headers[0].start == 0
          && headers[|headers| - 1].start < n
          && Holds(items, headers[|headers| - 1], n))
  }

  const EMPTY: seq<seq<Dep>> := [[], [], [], []]

  lemma {:induction false} NewHeader(items: seq<seq<Dep>>, i: nat)
    requires i <= |items|
    ensures Holds(items, Header(i, i, EMPTY), i)
  {
    forall k | 0 <= k < INDEX_COUNT_16 ensures Elems(EMPTY[k]) == {} && Ordered(EMPTY[k], k) {
      assert EMPTY[k] == [];
    }
  }

  /** Adding the next item to a region asks whether the longer stretch is feasible. */
  lemma {:induction false} ExtendRegion(items: seq<seq<Dep>>, h: Header, n: nat)
    requires Holds(items, h, n) && n < |items|
    ensures FitsIn(h, items[n]) <==> Feasible(items, h.start, n + 1)
    ensures forall r | Grown(h, items[n], r) :: Holds(items, r, n + 1) && r.start == h.start
  {
    forall k | 0 <= k < INDEX_COUNT_16
      ensures Union(items, h.start, n + 1, k) == Elems(h.indexes[k]) + OfKind(items[n], k)
    {
    }
  }

  lemma {:induction false} ExtendedLast(items: seq<seq<Dep>>, n: nat, before: seq<Header>, after: seq<Header>)
    requires n < |items| && |after| == |before| > 0 && after[..|after| - 1] == before[..|after| - 1]
    requires Open(items, n, before)
    requires Holds(items, after[|after| - 1], n + 1) && after[|after| - 1].start == before[|after| - 1].start
    ensures Regions(items, n + 1, after)
  {
    forall h | 0 <= h < |after|
      ensures after[h].start == before[h].start && (h < |after| - 1 ==> after[h] == before[h])
    {
      if h < |after| - 1 {
        assert after[h] == after[..|after| - 1][h];
      }
    }
  }

  lemma {:induction false} OpenedNew(items: seq<seq<Dep>>, n: nat, before: seq<Header>, r: Header)
    requires n < |items| && Regions(items, n, before) && before != []
    requires !Feasible(items, before[|before| - 1].start, n + 1)
    requires Holds(items, r, n + 1) && r.start == n
    ensures Regions(items, n + 1, before[|before| - 1 := before[|before| - 1].(end := n)] + [r])
  {
    var last := |before| - 1;
    var after := before[last := before[last].(end := n)] + [r];
    forall h | 0 <= h < |after| - 1 ensures Closed(items, after[h]) && after[h + 1].start == after[h].end {
      if h < last {
        assert after[h] == before[h];
      }
    }
  }

  /** Some region is open: the last of those so far, or an empty first one. */
  ghost predicate Open(items: seq<seq<Dep>>, n: nat, headers: seq<Header>) {
    headers != [] && (Regions(items, n, headers) || (n == 0 && headers == [Header(0, 0, EMPTY)]))
  }

  lemma {:induction false} OpenHolds(items: seq<seq<Dep>>, n: nat, headers: seq<Header>)
    requires n < |items| && Open(items, n, headers)
    ensures Holds(items, headers[|headers| - 1], n) && ValidHeader(headers[|headers| - 1])
    ensures headers[|headers| - 1].start <= n
    ensures headers[|headers| - 1].start < n ==> Regions(items, n, headers)
  {
    hide Feasible, Closed, Union;
    NewHeader(items, n);
  }

  lemma {:induction false} OpenFirst(items: seq<seq<Dep>>, n: nat, headers: seq<Header>)
    requires Regions(items, n, headers)
    ensures headers == [] ==> Open(items, n, [Header(n, n, EMPTY)])
    ensures headers != [] ==> Open(items, n, headers)
  {
  }

  lemma {:induction false} HoldsValid(items: seq<seq<Dep>>, h: Header, n: nat)
    requires Holds(items, h, n)
    ensures ValidHeader(h)
  {
  }

  lemma {:induction false} NoRegions(items: seq<seq<Dep>>)
    ensures Regions(items, 0, [])
  {
  }

  /** The last region ends with the last item. */
  lemma {:induction false} Finished(items: seq<seq<Dep>>, headers: seq<Header>)
    requires Regions(items, |items|, headers)
    ensures headers == [] ==> Greedy(items, headers)
    ensures headers != [] ==> Greedy(items, headers[|headers| - 1 := headers[|headers| - 1].(end := |items|)])
  {
    hide Union, Feasible;
    if headers != [] {
      var last := |headers| - 1;
      var r := headers[last := headers[last].(end := |items|)];
      forall h | 0 <= h < |r|
        ensures Holds(items, r[h], r[h].end) && r[h].start < r[h].end
        ensures h < last ==> r[h + 1].start == r[h].end < |items| && !Feasible(items, r[h].start, r[h].end + 1)
      {
        if h < last {
          assert r[h] == headers[h];
        }
      }
    }
  }

  class Section {
    var headers: seq<Header>

    constructor ()
      ensures headers == []
    {
      headers := [];
    }

    method AddHeader(start: nat)
      modifies this
      ensures headers == old(headers) + [Header(start, start, EMPTY)]
    {
      headers := headers + [Header(start, start, EMPTY)];
    }

    method SetEnd(end: nat)
      requires headers != []
      modifies this
      ensures headers == old(headers)[|old(headers)| - 1 := old(headers)[|old(headers)| - 1].(end := end)]
    {
      headers := headers[|headers| - 1 := headers[|headers| - 1].(end := end)];
    }

    method AddToCurrent(deps: seq<Dep>) returns (ok: bool)
      requires headers != [] && ValidHeader(headers[|headers| - 1]) && ValidDeps(deps)
      modifies this
      ensures |headers| == |old(headers)| && headers[..|headers| - 1] == old(headers)[..|headers| - 1]
      ensures ok <==> FitsIn(old(headers)[|headers| - 1], deps)
      ensures ok ==> Grown(old(headers)[|headers| - 1], deps, headers[|headers| - 1])
      ensures !ok ==> headers == old(headers)
    {
      var h;
      ok, h := Add(headers[|headers| - 1], deps);
      headers := headers[|headers| - 1 := h];
    }

    /** Takes item n in; it fails only if the item does not even fit into a region of its own. */
    method ProcessIndexDependencies(n: nat, deps: seq<Dep>, ghost items: seq<seq<Dep>>) returns (ok: bool)
      requires n < |items| && deps == items[n] && ValidDeps(deps) && Regions(items, n, headers)
      modifies this
      ensures ok <==> FitsAlone(items, n)
      ensures ok ==> Regions(items, n + 1, headers)
    {
      hide Feasible, FitsIn, Closed, Regions, Open, Holds, Grown, ValidHeader, ValidDeps, EMPTY;
      OpenFirst(items, n, headers);
      if headers == [] {
        AddHeader(n);
        assert headers == [Header(n, n, EMPTY)];
      }
      ghost var before, cur := headers, headers[|headers| - 1];
      OpenHolds(items, n, headers);
      ExtendRegion(items, cur, n);
      ok := AddToCurrent(deps);
      if ok {
        FeasibleInside(items, n, n + 1, cur.start, n + 1);
        ExtendedLast(items, n, before, headers);
        return;
      }
      SetEnd(n);
      AddHeader(n);
      NewHeader(items, n);
      HoldsValid(items, Header(n, n, EMPTY), n);
      ghost var closed := headers[..|headers| - 1];
      ExtendRegion(items, Header(n, n, EMPTY), n);
      ok := AddToCurrent(deps);
      if ok {
        OpenedNew(items, n, before, headers[|headers| - 1]);
        assert headers == closed + [headers[|headers| - 1]];
      }
    }

    /** Divides all items into regions. */
    method RebuildIndexSection(items: seq<seq<Dep>>) returns (ok: bool)
      requires forall i :: 0 <= i < |items| ==> ValidDeps(items[i])
      modifies this
      ensures ok <==> forall i :: 0 <= i < |items| ==> FitsAlone(items, i)
      ensures ok ==> Greedy(items, headers)
    {
      hide FitsAlone, Regions, Greedy, ValidDeps;
      headers := [];
      NoRegions(items);
      for n := 0 to |items|
        invariant Regions(items, n, headers)
        invariant forall i :: 0 <= i < n ==> FitsAlone(items, i)
      {
        ok := ProcessIndexDependencies(n, items[n], items);
        if !ok {
          return;
        }
      }
      Finished(items, headers);
      if headers != [] {
        SetEnd(|items|);
      }
      return true;
    }
  }

  /** The finished division: contiguous, complete, each region exactly filled, and each but the last one full. */
  ghost predicate Greedy(items: seq<seq<Dep>>, headers: seq<Header>) {
    && (headers == [] <==> items == [])
    && (forall h :: 0 <= h < |headers| ==>
          Holds(items, headers[h], headers[h].end) && headers[h].start < headers[h].end)
    && (forall h :: 0 <= h < |headers| - 1 ==>
          headers[h + 1].start == headers[h].end < |items| && !Feasible(items, headers[h].start, headers[h].end + 1))
    && (headers != [] ==> headers[0].start == 0 && headers[|headers| - 1].end == |items|)
  }

  /** Any division of the items into feasible contiguous regions, by its cut points. */
  ghost predicate Division(items: seq<seq<Dep>>, cuts: seq<nat>) {
    && |cuts| > 0 && cuts[0] == 0 && cuts[|cuts| - 1] == |items|
    && (forall j :: 0 <= j < |cuts| ==> cuts[j] <= |items|)
    && (forall j :: 0 <= j < |cuts| - 1 ==> cuts[j] <= cuts[j + 1] && Feasible(items, cuts[j], cuts[j + 1]))
  }

  /** The greedy division is never behind another one. */
  lemma {:induction false} StaysAhead(items: seq<seq<Dep>>, headers: seq<Header>, cuts: seq<nat>, j: nat)
    requires Greedy(items, headers) && Division(items, cuts) && j < |headers| && j < |cuts|
    ensures cuts[j] <= headers[j].start
  {
    if j > 0 {
      StaysAhead(items, headers, cuts, j - 1);
      var h := headers[j - 1];
      if h.end < cuts[j] {
        FeasibleInside(items, h.start, h.end + 1, cuts[j - 1], cuts[j]);
      }
    }
  }

  /** No division into feasible regions uses fewer regions than the greedy one. */
  lemma {:induction false} GreedyIsMinimal(items: seq<seq<Dep>>, headers: seq<Header>, cuts: seq<nat>)
    requires Greedy(items, headers) && Division(items, cuts)
    ensures |headers| <= |cuts| - 1
  {
    if |headers| >= |cuts| {
      StaysAhead(items, headers, cuts, |cuts| - 1);
    }
  }
}
