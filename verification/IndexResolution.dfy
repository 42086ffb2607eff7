/**
  Index resolution end to end. The writer picks the index of a dependency by order numbers, while the
  items are still objects; the reader finds the table by file offsets. Both arrive at the same entry.
 */
module IndexResolution {
  import opened Bytes
  import opened FileBytes
  import opened IndexRegions
  import opened IndexSection

  // ---------- order numbers and offsets ----------

  /** Items are numbered in order, each followed by its members. */
  method UpdateOrderIndexes(members: seq<nat>) returns (first: seq<nat>)
    ensures Numbering(members, first)
  {
    var idx := 0;
    first := [];
    for i := 0 to |members|
      invariant |first| == i && idx == (if i == 0 then 0 else first[i - 1] + 1 + members[i - 1])
      invariant i > 0 ==> first[0] == 0
      invariant forall j :: 0 < j < i ==> first[j] == first[j - 1] + 1 + members[j - 1]
    {
      first := first + [idx];
      idx := idx + 1;
      for m := 0 to members[i]
        invariant idx == first[i] + 1 + m
      {
        idx := idx + 1;
      }
    }
    first := first + [idx];
  }

  /** first[i] is the number of item i, first[n] that of the end mark. */
  predicate Numbering(members: seq<nat>, first: seq<nat>) {
    && |first| == |members| + 1
    && first[0] == 0
    && forall j :: 0 < j <= |members| ==> first[j] == first[j - 1] + 1 + members[j - 1]
  }

  lemma {:induction false} NumberingGrows(members: seq<nat>, first: seq<nat>, i: nat, j: nat)
    requires Numbering(members, first) && i < j <= |members|
    ensures first[i] < first[j]
    decreases j
  {
    if i < j - 1 {
      NumberingGrows(members, first, i, j - 1);
    }
  }

  /** Offsets of all numbered entities and of the end mark, as the layout assigns them. */
  ghost predicate Increasing(off: seq<nat>) {
    forall a, b :: 0 <= a < b < |off| ==> off[a] < off[b]
  }

  /** Number o belongs to item i or one of its members. */
  predicate BelongsTo(first: seq<nat>, o: nat, i: nat) {
    i + 1 < |first| && first[i] <= o < first[i + 1]
  }

  lemma {:induction false} RegionByNumber(members: seq<nat>, first: seq<nat>, o: nat, i: nat, start: nat, end: nat)
    requires Numbering(members, first) && BelongsTo(first, o, i) && start <= |members| && end <= |members|
    ensures first[start] <= o < first[end] <==> start <= i < end
  {
    if start < i { NumberingGrows(members, first, start, i); }
    if i + 1 < start { NumberingGrows(members, first, i + 1, start); }
    if end < i { NumberingGrows(members, first, end, i); }
    if i + 1 < end { NumberingGrows(members, first, i + 1, end); }
  }

  // ---------- the writer's side ----------

  /** An index of a dependency, and the region it is for. */
  datatype Entry = Entry(start: nat, end: nat, index: nat)

  function Position(s: seq<Dep>, d: Dep): (i: nat)
    requires d in s
    ensures i < |s| && s[i] == d
  {
    if s[0] == d then 0 else 1 + Position(s[1..], d)
  }

  /** What a dependency is told by the regions, in order. */
  function EntriesOf(headers: seq<Header>, d: Dep, n: nat): seq<Entry>
    requires n <= |headers|
  {
    if n == 0 then []
    else
      var h := headers[n - 1];
      EntriesOf(headers, d, n - 1)
      + if d.kind < |h.indexes| && d in h.indexes[d.kind]
        then [Entry(h.start, h.end, Position(h.indexes[d.kind], d))] else []
  }

  /** The first entry whose region contains the number, or the end. */
  function FindEntry(first: seq<nat>, entries: seq<Entry>, o: nat): (k: nat)
    ensures k <= |entries|
  {
    if entries == [] then 0
    else
      var e := entries[0];
      if e.start < |first| && e.end < |first| && first[e.start] <= o < first[e.end] then 0
      else 1 + FindEntry(first, entries[1..], o)
  }

  predicate HasIndex(first: seq<nat>, headers: seq<Header>, d: Dep, o: nat) {
    FindEntry(first, EntriesOf(headers, d, |headers|), o) < |EntriesOf(headers, d, |headers|)|
  }

  function GetIndex(first: seq<nat>, headers: seq<Header>, d: Dep, o: nat): nat
    requires HasIndex(first, headers, d, o)
  {
    var entries := EntriesOf(headers, d, |headers|);
    entries[FindEntry(first, entries, o)].index
  }

  /** The region that item i is in. */
  ghost predicate InRegion(headers: seq<Header>, i: nat, r: nat) {
    r < |headers| && headers[r].start <= i < headers[r].end
  }

  lemma {:induction false} StartsGrow(items: seq<seq<Dep>>, headers: seq<Header>, a: nat, b: nat)
    requires Greedy(items, headers) && a < b < |headers|
    ensures headers[a].end <= headers[b].start
    decreases b
  {
    if a < b - 1 {
      StartsGrow(items, headers, a, b - 1);
    }
  }

  lemma {:induction false} RegionExists(items: seq<seq<Dep>>, headers: seq<Header>, i: nat) returns (r: nat)
    requires Greedy(items, headers) && i < |items|
    ensures InRegion(headers, i, r)
    ensures forall q :: 0 <= q < |headers| && InRegion(headers, i, q) ==> q == r
  {
    r := 0;
    while headers[r].end <= i
      invariant r < |headers| && headers[r].start <= i
      decreases |headers| - r
    {
      r := r + 1;
    }
    forall q | 0 <= q < |headers| && InRegion(headers, i, q) ensures q == r {
      if q < r {
        StartsGrow(items, headers, q, r);
      } else if r < q {
        StartsGrow(items, headers, r, q);
      }
    }
  }

  lemma {:induction false} DependencyInUnion(items: seq<seq<Dep>>, lo: nat, hi: nat, i: nat, d: Dep)
    requires lo <= i < hi <= |items| && d in items[i]
    ensures d in Union(items, lo, hi, d.kind)
    decreases hi
  {
    if i < hi - 1 {
      DependencyInUnion(items, lo, hi - 1, i, d);
    }
  }

  /** Among the first n regions only region r answers for the number. */
  lemma {:induction false} EntryFound(
    items: seq<seq<Dep>>, headers: seq<Header>, members: seq<nat>, first: seq<nat>, o: nat, i: nat, d: Dep, r: nat,
    n: nat)
    requires Greedy(items, headers) && Numbering(members, first) && |members| == |items|
    requires BelongsTo(first, o, i) && InRegion(headers, i, r) && d.kind < INDEX_COUNT_16
    requires d in headers[r].indexes[d.kind]
    requires n <= |headers| && (forall q :: 0 <= q < |headers| && InRegion(headers, i, q) ==> q == r)
    ensures
      var entries := EntriesOf(headers, d, n);
      var k := FindEntry(first, entries, o);
      && (n <= r ==> k == |entries|)
      && (r < n ==> k < |entries| && entries[k].index == Position(headers[r].indexes[d.kind], d))
  {
    hide Greedy, FindEntry, Position, Numbering, BelongsTo;
    HeaderBounds(items, headers, r);
    if n == 0 {
      FindInNone(first, o);
    } else {
      EntryFound(items, headers, members, first, o, i, d, r, n - 1);
      var before, h := EntriesOf(headers, d, n - 1), headers[n - 1];
      HeaderBounds(items, headers, n - 1);
      NumberingLength(members, first);
      RegionByNumber(members, first, o, i, h.start, h.end);
      assert InRegion(headers, i, n - 1) <==> n - 1 == r;
      if d in h.indexes[d.kind] {
        FindAppend(first, before, Entry(h.start, h.end, Position(h.indexes[d.kind], d)), o);
      } else {
        assert EntriesOf(headers, d, n) == before;
      }
    }
  }

  lemma {:induction false} HeaderBounds(items: seq<seq<Dep>>, headers: seq<Header>, h: nat)
    requires Greedy(items, headers) && h < |headers|
    ensures headers[h].start < headers[h].end <= |items| && |headers[h].indexes| == INDEX_COUNT_16
  {
    assert Holds(items, headers[h], headers[h].end);
  }

  lemma {:induction false} NumberingLength(members: seq<nat>, first: seq<nat>)
    requires Numbering(members, first)
    ensures |first| == |members| + 1
  {
  }

  lemma {:induction false} FindInNone(first: seq<nat>, o: nat)
    ensures FindEntry(first, [], o) == 0
  {
  }

  lemma {:induction false} FindAppend(first: seq<nat>, entries: seq<Entry>, e: Entry, o: nat)
    ensures
      var k := FindEntry(first, entries, o);
      FindEntry(first, entries + [e], o)
      == if k < |entries| then k
         else if e.start < |first| && e.end < |first| && first[e.start] <= o < first[e.end] then |entries|
         else |entries| + 1
  {
    if entries != [] {
      assert (entries + [e])[1..] == entries[1..] + [e];
      FindAppend(first, entries[1..], e, o);
    }
  }

  /** The writer finds an index for every dependency of every item and member: its place in the region's table. */
  lemma {:induction false} WriterFindsIndex(
    items: seq<seq<Dep>>, headers: seq<Header>, members: seq<nat>, first: seq<nat>, o: nat, i: nat, d: Dep)
    returns (r: nat)
    requires Greedy(items, headers) && Numbering(members, first) && |members| == |items|
    requires BelongsTo(first, o, i) && d in items[i] && d.kind < INDEX_COUNT_16
    ensures InRegion(headers, i, r) && d in headers[r].indexes[d.kind]
    ensures forall q :: 0 <= q < |headers| && InRegion(headers, i, q) ==> q == r
    ensures HasIndex(first, headers, d, o)
    ensures var w := GetIndex(first, headers, d, o);
            w < |headers[r].indexes[d.kind]| <= MAX_INDEX_16 && headers[r].indexes[d.kind][w] == d
  {
    r := RegionExists(items, headers, i);
    DependencyInUnion(items, headers[r].start, headers[r].end, i, d);
    assert Holds(items, headers[r], headers[r].end);
    assert d in Elems(headers[r].indexes[d.kind]);
    EntryFound(items, headers, members, first, o, i, d, r, |headers|);
  }

  // ---------- the file ----------

  /** Little-endian 32-bit words. */
  function Words(ws: seq<nat>): seq<byte> {
    if ws == [] then [] else Words(ws[..|ws| - 1]) + Le(ws[|ws| - 1], 4)
  }

  lemma {:induction false} WordsAt(ws: seq<nat>, i: nat)
    requires i < |ws|
    ensures |Words(ws)| == 4 * |ws| && Words(ws)[4 * i..4 * i + 4] == Le(ws[i], 4)
  {
    var front := ws[..|ws| - 1];
    if front != [] {
      WordsAt(front, if i < |front| then i else 0);
    }
    if i == |front| {
      assert Words(ws)[4 * i..4 * i + 4] == Le(ws[i], 4);
    } else {
      assert Words(ws)[4 * i..4 * i + 4] == Words(front)[4 * i..4 * i + 4];
    }
  }

  function U32(file: seq<byte>, p: nat): nat {
    ReadLe(file, p, 4)
  }

  /** The section is written at `base`. */
  ghost predicate WrittenAt(file: seq<byte>, base: nat, ws: seq<nat>) {
    && Lies(file, base, Words(ws))
    && forall i :: 0 <= i < |ws| ==> ws[i] < 0x1_0000_0000
  }

  lemma {:induction false} WordRead(file: seq<byte>, base: nat, ws: seq<nat>, i: nat)
    requires Lies(file, base, Words(ws)) && i < |ws| && ws[i] < 0x1_0000_0000
    ensures U32(file, base + 4 * i) == ws[i]
  {
    hide Words, Le;
    WordsAt(ws, i);
    SliceOfSlice(file, base, base + 4 * |ws|, 4 * i, 4 * i + 4);
    assert Base(4) == 0x1_0000_0000;
    ReadLeBack(file, base + 4 * i, ws[i], 4);
  }

  /** Offsets of the dependencies in a table. */
  function TableWords(table: seq<Dep>, offsetOf: Dep -> nat): (ws: seq<nat>)
    ensures |ws| == |table| && forall i :: 0 <= i < |ws| ==> ws[i] == offsetOf(table[i])
  {
    seq(|table|, i requires 0 <= i < |table| => offsetOf(table[i]))
  }

  /** All tables of the first n regions, and the first k of region n. */
  function Tables(headers: seq<Header>, offsetOf: Dep -> nat, n: nat, k: nat): seq<nat>
    requires n <= |headers| && (n < |headers| ==> k <= |headers[n].indexes|) && (n == |headers| ==> k == 0)
    decreases n, k
  {
    if k > 0 then Tables(headers, offsetOf, n, k - 1) + TableWords(headers[n].indexes[k - 1], offsetOf)
    else if n > 0 then Tables(headers, offsetOf, n - 1, |headers[n - 1].indexes|)
    else []
  }

  /** Words of one region's header: the offsets it holds for, then size and place of each of its four tables. */
  function HeaderWords(
    headers: seq<Header>, offsetOf: Dep -> nat, base: nat, startOff: nat, endOff: nat, n: nat): (ws: seq<nat>)
    requires n < |headers| && |headers[n].indexes| == INDEX_COUNT_16
    ensures |ws| == 10
  {
    var t := base + 40 * |headers|;
    var ix := headers[n].indexes;
    [startOff, endOff,
     |ix[0]|, t + 4 * |Tables(headers, offsetOf, n, 0)|,
     |ix[1]|, t + 4 * |Tables(headers, offsetOf, n, 1)|,
     |ix[2]|, t + 4 * |Tables(headers, offsetOf, n, 2)|,
     |ix[3]|, t + 4 * |Tables(headers, offsetOf, n, 3)|]
  }

  ghost predicate AllFour(headers: seq<Header>) {
    forall h :: 0 <= h < |headers| ==> |headers[h].indexes| == INDEX_COUNT_16
  }

  /** Where the entity or end mark of an item number lies. */
  function OffsetAt(first: seq<nat>, off: seq<nat>, i: nat): nat {
    if i < |first| && first[i] < |off| then off[first[i]] else 0
  }

  function AllHeaders(
    headers: seq<Header>, offsetOf: Dep -> nat, base: nat, first: seq<nat>, off: seq<nat>, n: nat): (ws: seq<nat>)
    requires n <= |headers| && AllFour(headers)
    ensures |ws| == 10 * n
  {
    if n == 0 then []
    else
      AllHeaders(headers, offsetOf, base, first, off, n - 1)
      + HeaderWords(headers, offsetOf, base, OffsetAt(first, off, headers[n - 1].start),
                    OffsetAt(first, off, headers[n - 1].end), n - 1)
  }

  function SectionWords(headers: seq<Header>, offsetOf: Dep -> nat, base: nat, first: seq<nat>, off: seq<nat>): seq<nat>
    requires AllFour(headers)
  {
    AllHeaders(headers, offsetOf, base, first, off, |headers|) + Tables(headers, offsetOf, |headers|, 0)
  }

  lemma {:induction false} HeaderWordAt(
    headers: seq<Header>, offsetOf: Dep -> nat, base: nat, first: seq<nat>, off: seq<nat>, n: nat, h: nat, w: nat)
    requires h < n <= |headers| && AllFour(headers) && w < 10
    ensures AllHeaders(headers, offsetOf, base, first, off, n)[10 * h + w]
         == HeaderWords(headers, offsetOf, base, OffsetAt(first, off, headers[h].start),
                        OffsetAt(first, off, headers[h].end), h)[w]
  {
    hide HeaderWords, OffsetAt;
    if h < n - 1 {
      HeaderWordAt(headers, offsetOf, base, first, off, n - 1, h, w);
    }
  }

  /** A table occupies the place its header says. */
  lemma {:induction false} TableWordAt(
    headers: seq<Header>, offsetOf: Dep -> nat, n: nat, k: nat, h: nat, kind: nat, w: nat)
    requires n <= |headers| && AllFour(headers) && (if n == |headers| then k == 0 else k <= INDEX_COUNT_16)
    requires h < |headers| && kind < INDEX_COUNT_16 && (h < n || (h == n && kind < k)) && w < |headers[h].indexes[kind]|
    ensures
      var p := |Tables(headers, offsetOf, h, kind)| + w;
      p < |Tables(headers, offsetOf, n, k)|
        && Tables(headers, offsetOf, n, k)[p] == offsetOf(headers[h].indexes[kind][w])
    decreases n, k
  {
    if k > 0 {
      if !(h == n && kind == k - 1) {
        TableWordAt(headers, offsetOf, n, k - 1, h, kind, w);
      }
    } else {
      TableWordAt(headers, offsetOf, n - 1, INDEX_COUNT_16, h, kind, w);
    }
  }

  // ---------- the reader's side ----------

  /** The first header whose offsets contain the entity, or `count`. */
  function FindHeader(file: seq<byte>, base: nat, count: nat, offset: nat, h: nat): (r: nat)
    requires h <= count
    ensures h <= r <= count
    decreases count - h
  {
    if h == count || (U32(file, base + 40 * h) <= offset < U32(file, base + 40 * h + 4)) then h
    else FindHeader(file, base, count, offset, h + 1)
  }

  /** What the entity at `offset` means by index `idx` of a kind. */
  function ResolveIndex(file: seq<byte>, base: nat, count: nat, offset: nat, kind: nat, idx: nat): nat {
    var h := FindHeader(file, base, count, offset, 0);
    var table := U32(file, base + 40 * h + 8 + 8 * kind + 4);
    U32(file, table + 4 * idx)
  }

  lemma {:induction false} HeaderWordRead(
    headers: seq<Header>, offsetOf: Dep -> nat, base: nat, first: seq<nat>, off: seq<nat>, file: seq<byte>, h: nat,
    w: nat)
    requires AllFour(headers) && h < |headers| && w < 10
    requires WrittenAt(file, base, SectionWords(headers, offsetOf, base, first, off))
    ensures U32(file, base + 40 * h + 4 * w)
         == HeaderWords(headers, offsetOf, base, OffsetAt(first, off, headers[h].start),
                        OffsetAt(first, off, headers[h].end), h)[w]
  {
    hide U32, Tables, OffsetAt, AllHeaders, HeaderWords, Lies;
    HeaderWordAt(headers, offsetOf, base, first, off, |headers|, h, w);
    WordRead(file, base, SectionWords(headers, offsetOf, base, first, off), 10 * h + w);
    assert base + 4 * (10 * h + w) == base + 40 * h + 4 * w;
  }

  lemma {:induction false} HeaderRead(
    headers: seq<Header>, offsetOf: Dep -> nat, base: nat, first: seq<nat>, off: seq<nat>, file: seq<byte>, h: nat,
    kind: nat)
    requires AllFour(headers) && h < |headers| && kind < INDEX_COUNT_16
    requires WrittenAt(file, base, SectionWords(headers, offsetOf, base, first, off))
    ensures U32(file, base + 40 * h) == OffsetAt(first, off, headers[h].start)
    ensures U32(file, base + 40 * h + 4) == OffsetAt(first, off, headers[h].end)
    ensures U32(file, base + 40 * h + 8 + 8 * kind + 4) ==
      base + 40 * |headers| + 4 * |Tables(headers, offsetOf, h, kind)|
  {
    hide U32, Tables, OffsetAt, AllHeaders, SectionWords, WrittenAt;
    HeaderWordRead(headers, offsetOf, base, first, off, file, h, 0);
    HeaderWordRead(headers, offsetOf, base, first, off, file, h, 1);
    HeaderWordRead(headers, offsetOf, base, first, off, file, h, 3 + 2 * kind);
    assert base + 40 * h + 4 * (3 + 2 * kind) == base + 40 * h + 8 + 8 * kind + 4;
  }

  lemma {:induction false} TableRead(
    headers: seq<Header>, offsetOf: Dep -> nat, base: nat, first: seq<nat>, off: seq<nat>, file: seq<byte>, h: nat,
    kind: nat, w: nat)
    requires AllFour(headers) && h < |headers| && kind < INDEX_COUNT_16 && w < |headers[h].indexes[kind]|
    requires WrittenAt(file, base, SectionWords(headers, offsetOf, base, first, off))
    ensures U32(file, base + 40 * |headers| + 4 * |Tables(headers, offsetOf, h, kind)| + 4 * w)
         == offsetOf(headers[h].indexes[kind][w])
  {
    hide U32, OffsetAt, AllHeaders, Tables;
    var ws, p := SectionWords(headers, offsetOf, base, first, off), |Tables(headers, offsetOf, h, kind)| + w;
    TableWordAt(headers, offsetOf, |headers|, 0, h, kind, w);
    WordRead(file, base, ws, 10 * |headers| + p);
    assert base + 4 * (10 * |headers| + p) == base + 40 * |headers| + 4 * |Tables(headers, offsetOf, h, kind)| + 4 * w;
  }

  /** Regions contain the same entities by offset as by number. */
  lemma {:induction false} RegionByOffset(
    members: seq<nat>, first: seq<nat>, off: seq<nat>, o: nat, i: nat, start: nat, end: nat)
    requires Numbering(members, first) && BelongsTo(first, o, i) && start <= |members| && end <= |members|
    requires Increasing(off) && |off| == first[|members|] + 1
    ensures o < |off|
    ensures OffsetAt(first, off, start) <= off[o] < OffsetAt(first, off, end) <==> start <= i < end
  {
    RegionByNumber(members, first, o, i, start, end);
    if start < |members| { NumberingGrows(members, first, start, |members|); }
    if end < |members| { NumberingGrows(members, first, end, |members|); }
    if i + 1 < |members| { NumberingGrows(members, first, i + 1, |members|); }
    var a, b := first[start], first[end];
    assert off[a] <= off[o] <==> a <= o;
    assert off[o] < off[b] <==> o < b;
  }

  lemma {:induction false} HeaderFound(
    items: seq<seq<Dep>>, headers: seq<Header>, members: seq<nat>, first: seq<nat>, off: seq<nat>,
    offsetOf: Dep -> nat, base: nat, file: seq<byte>, o: nat, i: nat, r: nat, h: nat)
    requires Greedy(items, headers) && AllFour(headers) && Numbering(members, first) && |members| == |items|
    requires Increasing(off) && |off| == first[|members|] + 1 && o < |off|
    requires WrittenAt(file, base, SectionWords(headers, offsetOf, base, first, off))
    requires BelongsTo(first, o, i) && InRegion(headers, i, r) && h <= r
    requires forall q :: 0 <= q < |headers| && InRegion(headers, i, q) ==> q == r
    ensures FindHeader(file, base, |headers|, off[o], h) == r
    decreases r - h
  {
    hide Greedy, U32, SectionWords, WrittenAt, OffsetAt, Numbering, BelongsTo;
    HeaderBounds(items, headers, h);
    HeaderRead(headers, offsetOf, base, first, off, file, h, 0);
    RegionByOffset(members, first, off, o, i, headers[h].start, headers[h].end);
    assert InRegion(headers, i, h) <==> h == r;
    if h < r {
      HeaderFound(items, headers, members, first, off, offsetOf, base, file, o, i, r, h + 1);
    }
  }

  /**
    For every item or member, numbered o, and every dependency d of it: the index that the writer
    stores is below 65535, and resolving it from the file, at the entity's offset, gives the offset
    of d.
   */
  lemma {:induction false} IndexResolves(
    items: seq<seq<Dep>>, headers: seq<Header>, members: seq<nat>, first: seq<nat>, off: seq<nat>,
    offsetOf: Dep -> nat, base: nat, file: seq<byte>, o: nat, i: nat, d: Dep)
    requires Greedy(items, headers) && AllFour(headers) && Numbering(members, first) && |members| == |items|
    requires Increasing(off) && |off| == first[|members|] + 1 && o < |off|
    requires WrittenAt(file, base, SectionWords(headers, offsetOf, base, first, off))
    requires BelongsTo(first, o, i) && d in items[i] && d.kind < INDEX_COUNT_16
    ensures HasIndex(first, headers, d, o)
    ensures var w := GetIndex(first, headers, d, o);
            w < MAX_INDEX_16 && ResolveIndex(file, base, |headers|, off[o], d.kind, w) == offsetOf(d)
  {
    hide Greedy, U32, SectionWords, WrittenAt, OffsetAt, Numbering, BelongsTo, HasIndex, GetIndex;
    var r := WriterFindsIndex(items, headers, members, first, o, i, d);
    HeaderFound(items, headers, members, first, off, offsetOf, base, file, o, i, r, 0);
    HeaderRead(headers, offsetOf, base, first, off, file, r, d.kind);
    TableRead(headers, offsetOf, base, first, off, file, r, d.kind, GetIndex(first, headers, d, o));
  }
}
