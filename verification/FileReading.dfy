/**
  What a written file promises its readers: sizes and tables are as the header says, every index that
  is stored leads to the offset of what it stands for, and values are read back as they were.
 */
module FileReading {
  import opened Bytes
  import opened Leb128
  import opened Isa
  import opened FileBytes
  import opened TaggedData
  import opened MethodAccessor
  import opened FieldAccessor
  import opened ClassAccessor
  import opened ClassReader
  import opened CodeFormat
  import opened DedupState
  import opened ValueItems
  import opened FileItems
  import opened FileLayout
  import opened IndexRegions
  import opened IndexSection
  import opened IndexResolution
  import opened Entities
  import opened FileWriter

  /** A file of less than 2^32 bytes as it was written: laid out, with the regions that its items ask for. */
  ghost predicate Complete(c: Contents, headers: seq<Header>, at: seq<nat>, file: seq<byte>) {
    && ValidContents(c) && |at| == CountOf(c)
    && Greedy(AllDeps(c.items), headers)
    && LaidOut(PlanOf(c, headers), at, |c.items|)
    && Written(c, headers, at, file)
    && |file| < 0x1_0000_0000
    && forall p: nat :: c.objects(p).Fixed? ==> c.objects(p).offset < 0x1_0000_0000
  }

  lemma {:induction false} LiesBound(file: seq<byte>, p: nat, s: seq<byte>)
    requires Lies(file, p, s)
    ensures p + |s| <= |file|
  {
  }

  /** The size in the header is the length of the file, and the header leads to the index section. */
  lemma {:induction false} SizeInHeader(c: Contents, headers: seq<Header>, at: seq<nat>, file: seq<byte>)
    requires ValidContents(c) && Written(c, headers, at, file) && |file| < 0x1_0000_0000
    ensures IndexResolution.U32(file, 16) == |file|
    ensures IndexResolution.U32(file, 40) == ProgramsStart(c, headers, at)
    ensures IndexResolution.U32(file, 56) == SectionStart(c)
  {
    hide AllValid, AllFour, Words, IndexWords, BytesOf, ProgramsStart, SectionCount, Lies, ForeignOffset,
      ForeignSize, ReadLe, PlanOf, ItemAt;
    var ws := HeaderFields(c, headers, at, |file|, ProgramsStart(c, headers, at));
    var front := c.magic + Le(0, 4) + c.version;
    LiesSplit(file, 0, front, Words(ws));
    LiesBound(file, SectionStart(c), Words(IndexWords(c, headers, at, |file|)));
    WordRead(file, 16, ws, 0);
    WordRead(file, 16, ws, 6);
    WordRead(file, 16, ws, 10);
  }

  // ---------- the index section fits 32 bits ----------

  ghost predicate AllBelow(ws: seq<nat>, n: nat) {
    forall w :: 0 <= w < |ws| ==> ws[w] < n
  }

  lemma {:induction false} BelowAppend(a: seq<nat>, b: seq<nat>, n: nat)
    requires AllBelow(a, n) && AllBelow(b, n)
    ensures AllBelow(a + b, n)
  {
  }

  lemma {:induction false} TablesBelow(headers: seq<Header>, offsetOf: Dep -> nat, n: nat, k: nat, bound: nat)
    requires n <= |headers| && (n < |headers| ==> k <= |headers[n].indexes|) && (n == |headers| ==> k == 0)
    requires forall d :: offsetOf(d) < bound
    ensures AllBelow(Tables(headers, offsetOf, n, k), bound)
    decreases n, k
  {
    if k > 0 {
      TablesBelow(headers, offsetOf, n, k - 1, bound);
      BelowAppend(Tables(headers, offsetOf, n, k - 1), TableWords(headers[n].indexes[k - 1], offsetOf), bound);
    } else if n > 0 {
      TablesBelow(headers, offsetOf, n - 1, |headers[n - 1].indexes|, bound);
    }
  }

  /** Tables that come earlier are counted in those that come later. */
  lemma {:induction false} CountGrows(headers: seq<Header>, m: nat, j: nat, n: nat, k: nat)
    requires AllFour(headers) && n <= |headers| && m < |headers| && j <= INDEX_COUNT_16
    requires if n == |headers| then k == 0 else k <= INDEX_COUNT_16
    requires m < n || (m == n && j <= k)
    ensures TableCount(headers, m, j) <= TableCount(headers, n, k)
    decreases n, k
  {
    if m == n && j == k {
    } else if k > 0 {
      CountGrows(headers, m, j, n, k - 1);
    } else {
      CountGrows(headers, m, j, n - 1, INDEX_COUNT_16);
    }
  }

  lemma {:induction false} HeaderBelow(
    items: seq<seq<Dep>>, headers: seq<Header>, offsetOf: Dep -> nat, base: nat, startOff: nat, endOff: nat, n: nat,
    bound: nat)
    requires Greedy(items, headers) && AllFour(headers) && n < |headers|
    requires startOff < bound && endOff < bound && base + 4 * SectionCount(headers) < bound && MAX_INDEX_16 < bound
    ensures AllBelow(HeaderWords(headers, offsetOf, base, startOff, endOff, n), bound)
  {
    hide Tables, TableCount, Greedy, AllFour;
    RegionSizes(items, headers, n);
    forall k | 0 <= k < INDEX_COUNT_16
      ensures base + 40 * |headers| + 4 * |Tables(headers, offsetOf, n, k)| < bound
    {
      TablesLength(headers, offsetOf, n, k);
      CountGrows(headers, n, k, |headers|, 0);
    }
  }

  lemma {:induction false} RegionSizes(items: seq<seq<Dep>>, headers: seq<Header>, n: nat)
    requires Greedy(items, headers) && n < |headers|
    ensures |headers[n].indexes| == INDEX_COUNT_16
    ensures forall k :: 0 <= k < INDEX_COUNT_16 ==> |headers[n].indexes[k]| <= MAX_INDEX_16
  {
    assert IndexSection.Holds(items, headers[n], headers[n].end);
  }

  lemma {:induction false} HeadersBelow(
    items: seq<seq<Dep>>, headers: seq<Header>, offsetOf: Dep -> nat, base: nat, first: seq<nat>, off: seq<nat>, n: nat,
    bound: nat)
    requires Greedy(items, headers) && AllFour(headers) && n <= |headers| && AllBelow(off, bound)
    requires base + 4 * SectionCount(headers) < bound && MAX_INDEX_16 < bound
    ensures AllBelow(AllHeaders(headers, offsetOf, base, first, off, n), bound)
  {
    hide HeaderWords, SectionCount, Greedy;
    if n > 0 {
      HeadersBelow(items, headers, offsetOf, base, first, off, n - 1, bound);
      var a, b := OffsetAt(first, off, headers[n - 1].start), OffsetAt(first, off, headers[n - 1].end);
      HeaderBelow(items, headers, offsetOf, base, a, b, n - 1, bound);
      BelowAppend(AllHeaders(headers, offsetOf, base, first, off, n - 1),
                  HeaderWords(headers, offsetOf, base, a, b, n - 1), bound);
    }
  }

  /** Offsets increase up to the end of the file, and lie behind the index section. */
  ghost predicate Bounded(c: Contents, headers: seq<Header>, at: seq<nat>, file: seq<byte>) {
    && Increasing(at + [|file|]) && AllBelow(at + [|file|], 0x1_0000_0000)
    && (forall a :: 0 <= a < |at| ==> at[a] > 0)
    && SectionStart(c) + 4 * SectionCount(headers) <= |file|
  }

  lemma {:induction false} OffsetsBelow(c: Contents, headers: seq<Header>, at: seq<nat>, file: seq<byte>)
    requires Complete(c, headers, at, file)
    ensures Bounded(c, headers, at, file)
  {
    hide AllValid, LaidOut, Words, IndexWords, BytesOf, Lies, SectionCount, FileLayout.Position, HeaderBytes, RoundUp,
      Greedy, First, AllDeps, IndexIn;
    AllIncrease(PlanOf(c, headers), at, |file|);
    PositionFromBase(PlanOf(c, headers), at, |c.items|);
  }

  lemma {:induction false} LinkSmall(c: Contents, headers: seq<Header>, at: seq<nat>, file: seq<byte>, link: nat)
    requires Complete(c, headers, at, file)
    ensures Where(at, link) < 0x1_0000_0000
  {
    hide Complete, Increasing;
    OffsetsBelow(c, headers, at, file);
    if 0 < link <= |at| {
      assert (at + [|file|])[link - 1] == at[link - 1];
    }
  }

  lemma {:induction false} DepsBelow(c: Contents, headers: seq<Header>, at: seq<nat>, file: seq<byte>)
    requires Complete(c, headers, at, file)
    ensures forall d :: DepOffset(c, at)(d) < 0x1_0000_0000
  {
    hide Complete, Where;
    forall d: Dep ensures DepOffset(c, at)(d) < 0x1_0000_0000 {
      TypesBelow(c, headers, at, file, d.ptr);
      if c.objects(d.ptr).Placed? {
        LinkSmall(c, headers, at, file, c.objects(d.ptr).number + 1);
      }
    }
  }

  lemma {:induction false} TypesBelow(c: Contents, headers: seq<Header>, at: seq<nat>, file: seq<byte>, p: nat)
    requires Complete(c, headers, at, file)
    ensures c.objects(p).Fixed? ==> c.objects(p).offset < 0x1_0000_0000
  {
    hide ValidContents, Greedy, LaidOut, Written;
  }

  /** Every word of the index section fits. */
  lemma {:induction false} IndexFits(c: Contents, headers: seq<Header>, at: seq<nat>, file: seq<byte>)
    requires Complete(c, headers, at, file)
    ensures AllFour(headers) && AllBelow(IndexWords(c, headers, at, |file|), 0x1_0000_0000)
  {
    hide Complete, Greedy, AllFour, SectionCount, Tables, AllHeaders, DepOffset, Increasing, AllDeps, Numbers, AllBelow;
    OffsetsBelow(c, headers, at, file);
    DepsBelow(c, headers, at, file);
    IsDivided(c, headers, at, file);
    var bound, off := 0x1_0000_0000, at + [|file|];
    HeadersBelow(AllDeps(c.items), headers, DepOffset(c, at), SectionStart(c), Numbers(c.items), off, |headers|, bound);
    TablesBelow(headers, DepOffset(c, at), |headers|, 0, bound);
    BelowAppend(AllHeaders(headers, DepOffset(c, at), SectionStart(c), Numbers(c.items), off, |headers|),
                Tables(headers, DepOffset(c, at), |headers|, 0), bound);
  }

  lemma {:induction false} IsDivided(c: Contents, headers: seq<Header>, at: seq<nat>, file: seq<byte>)
    requires Complete(c, headers, at, file)
    ensures Greedy(AllDeps(c.items), headers) && AllFour(headers)
    ensures |file| < 0x1_0000_0000
  {
    hide Greedy;
  }

  // ---------- stored indexes ----------

  lemma {:induction false} IsValid(c: Contents, headers: seq<Header>, at: seq<nat>, file: seq<byte>)
    requires Complete(c, headers, at, file)
    ensures ValidContents(c)
  {
  }

  /** What a reader makes of an index that the entity at offset p stores. */
  function Resolved(c: Contents, headers: seq<Header>, file: seq<byte>, p: nat, kind: nat, idx: nat): nat {
    ResolveIndex(file, SectionStart(c), |headers|, p, kind, idx)
  }

  /** Entity k of item i has a number, an offset and an index for its j-th dependency d, which leads to d. */
  ghost predicate Leads(
    c: Contents, headers: seq<Header>, at: seq<nat>, file: seq<byte>, i: nat, k: nat, j: nat, d: Dep)
    requires i < |c.items|
  {
    var o := First(c.items, i) + k;
    && o < |at|
    && IndexIn(c, headers, o, j) < MAX_INDEX_16
    && Resolved(c, headers, file, at[o], d.kind, IndexIn(c, headers, o, j)) == DepOffset(c, at)(d)
  }

  lemma {:induction false} EntityNumber(c: Contents, i: nat, k: nat, j: nat)
    requires ValidContents(c) && i < |c.items| && k < |EntityDeps(c.items[i])| && j < |EntityDeps(c.items[i])[k]|
    ensures
      var o, d := First(c.items, i) + k, EntityDeps(c.items[i])[k][j];
      && o < First(c.items, i + 1) <= CountOf(c)
      && BelongsTo(Numbers(c.items), o, i)
      && d in AllDeps(c.items)[i] && d.kind < INDEX_COUNT_16
      && var deps := DepsByNumber(c.items, |c.items|); o < |deps| && j < |deps[o]| && deps[o][j] == d
  {
    hide First, Flat, MembersOf, DepsByNumber, EntityDeps, ValidItem;
    DepsPerEntity(c.items[i]);
    DepsOfEntity(c.items, |c.items|, i, k);
    FirstGrows(c.items, i, |c.items|);
    FlatHas(EntityDeps(c.items[i]), k, EntityDeps(c.items[i])[k][j]);
    assert ValidDeps(EntityDeps(c.items[i])[k]);
  }

  /**
    From the layout to resolved references: the index that any item or member of a complete file
    stores for any of its dependencies leads, from its own offset, to the dependency.
   */
  lemma {:induction false} FileResolves(
    c: Contents, headers: seq<Header>, at: seq<nat>, file: seq<byte>, i: nat, k: nat, j: nat)
    requires Complete(c, headers, at, file)
    requires i < |c.items| && k < |EntityDeps(c.items[i])| && j < |EntityDeps(c.items[i])[k]|
    ensures Leads(c, headers, at, file, i, k, j, EntityDeps(c.items[i])[k][j])
  {
    hide Complete, AllValid, WrittenAt, First, ResolveIndex, GetIndex, HasIndex, Greedy, Numbering, AllFour, BelongsTo,
      SectionWords, EntityDeps, AllDeps, DepsByNumber, Numbers, DepOffset, Increasing, Entities.Members, SectionStart;
    SectionIsWritten(c, headers, at, file);
    EntityNumber(c, i, k, j);
    var o, d := First(c.items, i) + k, EntityDeps(c.items[i])[k][j];
    IndexResolves(AllDeps(c.items), headers, Entities.Members(c.items), Numbers(c.items), at + [|file|],
                  DepOffset(c, at), SectionStart(c), file, o, i, d);
  }

  /** All that finding an index and resolving it relies on. */
  ghost predicate Indexed(c: Contents, headers: seq<Header>, at: seq<nat>, file: seq<byte>) {
    && ValidContents(c) && |at| == CountOf(c) && Greedy(AllDeps(c.items), headers) && AllFour(headers)
    && Numbering(Entities.Members(c.items), Numbers(c.items))
    && |Entities.Members(c.items)| == |AllDeps(c.items)| == |c.items|
    && |Numbers(c.items)| == |c.items| + 1 && Numbers(c.items)[|c.items|] == CountOf(c)
    && Increasing(at + [|file|])
    && WrittenAt(file, SectionStart(c),
                 SectionWords(headers, DepOffset(c, at), SectionStart(c), Numbers(c.items), at + [|file|]))
  }

  lemma {:induction false} SectionIsWritten(c: Contents, headers: seq<Header>, at: seq<nat>, file: seq<byte>)
    requires Complete(c, headers, at, file)
    ensures Indexed(c, headers, at, file)
  {
    hide Complete, ValidContents, First, Lies, Greedy, AllFour, Numbering, SectionWords, DepOffset, Increasing, Words,
      SectionStart;
    IsValid(c, headers, at, file);
    IsDivided(c, headers, at, file);
    OffsetsBelow(c, headers, at, file);
    IndexFits(c, headers, at, file);
    IndexLies(c, headers, at, file);
    NumbersAreNumbering(c.items);
    LastNumber(c);
  }

  lemma {:induction false} IndexLies(c: Contents, headers: seq<Header>, at: seq<nat>, file: seq<byte>)
    requires Complete(c, headers, at, file)
    ensures |at| == CountOf(c) && AllFour(headers)
    ensures Lies(file, SectionStart(c), Words(IndexWords(c, headers, at, |file|)))
  {
    hide ValidContents, Greedy, LaidOut, Lies, AllFour, First, IndexWords;
  }

  lemma {:induction false} LastNumber(c: Contents)
    ensures |Entities.Members(c.items)| == |AllDeps(c.items)| == |c.items|
    ensures |Numbers(c.items)| == |c.items| + 1 && Numbers(c.items)[|c.items|] == CountOf(c)
  {
  }

  // ---------- items and members lie at their offsets ----------

  lemma {:induction false} ItemLies(c: Contents, headers: seq<Header>, at: seq<nat>, file: seq<byte>, i: nat)
    requires Complete(c, headers, at, file) && i < |c.items|
    ensures First(c.items, i) < |at|
    ensures Lies(file, at[First(c.items, i)], BytesOf(PlanOf(c, headers), at, i))
    ensures PlacedAt(c.items, at, i, at[First(c.items, i)])
  {
    hide AllValid, Words, IndexWords, BytesOf, Lies, SectionCount, FileLayout.Position, HeaderBytes, RoundUp, Greedy,
      First, AllDeps, PlacedAt, IndexIn, Alignment;
    var pl := PlanOf(c, headers);
    var p := RoundUp(FileLayout.Position(pl, at, i), Alignment(c.items[i]));
    assert PlacedAt(c.items, at, i, p);
    PlacedItem(c.items, at, i, p, 0);
  }

  /** What member k of a class writes: fields come first, then methods. */
  function MemberBytes(c: ClassItem, k: nat): seq<byte>
    requires k < |c.fields| + |c.methods|
  {
    if k < |c.fields| then FieldBytes(c.fields[k], false) else MethodBytes(c.methods[k - |c.fields|], false)
  }

  lemma {:induction false} MemberInClass(file: seq<byte>, p: nat, c: ClassItem, k: nat)
    requires Lies(file, p, ClassBytes(c)) && k < |c.fields| + |c.methods|
    ensures Lies(file, p + MemberOffset(c, k), MemberBytes(c, k))
  {
    hide Lies, ClassBytes, FieldBytes, MethodBytes, FieldsBytes, MethodsBytes, FieldsSize, MethodsSize,
      CalculateSizeWithoutFieldsAndMethods;
    PartsLie(file, p, c);
    if k < |c.fields| {
      FieldLies(file, FieldsStart(p, c), c.fields, MethodsBytes(c.methods), k);
    } else {
      MethodLies(file, MethodsStart(p, c), c.methods, k - |c.fields|);
    }
  }

  lemma {:induction false} MemberOffsetSame(c: ClassItem, linked: set<nat>, o: nat, e: Env, k: nat)
    requires k < |c.fields| + |c.methods|
    ensures MemberOffset(ResolveClass(c, linked, o, e), k) == MemberOffset(c, k)
  {
    hide FieldsSize, MethodsSize, CalculateSizeWithoutFieldsAndMethods, ResolveField, ResolveMethod;
    ClassSizeSame(c, linked, o, e);
    FieldsSizeSame(c.fields, linked, o + 1, e, if k < |c.fields| then k else |c.fields|);
    if k >= |c.fields| {
      MethodsSizeSame(c.methods, o + 1 + |c.fields|, e, k - |c.fields|);
    }
  }

  /** What class item i is with all offsets and indexes filled in. */
  function ClassIn(c: Contents, headers: seq<Header>, at: seq<nat>, i: nat): ClassItem
    requires i < |c.items| && c.items[i].ClassI?
  {
    ResolveClass(c.items[i].c, c.items[i].linked, First(c.items, i), EnvOf(PlanOf(c, headers), at))
  }

  lemma {:induction false} MemberLies(c: Contents, headers: seq<Header>, at: seq<nat>, file: seq<byte>, i: nat, k: nat)
    requires Complete(c, headers, at, file) && i < |c.items| && c.items[i].ClassI? && k < MembersOf(c.items[i])
    ensures |ClassIn(c, headers, at, i).fields| + |ClassIn(c, headers, at, i).methods| == MembersOf(c.items[i])
    ensures
      var o := First(c.items, i) + 1 + k;
      o < |at| && Lies(file, at[o], MemberBytes(ClassIn(c, headers, at, i), k))
  {
    hide Complete, First, PlacedAt, Lies, ClassBytes, MemberBytes, MemberOffset, PlanOf;
    ItemLies(c, headers, at, file, i);
    var o, e := First(c.items, i), EnvOf(PlanOf(c, headers), at);
    ItemsOf(c, headers);
    PlacedItem(c.items, at, i, at[o], k + 1);
    MemberOffsetSame(c.items[i].c, c.items[i].linked, o, e, k);
    MemberInClass(file, at[o], ClassIn(c, headers, at, i), k);
  }

  // ---------- what accessors read ----------

  lemma {:induction false} MethodIndexesRead(file: seq<byte>, p: nat, m: MethodItem, foreign: bool)
    requires Lies(file, p, MethodBytes(m, foreign)) && m.cls < Base(2) && m.proto < Base(2)
    ensures ReadLe(file, p, 2) == m.cls && ReadLe(file, p + 2, 2) == m.proto
  {
    hide Uleb, Le, Tail, ReadLe, Lies, Base, MethodSections;
    if !foreign {
      LiesSplit(file, p, MethodHead(m), Tail(MethodSections(m), 0));
    }
    LiesSplit(file, p, Le(m.cls, 2), Le(m.proto, 2) + (Le(m.name, 4) + Uleb(m.flags)));
    LiesSplit(file, p + 2, Le(m.proto, 2), Le(m.name, 4) + Uleb(m.flags));
    ReadLeBack(file, p, m.cls, 2);
    ReadLeBack(file, p + 2, m.proto, 2);
  }

  lemma {:induction false} FieldIndexesRead(file: seq<byte>, p: nat, f: FieldItem, foreign: bool)
    requires Lies(file, p, FieldBytes(f, foreign)) && f.cls < Base(2) && f.typ < Base(2)
    ensures ReadLe(file, p, 2) == f.cls && ReadLe(file, p + 2, 2) == f.typ
  {
    hide Uleb, Le, Tail, ReadLe, Lies, Base, FieldSections, ValueBytes;
    if !foreign {
      LiesSplit(file, p, FieldHead(f, false), ValueBytes(f.value) + Tail(FieldSections(f), 0));
    }
    var rest := Le(f.name, 4) + if foreign then [] else Uleb(f.flags);
    LiesSplit(file, p, Le(f.cls, 2), Le(f.typ, 2) + rest);
    LiesSplit(file, p + 2, Le(f.typ, 2), rest);
    ReadLeBack(file, p, f.cls, 2);
    ReadLeBack(file, p + 2, f.typ, 2);
  }

  lemma {:induction false} IndexIsSmall(idx: nat)
    requires idx < MAX_INDEX_16
    ensures idx < Base(2)
  {
    assert Base(2) == 65536;
  }

  /** The two indexes at the start of a member. */
  function MemberIndexes(c: ClassItem, k: nat): (nat, nat)
    requires k < |c.fields| + |c.methods|
  {
    if k < |c.fields| then (c.fields[k].cls, c.fields[k].typ)
    else (c.methods[k - |c.fields|].cls, c.methods[k - |c.fields|].proto)
  }

  lemma {:induction false} MemberIndexesRead(file: seq<byte>, p: nat, c: ClassItem, k: nat)
    requires k < |c.fields| + |c.methods| && Lies(file, p, MemberBytes(c, k))
    requires MemberIndexes(c, k).0 < Base(2) && MemberIndexes(c, k).1 < Base(2)
    ensures (ReadLe(file, p, 2), ReadLe(file, p + 2, 2)) == MemberIndexes(c, k)
  {
    hide Lies, FieldBytes, MethodBytes, ReadLe, Base;
    if k < |c.fields| {
      FieldIndexesRead(file, p, c.fields[k], false);
    } else {
      MethodIndexesRead(file, p, c.methods[k - |c.fields|], false);
    }
  }

  lemma {:induction false} MemberIndexesIn(c: Contents, headers: seq<Header>, at: seq<nat>, i: nat, k: nat)
    requires i < |c.items| && c.items[i].ClassI? && k < MembersOf(c.items[i])
    ensures var o := First(c.items, i) + 1 + k;
      MemberIndexes(ClassIn(c, headers, at, i), k) == (IndexIn(c, headers, o, 0), IndexIn(c, headers, o, 1))
  {
    hide IndexIn, First, PlanOf, MemberIndexes, ResolveClass;
    ItemsOf(c, headers);
    ResolvedIndexes(c.items[i].c, c.items[i].linked, First(c.items, i), EnvOf(PlanOf(c, headers), at), k);
  }

  lemma {:induction false} ResolvedIndexes(c: ClassItem, linked: set<nat>, o: nat, e: Env, k: nat)
    requires k < |c.fields| + |c.methods|
    ensures MemberIndexes(ResolveClass(c, linked, o, e), k) == (e.index(o + 1 + k, 0), e.index(o + 1 + k, 1))
  {
    hide ResolveField, ResolveMethod, WhereAll, WhereOption, Where, Indexes;
    if k < |c.fields| {
      FieldIndexesIn(c.fields[k], k in linked, o + 1 + k, e);
    } else {
      var n := k - |c.fields|;
      assert o + 1 + |c.fields| + n == o + 1 + k;
      MethodIndexesIn(c.methods[n], o + 1 + k, e);
    }
  }

  lemma {:induction false} FieldIndexesIn(f: FieldItem, linked: bool, o: nat, e: Env)
    ensures ResolveField(f, linked, o, e).cls == e.index(o, 0) && ResolveField(f, linked, o, e).typ == e.index(o, 1)
  {
  }

  lemma {:induction false} MethodIndexesIn(m: MethodItem, o: nat, e: Env)
    ensures ResolveMethod(m, o, e).cls == e.index(o, 0) && ResolveMethod(m, o, e).proto == e.index(o, 1)
  {
  }

  /** The dependencies of member k of class item i. */
  function OwnDeps(c: Contents, i: nat, k: nat): seq<Dep>
    requires i < |c.items| && k < |EntityDeps(c.items[i])|
  {
    EntityDeps(c.items[i])[k]
  }

  lemma {:induction false} MemberKinds(c: Contents, i: nat, k: nat)
    requires ValidContents(c) && i < |c.items| && c.items[i].ClassI? && k < MembersOf(c.items[i])
    ensures |EntityDeps(c.items[i])| == 1 + MembersOf(c.items[i])
    ensures |OwnDeps(c, i, k + 1)| >= 2 && OwnDeps(c, i, k + 1)[0].kind == CLASS
    ensures OwnDeps(c, i, k + 1)[1].kind == if k < |c.items[i].c.fields| then CLASS else PROTO
  {
    assert ClassDeps(c.items[i].c, c.items[i].deps);
  }

  /**
    The two indexes at the start of every method and every field, looked up as classes and, for the
    second one of a method, as a prototype, lead to what the member was given.
   */
  lemma {:induction false} MemberResolves(
    c: Contents, headers: seq<Header>, at: seq<nat>, file: seq<byte>, i: nat, k: nat)
    requires Complete(c, headers, at, file) && i < |c.items| && c.items[i].ClassI? && k < MembersOf(c.items[i])
    ensures k + 1 < |EntityDeps(c.items[i])| && |OwnDeps(c, i, k + 1)| >= 2 && First(c.items, i) + 1 + k < |at|
    ensures
      var p, own := at[First(c.items, i) + 1 + k], OwnDeps(c, i, k + 1);
      && Resolved(c, headers, file, p, CLASS, ReadLe(file, p, 2)) == DepOffset(c, at)(own[0])
      && Resolved(c, headers, file, p, if k < |c.items[i].c.fields| then CLASS else PROTO, ReadLe(file, p + 2, 2))
         == DepOffset(c, at)(own[1])
  {
    hide Complete, ValidContents, First, Lies, MemberBytes, MemberIndexes, IndexIn, Resolved, DepOffset, ReadLe,
      EntityDeps, Base, ClassIn;
    IsValid(c, headers, at, file);
    MemberKinds(c, i, k);
    MemberLies(c, headers, at, file, i, k);
    FileResolves(c, headers, at, file, i, k + 1, 0);
    FileResolves(c, headers, at, file, i, k + 1, 1);
    var o := First(c.items, i) + 1 + k;
    IndexIsSmall(IndexIn(c, headers, o, 0));
    IndexIsSmall(IndexIn(c, headers, o, 1));
    MemberIndexesIn(c, headers, at, i, k);
    ClassShape(c, headers, at, i);
    MemberIndexesRead(file, at[o], ClassIn(c, headers, at, i), k);
  }

  lemma {:induction false} ClassShape(c: Contents, headers: seq<Header>, at: seq<nat>, i: nat)
    requires i < |c.items| && c.items[i].ClassI?
    ensures |ClassIn(c, headers, at, i).fields| == |c.items[i].c.fields|
    ensures |ClassIn(c, headers, at, i).methods| == |c.items[i].c.methods|
  {
  }

  lemma {:induction false} ForeignKinds(c: Contents, i: nat)
    requires ValidContents(c) && i < |c.items| && (c.items[i].ForeignMethodI? || c.items[i].ForeignFieldI?)
    ensures |EntityDeps(c.items[i])| == 1 && |OwnDeps(c, i, 0)| >= 2 && OwnDeps(c, i, 0)[0].kind == CLASS
    ensures OwnDeps(c, i, 0)[1].kind == if c.items[i].ForeignFieldI? then CLASS else PROTO
  {
    assert ValidItem(c.items[i]);
  }

  /** So do those of foreign methods and fields. */
  lemma {:induction false} ForeignResolves(c: Contents, headers: seq<Header>, at: seq<nat>, file: seq<byte>, i: nat)
    requires Complete(c, headers, at, file) && i < |c.items|
      && (c.items[i].ForeignMethodI? || c.items[i].ForeignFieldI?)
    ensures |EntityDeps(c.items[i])| == 1 && |OwnDeps(c, i, 0)| >= 2 && First(c.items, i) < |at|
    ensures
      var p, own := at[First(c.items, i)], OwnDeps(c, i, 0);
      && Resolved(c, headers, file, p, CLASS, ReadLe(file, p, 2)) == DepOffset(c, at)(own[0])
      && Resolved(c, headers, file, p, if c.items[i].ForeignFieldI? then CLASS else PROTO, ReadLe(file, p + 2, 2))
         == DepOffset(c, at)(own[1])
  {
    hide Complete, ValidContents, First, Lies, FieldBytes, MethodBytes, IndexIn, Resolved, DepOffset, ReadLe,
      EntityDeps, Base, PlanOf;
    IsValid(c, headers, at, file);
    ForeignKinds(c, i);
    ItemLies(c, headers, at, file, i);
    FileResolves(c, headers, at, file, i, 0, 0);
    FileResolves(c, headers, at, file, i, 0, 1);
    ItemsOf(c, headers);
    var o, e := First(c.items, i), EnvOf(PlanOf(c, headers), at);
    IndexIsSmall(IndexIn(c, headers, o, 0));
    IndexIsSmall(IndexIn(c, headers, o, 1));
    if c.items[i].ForeignMethodI? {
      MethodIndexesRead(file, at[o], ResolveMethod(c.items[i].m, o, e), true);
    } else {
      FieldIndexesRead(file, at[o], ResolveField(c.items[i].f, false, o, e), true);
    }
  }

  lemma {:induction false} SingleKind(c: Contents, i: nat, j: nat)
    requires ValidContents(c) && i < |c.items| && |EntityDeps(c.items[i])| > 0 && j < |OwnDeps(c, i, 0)|
    requires c.items[i].ClassI? || c.items[i].AnnotationI? || c.items[i].ProtoI?
    ensures OwnDeps(c, i, 0)[j].kind == CLASS
  {
    assert ValidItem(c.items[i]);
  }

  lemma {:induction false} AnnotationIn(c: Contents, headers: seq<Header>, at: seq<nat>, i: nat)
    requires i < |c.items| && c.items[i].AnnotationI?
    ensures |EntityDeps(c.items[i])| == 1 && OwnDeps(c, i, 0) == [c.items[i].cls]
    ensures BytesOf(PlanOf(c, headers), at, i)
         == AnnotationBytes(at, IndexIn(c, headers, First(c.items, i), 0), c.items[i].elements, c.items[i].tags)
  {
    hide IndexIn, First, AnnotationBytes;
    ItemsOf(c, headers);
  }

  /** The index at the start of an annotation leads to its class. */
  lemma {:induction false} AnnotationResolves(c: Contents, headers: seq<Header>, at: seq<nat>, file: seq<byte>, i: nat)
    requires Complete(c, headers, at, file) && i < |c.items| && c.items[i].AnnotationI?
    ensures First(c.items, i) < |at|
    ensures var p := at[First(c.items, i)];
            Resolved(c, headers, file, p, CLASS, ReadLe(file, p, 2)) == DepOffset(c, at)(c.items[i].cls)
  {
    hide Complete, ValidContents, First, Lies, IndexIn, Resolved, DepOffset, ReadLe, Le, Base, PlanOf,
      AnnotationBytes, EntityDeps, BytesOf, AnnotationElementBytes;
    IsValid(c, headers, at, file);
    AnnotationIn(c, headers, at, i);
    SingleKind(c, i, 0);
    ItemLies(c, headers, at, file, i);
    FileResolves(c, headers, at, file, i, 0, 0);
    var it, p, idx := c.items[i], at[First(c.items, i)], IndexIn(c, headers, First(c.items, i), 0);
    IndexIsSmall(idx);
    AnnotationExact(file, p, at, idx, it.elements, it.tags, |it.elements|);
    ReadLeBack(file, p, idx, 2);
  }

  lemma {:induction false} LaterIndexRead(file: seq<byte>, p: nat, a: seq<nat>, b: seq<nat>, j: nat)
    requires Lies(file, p, IndexBytes(a + b)) && j < |b| && b[j] < Base(2)
    ensures ReadLe(file, p + 2 * |a| + 2 * j, 2) == b[j]
    decreases |a| + j
  {
    hide Le, ReadLe, Lies, Base;
    var s := a + b;
    LiesSplit(file, p, Le(s[0], 2), IndexBytes(s[1..]));
    if a != [] {
      assert s[1..] == a[1..] + b;
      LaterIndexRead(file, p + 2, a[1..], b, j);
    } else if j > 0 {
      assert s[1..] == a + b[1..];
      LaterIndexRead(file, p + 2, a, b[1..], j - 1);
    } else {
      ReadLeBack(file, p, b[0], 2);
    }
  }

  lemma {:induction false} ProtoIn(c: Contents, headers: seq<Header>, at: seq<nat>, i: nat) returns (refs: seq<nat>)
    requires i < |c.items| && c.items[i].ProtoI?
    ensures |EntityDeps(c.items[i])| == 1 && OwnDeps(c, i, 0) == c.items[i].refs
    ensures BytesOf(PlanOf(c, headers), at, i) == IndexBytes(c.items[i].shorty + refs)
    ensures |refs| == |c.items[i].refs|
    ensures forall j: nat :: j < |refs| ==> refs[j] == IndexIn(c, headers, First(c.items, i), j)
  {
    hide IndexIn, First, IndexBytes;
    ItemsOf(c, headers);
    refs := Indexes(EnvOf(PlanOf(c, headers), at), First(c.items, i), |c.items[i].refs|);
  }

  /** The indexes after the packed types of a prototype lead to its reference types, in order. */
  lemma {:induction false} ProtoResolves(
    c: Contents, headers: seq<Header>, at: seq<nat>, file: seq<byte>, i: nat, j: nat)
    requires Complete(c, headers, at, file) && i < |c.items| && c.items[i].ProtoI? && j < |c.items[i].refs|
    ensures First(c.items, i) < |at|
    ensures
      var p := at[First(c.items, i)];
      Resolved(c, headers, file, p, CLASS, ReadLe(file, p + 2 * |c.items[i].shorty| + 2 * j, 2))
      == DepOffset(c, at)(c.items[i].refs[j])
  {
    hide Complete, ValidContents, First, Lies, IndexIn, Resolved, DepOffset, ReadLe, Base, PlanOf, IndexBytes,
      EntityDeps, BytesOf;
    IsValid(c, headers, at, file);
    var refs := ProtoIn(c, headers, at, i);
    SingleKind(c, i, j);
    ItemLies(c, headers, at, file, i);
    FileResolves(c, headers, at, file, i, 0, j);
    IndexIsSmall(IndexIn(c, headers, First(c.items, i), j));
    LaterIndexRead(file, at[First(c.items, i)], c.items[i].shorty, refs, j);
  }

  /** What the dependencies of class item i lie at. */
  ghost function Interfaces(c: Contents, at: seq<nat>, i: nat): seq<nat>
    requires i < |c.items| && |EntityDeps(c.items[i])| > 0
  {
    seq<nat>(|OwnDeps(c, i, 0)|, j requires 0 <= j < |OwnDeps(c, i, 0)| => DepOffset(c, at)(OwnDeps(c, i, 0)[j]))
  }

  /** Each index in vs, stored by the entity at p, leads to its offset. */
  ghost predicate AllLead(
    c: Contents, headers: seq<Header>, file: seq<byte>, p: nat, vs: seq<nat>, offsets: seq<nat>)
  {
    |vs| == |offsets| && forall j :: 0 <= j < |vs| ==> Resolved(c, headers, file, p, CLASS, vs[j]) == offsets[j]
  }

  lemma {:induction false} InterfacesLead(c: Contents, headers: seq<Header>, at: seq<nat>, file: seq<byte>, i: nat)
    requires Complete(c, headers, at, file) && i < |c.items| && c.items[i].ClassI? && |EntityDeps(c.items[i])| > 0
    ensures First(c.items, i) < |at|
    ensures AllLead(c, headers, file, at[First(c.items, i)], ClassIn(c, headers, at, i).ifaces, Interfaces(c, at, i))
  {
    hide Complete, ValidContents, First, IndexIn, DepOffset, ClassIn, EntityDeps, OwnDeps, Resolved, BytesOf,
      ClassBytes, PlanOf, PlacedAt, Lies;
    IsValid(c, headers, at, file);
    ItemLies(c, headers, at, file, i);
    InterfacesIn(c, headers, at, i);
    forall j | 0 <= j < |OwnDeps(c, i, 0)|
      ensures Resolved(c, headers, file, at[First(c.items, i)], CLASS, ClassIn(c, headers, at, i).ifaces[j])
           == DepOffset(c, at)(OwnDeps(c, i, 0)[j])
    {
      InterfaceLeads(c, headers, at, file, i, j);
    }
  }

  lemma {:induction false} InterfaceLeads(
    c: Contents, headers: seq<Header>, at: seq<nat>, file: seq<byte>, i: nat, j: nat)
    requires Complete(c, headers, at, file) && i < |c.items| && c.items[i].ClassI?
    requires |EntityDeps(c.items[i])| > 0 && j < |OwnDeps(c, i, 0)|
    ensures First(c.items, i) < |at|
    ensures
      var o := First(c.items, i);
      Resolved(c, headers, file, at[o], CLASS, IndexIn(c, headers, o, j)) == DepOffset(c, at)(OwnDeps(c, i, 0)[j])
  {
    hide Complete, ValidContents, First, IndexIn, DepOffset, EntityDeps, Resolved;
    IsValid(c, headers, at, file);
    FileResolves(c, headers, at, file, i, 0, j);
    SingleKind(c, i, j);
  }

  method ResolveAll(file: seq<byte>, sectionStart: nat, count: nat, id: nat, vs: seq<nat>) returns (ids: seq<nat>)
    ensures |ids| == |vs|
    ensures forall j :: 0 <= j < |vs| ==> ids[j] == ResolveIndex(file, sectionStart, count, id, CLASS, vs[j])
  {
    hide ResolveIndex;
    ids := [];
    for j := 0 to |vs|
      invariant |ids| == j
      invariant forall q :: 0 <= q < j ==> ids[q] == ResolveIndex(file, sectionStart, count, id, CLASS, vs[q])
    {
      ids := ids + [ResolveIndex(file, sectionStart, count, id, CLASS, vs[j])];
    }
  }

  /** Enumerating the interfaces of a class gives them in order. */
  method EnumerateInterfaceIds(
    file: seq<byte>, id: nat, sectionStart: nat, count: nat, ghost c: Contents, ghost headers: seq<Header>,
    ghost at: seq<nat>, ghost i: nat) returns (ids: seq<nat>)
    requires Complete(c, headers, at, file) && sectionStart == SectionStart(c) && count == |headers|
    requires i < |c.items| && c.items[i].ClassI? && First(c.items, i) < |at| && id == at[First(c.items, i)]
    requires ValidClass(ClassIn(c, headers, at, i)) && |EntityDeps(c.items[i])| > 0
    ensures ids == Interfaces(c, at, i)
  {
    hide Complete, ValidContents, First, Lies, ValidClass, ClassIn, EntityDeps, ResolveIndex, ClassBytes, Interfaces,
      BytesOf;
    IsValid(c, headers, at, file);
    ItemLies(c, headers, at, file, i);
    InterfacesIn(c, headers, at, i);
    InterfacesLead(c, headers, at, file, i);
    var accessor := new ClassDataAccessor(file, id, (x: nat) => false, ClassIn(c, headers, at, i));
    var vs := accessor.EnumerateInterfaces();
    ids := ResolveAll(file, sectionStart, count, id, vs);
  }

  lemma {:induction false} InterfacesIn(c: Contents, headers: seq<Header>, at: seq<nat>, i: nat)
    requires ValidContents(c) && i < |c.items| && c.items[i].ClassI? && |EntityDeps(c.items[i])| > 0
    ensures
      var vs := ClassIn(c, headers, at, i).ifaces;
      && |vs| == |OwnDeps(c, i, 0)|
      && forall j: nat :: j < |vs| ==> vs[j] == IndexIn(c, headers, First(c.items, i), j)
    ensures BytesOf(PlanOf(c, headers), at, i) == ClassBytes(ClassIn(c, headers, at, i))
  {
    hide IndexIn, First, ClassBytes, ResolveFields, ResolveMethods;
    ItemsOf(c, headers);
    assert ValidItem(c.items[i]);
  }

  // ---------- links ----------

  predicate FitsScalar(v: ScalarValue) {
    && (v.LongValue? ==> v.v < Base(8))
    && (v.DoubleValue? ==> v.bits < Base(8))
  }

  ghost predicate ReadsAs(v: ScalarValue, at: seq<nat>, file: seq<byte>, p: nat) {
    && (v.LongValue? ==> ReadLe(file, p, 8) == v.v)
    && (v.DoubleValue? ==> ReadLe(file, p, 8) == v.bits)
    && (v.IdValue? ==> ReadLe(file, p, 4) == Where(at, v.link))
  }

  /** A scalar that is an item of its own is read back from its offset. */
  lemma {:induction false} ScalarReads(c: Contents, headers: seq<Header>, at: seq<nat>, file: seq<byte>, i: nat)
    requires Complete(c, headers, at, file) && i < |c.items| && c.items[i].ScalarI?
    requires FitsScalar(c.items[i].value)
    ensures First(c.items, i) < |at|
    ensures ReadsAs(c.items[i].value, at, file, at[First(c.items, i)])
  {
    hide Complete, ValidContents, First, Lies, ReadLe, Le;
    ItemLies(c, headers, at, file, i);
    assert Base(4) == 0x1_0000_0000;
    var p := at[First(c.items, i)];
    match c.items[i].value
    case LongValue(v) => ReadLeBack(file, p, v, 8);
    case DoubleValue(b) => ReadLeBack(file, p, b, 8);
    case IdValue(x) =>
      LinkSmall(c, headers, at, file, x);
      ReadLeBack(file, p, Where(at, x), 4);
    case _ =>
  }
}
