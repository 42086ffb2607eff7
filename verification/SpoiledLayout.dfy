/**
  A container whose file goes wrong. A class has two methods with the same code; the debug info of the
  first one names a string that was created after it. Writing the container lays it out, drops the
  second code item, lays it out again and writes; the string is then not where the file says.
 */
module SpoiledLayout {
  import opened Bytes
  import opened Leb128
  import opened FileBytes
  import opened Isa
  import opened TaggedData
  import opened MethodAccessor
  import opened ClassAccessor
  import opened CodeFormat
  import opened ProgramIndex
  import opened DedupState
  import opened DedupProgress
  import opened Deduplication
  import opened IndexRegions
  import opened IndexSection
  import opened ValueItems
  import opened FileItems
  import opened FileLayout
  import opened Entities
  import opened FileWriter
  import opened Containers

  // ---------- regions ----------

  const CLASS_DEP := Dep(CLASS, 0, 0)
  const PROTO_DEP := Dep(PROTO, 0, 1)
  const OWN: seq<Dep> := [CLASS_DEP, PROTO_DEP]

  /** Only one item has dependencies: those of two methods of one class with one prototype. */
  ghost predicate OnlyClass(deps: seq<seq<Dep>>, q: nat) {
    q < |deps| && forall i :: 0 <= i < |deps| ==> deps[i] == if i == q then OWN + OWN else []
  }

  lemma {:induction false} UnionOnly(deps: seq<seq<Dep>>, q: nat, lo: nat, hi: nat, kind: nat)
    requires OnlyClass(deps, q) && lo <= hi <= |deps|
    ensures Union(deps, lo, hi, kind) == if lo <= q < hi then OfKind(OWN + OWN, kind) else {}
    decreases hi
  {
    if lo < hi {
      UnionOnly(deps, q, lo, hi - 1, kind);
      assert OfKind([], kind) == {};
    }
  }

  lemma {:induction false} OwnOfKind(kind: nat)
    ensures OfKind(OWN + OWN, kind) == if kind == CLASS then {CLASS_DEP} else if kind == PROTO then {PROTO_DEP} else {}
  {
    var s := OWN + OWN;
    assert s[0] == CLASS_DEP && s[1] == PROTO_DEP;
  }

  lemma {:induction false} AllFeasible(deps: seq<seq<Dep>>, q: nat, lo: nat, hi: nat)
    requires OnlyClass(deps, q) && lo <= hi <= |deps|
    ensures Feasible(deps, lo, hi)
  {
    hide OnlyClass, OfKind;
    forall k | 0 <= k < INDEX_COUNT_16 ensures |Union(deps, lo, hi, k)| <= MAX_INDEX_16 {
      UnionOnly(deps, q, lo, hi, k);
      OwnOfKind(k);
    }
  }

  lemma {:induction false} TableSize(deps: seq<seq<Dep>>, h: Header, q: nat, k: nat)
    requires OnlyClass(deps, q) && IndexSection.Holds(deps, h, |deps|) && h.start == 0 && k < INDEX_COUNT_16
    ensures |h.indexes| == INDEX_COUNT_16 && |h.indexes[k]| == if k == CLASS || k == PROTO then 1 else 0
  {
    hide OnlyClass, OfKind, Elems, Ordered;
    UnionOnly(deps, q, 0, |deps|, k);
    InItems(deps, q);
    OwnOfKind(k);
    OrderedCount(h.indexes[k], k);
  }

  lemma {:induction false} InItems(deps: seq<seq<Dep>>, q: nat)
    requires OnlyClass(deps, q)
    ensures q < |deps|
  {
  }

  /** Then there is one region with two entries. */
  lemma {:induction false} OneRegion(deps: seq<seq<Dep>>, headers: seq<Header>, q: nat)
    requires OnlyClass(deps, q) && Greedy(deps, headers)
    ensures SectionCount(headers) == 12
  {
    hide OnlyClass, Feasible;
    InItems(deps, q);
    if |headers| > 1 {
      AllFeasible(deps, q, headers[0].start, headers[0].end + 1);
    }
    var h := headers[0];
    TableSize(deps, h, q, 0);
    TableSize(deps, h, q, 1);
    TableSize(deps, h, q, 2);
    TableSize(deps, h, q, 3);
    assert TableCount(headers, 0, 4) == |h.indexes[0]| + |h.indexes[1]| + |h.indexes[2]| + |h.indexes[3]|;
    assert TableCount(headers, 1, 0) == TableCount(headers, 0, 4);
  }

  lemma {:induction false} AllFit(items: seq<FileItem>, q: nat)
    requires OnlyClass(AllDeps(items), q)
    ensures FitsRegions(items)
  {
    hide OnlyClass, Feasible, AllDeps;
    forall i | 0 <= i < |items| ensures FitsAlone(AllDeps(items), i) {
      AllFeasible(AllDeps(items), q, i, i + 1);
    }
  }

  // ---------- layouts of such a container ----------

  /** Sizes of two names, the class, the prototype, k code items, the program and the late name. */
  function SizeOf(k: nat, i: nat): nat {
    if i < 2 then 3 else if i == 2 then 46 else if i == 3 then 2 else if i < 4 + k then 10005
    else if i == 4 + k then 1 else 3
  }

  ghost predicate HasSize(it: FileItem, n: nat) {
    !SizedByOffsets(it) && forall e :: CalculateSize(it, e) == n
  }

  /** The debug info comes after the program, and the name behind it. */
  ghost predicate Like(items: seq<FileItem>, k: nat, program: nat) {
    && |items| == 7 + k
    && (forall i :: 0 <= i < |items| ==> ValidItem(items[i]) && Sized(items[i]))
    && (forall i :: 0 <= i < |items| ==> Alignment(items[i]) == if i == 3 then 2 else 1)
    && (forall i :: 0 <= i < |items| ==> MembersOf(items[i]) == if i == 2 then 2 else 0)
    && (forall i: nat :: i < |items| && i != 5 + k ==> HasSize(items[i], SizeOf(k, i)))
    && items[5 + k] == DebugI(DebugInfo(0, [9 + k], [], program, true))
  }

  lemma {:induction false} LikeFirst(items: seq<FileItem>, k: nat, program: nat, n: nat)
    requires Like(items, k, program) && n <= |items|
    ensures First(items, n) == if n <= 2 then n else n + 2
  {
    hide ValidItem, Sized, HasSize, Alignment, MembersOf;
    if n > 0 {
      LikeFirst(items, k, program, n - 1);
    }
  }

  lemma {:induction false} LikeAt(items: seq<FileItem>, k: nat, program: nat, i: nat)
    requires Like(items, k, program) && i < |items| && i != 5 + k
    ensures ValidItem(items[i]) && Sized(items[i]) && HasSize(items[i], SizeOf(k, i))
    ensures Alignment(items[i]) == if i == 3 then 2 else 1
  {
    hide ValidItem, Sized, HasSize, Alignment, MembersOf, SizeOf;
  }

  lemma {:induction false} RoundTwo(x: nat)
    ensures x % 2 == 0 ==> RoundUp(x, 2) == x
  {
  }

  /** Where the pass is after item i, and where the writer is. */
  lemma {:induction false} FixedStep(pl: Plan, stale: seq<nat>, at: seq<nat>, k: nat, program: nat, i: nat)
    requires Like(pl.items, k, program) && i < |pl.items| && i != 5 + k
    ensures Assign(pl, stale, i + 1).1 == Offset(pl, stale, i) + SizeOf(k, i)
    ensures Offset(pl, stale, i) == RoundUp(Assign(pl, stale, i).1, if i == 3 then 2 else 1)
    ensures FileLayout.Position(pl, at, i + 1)
         == RoundUp(FileLayout.Position(pl, at, i), if i == 3 then 2 else 1) + SizeOf(k, i)
  {
    hide Like, ValidItem, Sized, Alignment, SizeOf, Assign, RoundUp, FileLayout.Position, CalculateSize, ItemBytes;
    LikeAt(pl.items, k, program, i);
    AssignSteps(pl, stale, i);
    PositionSteps(pl, at, i);
    ItemSizeExactly(pl.items[i], First(pl.items, i), EnvOf(pl, at));
  }

  lemma {:induction false} DebugSize(e: Env, k: nat, program: nat)
    requires e.programs(program) == 0
    ensures CalculateSize(DebugI(DebugInfo(0, [9 + k], [], program, true)), e)
         == 4 + UnsignedEncodingSize(Where(e.at, 9 + k))
  {
    SmallSize(0);
    SmallSize(1);
    hide UnsignedEncodingSize;
    assert ParamsSize(e.at, [9 + k]) == UnsignedEncodingSize(Where(e.at, 9 + k)) + ParamsSize(e.at, []);
  }

  /** The debug info is sized by what the last layout left for the name, and written with its final offset. */
  lemma {:induction false} DebugStep(pl: Plan, stale: seq<nat>, at: seq<nat>, k: nat, program: nat)
    requires Like(pl.items, k, program) && pl.programs(program) == 0 && |stale| == 9 + k
    ensures Assign(pl, stale, 6 + k).1 == Offset(pl, stale, 5 + k) + 4 + UnsignedEncodingSize(stale[8 + k])
    ensures Offset(pl, stale, 5 + k) == RoundUp(Assign(pl, stale, 5 + k).1, 1)
    ensures FileLayout.Position(pl, at, 6 + k)
         == RoundUp(FileLayout.Position(pl, at, 5 + k), 1) + 4 + UnsignedEncodingSize(Where(at, 9 + k))
  {
    hide Assign, RoundUp, FileLayout.Position, CalculateSize, ItemBytes, Where, UnsignedEncodingSize, HasSize;
    LikeFirst(pl.items, k, program, 6 + k);
    LikeFirst(pl.items, k, program, 7 + k);
    AssignSteps(pl, stale, 5 + k);
    PositionSteps(pl, at, 5 + k);
    ItemSizeExactly(pl.items[5 + k], First(pl.items, 5 + k), EnvOf(pl, at));
    DebugSize(EnvOf(pl, at), k, program);
    var known := Assign(pl, stale, 6 + k).0;
    DebugSize(EnvOf(pl, known), k, program);
    KeepsStale(pl, stale, 6 + k);
    assert known[8 + k..][0] == stale[8 + k..][0];
    WhereIs(known, 9 + k);
  }

  lemma {:induction false} WhereIs(at: seq<nat>, link: nat)
    requires 0 < link <= |at|
    ensures Where(at, link) == at[link - 1]
  {
  }

  lemma {:induction false} FrontSteps(pl: Plan, stale: seq<nat>, at: seq<nat>, k: nat, program: nat)
    requires Like(pl.items, k, program) && pl.base == 112
    ensures Assign(pl, stale, 4).1 == FileLayout.Position(pl, at, 4) == 166
  {
    hide Like, Assign, RoundUp, FileLayout.Position;
    LikeLength(pl.items, k, program);
    AssignSteps(pl, stale, 0);
    PositionSteps(pl, at, 0);
    FixedStep(pl, stale, at, k, program, 0);
    FixedStep(pl, stale, at, k, program, 1);
    FixedStep(pl, stale, at, k, program, 2);
    FixedStep(pl, stale, at, k, program, 3);
    RoundUpOne(112);
    RoundUpOne(115);
    RoundUpOne(118);
    RoundTwo(164);
  }

  lemma {:induction false} LikeLength(items: seq<FileItem>, k: nat, program: nat)
    requires Like(items, k, program)
    ensures |items| == 7 + k
  {
  }

  lemma {:induction false} CodeSteps(pl: Plan, stale: seq<nat>, at: seq<nat>, k: nat, program: nat, j: nat)
    requires Like(pl.items, k, program) && pl.base == 112 && j <= k
    ensures Assign(pl, stale, 4 + j).1 == FileLayout.Position(pl, at, 4 + j) == 166 + 10005 * j
  {
    hide Like, Assign, RoundUp, FileLayout.Position;
    LikeLength(pl.items, k, program);
    if j == 0 {
      FrontSteps(pl, stale, at, k, program);
    } else {
      CodeSteps(pl, stale, at, k, program, j - 1);
      FixedStep(pl, stale, at, k, program, 3 + j);
      RoundUpOne(166 + 10005 * (j - 1));
    }
  }

  /** Where the late name is put, and where it will be written. */
  lemma {:induction false} NamePlaces(pl: Plan, stale: seq<nat>, k: nat, program: nat)
    requires Like(pl.items, k, program) && pl.base == 112 && pl.programs(program) == 0 && |stale| == 9 + k
    ensures Count(pl) == 9 + k && |pl.items| == 7 + k
    ensures
      var at := Assign(pl, stale, 7 + k).0;
      && at[8 + k] == 171 + 10005 * k + UnsignedEncodingSize(stale[8 + k])
      && FileLayout.Position(pl, at, 6 + k) == 171 + 10005 * k + UnsignedEncodingSize(at[8 + k])
  {
    hide Like, Assign, RoundUp, FileLayout.Position, UnsignedEncodingSize, First;
    LikeLength(pl.items, k, program);
    LikeFirst(pl.items, k, program, 7 + k);
    LikeFirst(pl.items, k, program, 6 + k);
    var at := Assign(pl, stale, 7 + k).0;
    CodeSteps(pl, stale, at, k, program, k);
    FixedStep(pl, stale, at, k, program, 4 + k);
    RoundUpOne(166 + 10005 * k);
    DebugStep(pl, stale, at, k, program);
    RoundUpOne(167 + 10005 * k);
    FixedStep(pl, stale, at, k, program, 6 + k);
    RoundUpOne(Assign(pl, stale, 6 + k).1);
    Assigned(pl, stale, 6 + k, 7 + k);
    PlacedFirst(pl.items, at, 6 + k, Offset(pl, stale, 6 + k));
    WhereIs(at, 9 + k);
  }

  // ---------- the container ----------

  function CodeItself(): CodeItem {
    CodeItem(0, 0, seq(10000, _ => 0), [])
  }

  /** Links to code and debug infos go by their position among all of them. */
  function LinkTo(l: Link, first: nat): Option<nat> {
    match l case NoItem => None case Item(k) => Some(first + k)
  }

  function MethodFor(m: Method, name: nat): MethodItem {
    MethodItem(0, 0, name, 0, LinkTo(m.code, 7), PANDA_ASSEMBLY, [], None, LinkTo(m.debug, 10), [], None)
  }

  function ClassFor(methods: seq<Method>): ClassItem
    requires |methods| == 2
  {
    ClassItem(3, [0x4c], 0, 0, [], PANDA_ASSEMBLY, [], [], None, [],
      [MethodFor(methods[0], 1), MethodFor(methods[1], 2)])
  }

  /**
    Numbers: names of the methods 0 and 1, class 2, its methods 3 and 4, prototype 5, code 6 and 7,
    program 8, debug info 9, and 10 the name that the debug info gives to a parameter.
   */
  function SlotsFor(methods: seq<Method>, codes: seq<Code>): (r: seq<Slot>)
    requires |methods| == |codes| == 2
    ensures |r| == 9
  {
    [Slot(StringI(3, [0x61]), true), Slot(StringI(3, [0x63]), true),
     Slot(ClassI(ClassFor(methods), {}, [[], OWN, OWN]), true), Slot(ProtoI([1], []), true),
     Slot(CodeI(CodeItself(), 3), codes[0].emit), Slot(CodeI(CodeItself(), 4), codes[1].emit),
     Slot(ProgramI([0]), true), Slot(DebugI(DebugInfo(0, [11], [], 9, true)), true), Slot(StringI(3, [0x62]), true)]
  }

  function PoolFor(methods: seq<Method>, codes: seq<Code>): Pool
    requires |methods| == |codes| == 2
  {
    Pool(ZeroBytes(8), ZeroBytes(4), SlotsFor(methods, codes), 0, [3], [], [9],
         (x: nat) => if x == 0 then Placed(2) else if x == 1 then Placed(5) else Fixed(0))
  }

  /** Both methods have code, the first one a debug info. */
  predicate Ready(methods: seq<Method>, codes: seq<Code>) {
    && |methods| == |codes| == 2 && methods[0].code.Item? && methods[1].code.Item?
    && methods[0].debug.Item? && methods[1].debug.NoItem? && codes[0].emit
  }

  lemma {:induction false} StringHas(b: byte)
    ensures HasSize(StringI(3, [b]), 3)
  {
    SmallSize(3);
    hide UnsignedEncodingSize;
  }

  lemma {:induction false} MethodHas(m: MethodItem)
    requires m.flags == 0 && m.lang == PANDA_ASSEMBLY && m.code.Some?
    requires m.runtimeAnnotations == [] && m.annotations == [] && m.runtimeParam.None? && m.param.None?
    ensures CalculateMethodSize(m, false) == if m.debug.Some? then 20 else 15
  {
    SmallSize(0);
    hide UnsignedEncodingSize;
  }

  lemma {:induction false} ClassHas(c: ClassItem)
    requires c.nameLength == 3 && |c.name| == 1 && c.flags == 0 && c.ifaces == [] && c.lang == PANDA_ASSEMBLY
    requires c.runtimeAnnotations == [] && c.annotations == [] && c.sourceFile.None?
    requires c.fields == [] && |c.methods| == 2
    requires CalculateMethodSize(c.methods[0], false) == 20 && CalculateMethodSize(c.methods[1], false) == 15
    ensures CalculateClassSize(c) == 46
  {
    SmallSize(0);
    SmallSize(2);
    SmallSize(3);
    hide UnsignedEncodingSize, CalculateMethodSize;
    assert MethodsSize(c.methods, 1) == MethodsSize(c.methods, 0) + 20;
    assert MethodsSize(c.methods, 2) == MethodsSize(c.methods, 1) + 15;
  }

  lemma {:induction false} MappedMethod(m: Method, name: nat, f: nat -> nat)
    requires m.code.Item?
    ensures CalculateMethodSize(MapMethod(MethodFor(m, name), f), false) == if m.debug.Item? then 20 else 15
  {
    MethodHas(MapMethod(MethodFor(m, name), f));
  }

  lemma {:induction false} MappedClass(methods: seq<Method>, codes: seq<Code>, f: nat -> nat)
    requires Ready(methods, codes)
    ensures HasSize(MapLinks(ClassI(ClassFor(methods), {}, [[], OWN, OWN]), f), 46)
  {
    hide CalculateClassSize, CalculateMethodSize, MapMethod, MethodFor;
    MappedMethod(methods[0], 1, f);
    MappedMethod(methods[1], 2, f);
    ClassHas(MapClass(ClassFor(methods), {}, f));
  }

  lemma {:induction false} CodeHas(owner: nat)
    ensures HasSize(CodeI(CodeItself(), owner), 10005)
  {
    SmallSize(0);
    SmallSize(10000);
    hide UnsignedEncodingSize;
    forall e ensures CalculateSize(CodeI(CodeItself(), owner), e) == 10005 {
      assert ResolveCode(CodeItself(), owner, e) == CodeItself();
    }
  }

  lemma {:induction false} SmallHas()
    ensures HasSize(ProtoI([1], []), 2) && HasSize(ProgramI([0]), 1)
  {
  }

  /** What each slot becomes under another numbering. */
  lemma {:induction false} MappedSlot(methods: seq<Method>, codes: seq<Code>, f: nat -> nat, i: nat)
    requires Ready(methods, codes) && i < 9
    ensures
      var it := MapLinks(SlotsFor(methods, codes)[i].it, f);
      && ValidItem(it) && Sized(it) && Alignment(it) == (if i == 3 then 2 else 1)
      && MembersOf(it) == (if i == 2 then 2 else 0)
      && (i != 7 ==> HasSize(it, SizeOf(2, i)))
      && (i == 7 ==> it == DebugI(DebugInfo(0, [f(11)], [], f(9), true)))
  {
    hide HasSize, CalculateSize, MapClass, CodeItself;
    var it := SlotsFor(methods, codes)[i].it;
    SlotValid(methods, codes, i);
    MapKeeps(it, f);
    StringHas(0x61);
    StringHas(0x62);
    StringHas(0x63);
    MappedClass(methods, codes, f);
    CodeHas(MapOwner(3, f));
    CodeHas(MapOwner(4, f));
    SmallHas();
  }

  lemma {:induction false} SlotValid(methods: seq<Method>, codes: seq<Code>, i: nat)
    requires |methods| == |codes| == 2 && i < 9
    ensures var it := SlotsFor(methods, codes)[i].it;
      && ValidItem(it) && Sized(it) && Alignment(it) == (if i == 3 then 2 else 1)
      && MembersOf(it) == (if i == 2 then 2 else 0)
      && EntityDeps(it) == (if i == 2 then [[], OWN, OWN] else [[]])
  {
    hide CodeItself, MethodFor;
  }

  lemma {:induction false} PoolIsValid(methods: seq<Method>, codes: seq<Code>)
    requires |methods| == |codes| == 2
    ensures ValidPool(PoolFor(methods, codes))
  {
    hide ValidItem, SlotsFor;
    var items := Items(SlotsFor(methods, codes));
    forall i | 0 <= i < |items| ensures ValidItem(items[i]) {
      SlotValid(methods, codes, i);
    }
  }

  lemma {:induction false} SlotNumbers(methods: seq<Method>, codes: seq<Code>, n: nat)
    requires |methods| == |codes| == 2 && n <= 9
    ensures SlotFirst(SlotsFor(methods, codes), n) == if n <= 2 then n else n + 2
  {
    hide SlotsFor, MembersOf;
    if n > 0 {
      SlotNumbers(methods, codes, n - 1);
      SlotValid(methods, codes, n - 1);
    }
  }

  lemma {:induction false} DepsOnly(items: seq<FileItem>)
    requires |items| > 2
    requires forall i :: 0 <= i < |items| ==> EntityDeps(items[i]) == if i == 2 then [[], OWN, OWN] else [[]]
    ensures OnlyClass(AllDeps(items), 2)
  {
    hide EntityDeps;
    assert Flat([[], OWN, OWN]) == OWN + OWN by {
      assert Flat([OWN, OWN]) == OWN + Flat([OWN]);
      assert Flat([OWN]) == OWN + Flat([]);
    }
    assert Flat([[]]) == [] + Flat([]);
  }

  /** With both code items. */
  lemma {:induction false} FirstItems(methods: seq<Method>, codes: seq<Code>)
    requires Ready(methods, codes) && codes[1].emit
    ensures var items := EmittedItems(SlotsFor(methods, codes)); Like(items, 2, 9) && OnlyClass(AllDeps(items), 2)
    ensures Renumber(SlotsFor(methods, codes), 9) == 9
  {
    hide SlotsFor, MapLinks, ValidItem, Sized, HasSize, Alignment, MembersOf, OnlyClass, EntityDeps, SlotFirst, Rank;
    var slots := SlotsFor(methods, codes);
    var f := Renumbered(slots);
    AllOn(methods, codes);
    SlotNumbers(methods, codes, 9);
    forall x: nat | 0 < x <= 11 ensures Renumber(slots, x) == x {
      RankAll(slots, 9, x);
      RankAll(slots, 9, x - 1);
    }
    KeptAll(slots, f, 9);
    forall i: nat | i < 9
      ensures
        var it := EmittedItems(slots)[i];
        && ValidItem(it) && Sized(it) && Alignment(it) == (if i == 3 then 2 else 1)
        && MembersOf(it) == (if i == 2 then 2 else 0)
        && EntityDeps(it) == (if i == 2 then [[], OWN, OWN] else [[]])
        && (i != 7 ==> HasSize(it, SizeOf(2, i)))
        && (i == 7 ==> it == DebugI(DebugInfo(0, [11], [], 9, true)))
    {
      MappedSlot(methods, codes, f, i);
      SlotValid(methods, codes, i);
      MapKeeps(slots[i].it, f);
    }
    DepsOnly(EmittedItems(slots));
  }

  lemma {:induction false} AllOn(methods: seq<Method>, codes: seq<Code>)
    requires Ready(methods, codes)
    ensures codes[1].emit ==> forall i :: 0 <= i < 9 ==> SlotsFor(methods, codes)[i].emit
    ensures !codes[1].emit ==> AllBut(SlotsFor(methods, codes), 5, 9)
  {
    hide CodeItself, ClassFor;
  }

  /** Without the second one. */
  lemma {:induction false} SecondItems(methods: seq<Method>, codes: seq<Code>)
    requires Ready(methods, codes) && !codes[1].emit
    ensures var items := EmittedItems(SlotsFor(methods, codes)); Like(items, 1, 8) && OnlyClass(AllDeps(items), 2)
    ensures Renumber(SlotsFor(methods, codes), 9) == 8
  {
    hide SlotsFor, MapLinks, ValidItem, Sized, HasSize, Alignment, MembersOf, OnlyClass, EntityDeps, SlotFirst, Rank,
      AllBut;
    var slots := SlotsFor(methods, codes);
    var f := Renumbered(slots);
    AllOn(methods, codes);
    SlotNumbers(methods, codes, 9);
    SlotNumbers(methods, codes, 5);
    SlotNumbers(methods, codes, 6);
    forall x: nat | 8 < x <= 11 ensures Renumber(slots, x) == x - 1 {
      RankDrop(slots, 5, 9, x);
      RankDrop(slots, 5, 9, x - 1);
    }
    KeptDrop(slots, f, 5, 9);
    forall i: nat | i < 8
      ensures
        var it := EmittedItems(slots)[i];
        && ValidItem(it) && Sized(it) && Alignment(it) == (if i == 3 then 2 else 1)
        && MembersOf(it) == (if i == 2 then 2 else 0)
        && EntityDeps(it) == (if i == 2 then [[], OWN, OWN] else [[]])
        && (i != 6 ==> HasSize(it, SizeOf(1, i)))
        && (i == 6 ==> it == DebugI(DebugInfo(0, [10], [], 8, true)))
    {
      var j := if i < 5 then i else i + 1;
      MappedSlot(methods, codes, f, j);
      SlotValid(methods, codes, j);
      MapKeeps(slots[j].it, f);
    }
    DepsOnly(EmittedItems(slots));
  }

  lemma {:induction false} PlanFor(methods: seq<Method>, codes: seq<Code>, headers: seq<Header>)
    requires |methods| == |codes| == 2
    requires var items := EmittedItems(SlotsFor(methods, codes));
             OnlyClass(AllDeps(items), 2) && Greedy(AllDeps(items), headers)
    ensures
      var pl := PlanOf(ContentsOf(PoolFor(methods, codes)), headers);
      && pl.items == EmittedItems(SlotsFor(methods, codes)) && pl.base == 112
      && pl.programs(Renumber(SlotsFor(methods, codes), 9)) == 0
  {
    hide SlotsFor, EmittedItems, Renumber, SectionCount, Greedy, OnlyClass, AllDeps, IndexIn;
    OneRegion(AllDeps(EmittedItems(SlotsFor(methods, codes))), headers, 2);
    var c := ContentsOf(PoolFor(methods, codes));
    assert c.programs == [Renumber(SlotsFor(methods, codes), 9)];
    ItemsOf(c, headers);
  }

  // ---------- the run ----------

  const NAME: seq<byte> := [3, 0x62, 0]

  lemma {:induction false} LateName(methods: seq<Method>, codes: seq<Code>, headers: seq<Header>, at: seq<nat>)
    requires Ready(methods, codes) && !codes[1].emit
    ensures |EmittedItems(SlotsFor(methods, codes))| == 8
    ensures BytesOf(PlanOf(ContentsOf(PoolFor(methods, codes)), headers), at, 7) == NAME
    ensures Alignment(EmittedItems(SlotsFor(methods, codes))[7]) == 1
  {
    hide Rank, Renumber, Uleb, First;
    AllOn(methods, codes);
    KeptDrop(SlotsFor(methods, codes), Renumbered(SlotsFor(methods, codes)), 5, 9);
    ShortUleb();
    assert [3] + [0x62] + [0] == NAME;
  }

  lemma {:induction false} ShortUleb()
    ensures Uleb(3) == [3]
  {
  }

  /** The state before deduplication meets its conditions. */
  lemma {:induction false} DebugsReady(s: Store)
    requires s == Store([Item(0), NoItem], [DebugInfo(0, [11], [], 0, true)], [Program([0], 1, true)], [0])
    ensures WellLinked(s) && Consistent(s.debugs, s.programs, s.index) && DebugsEmitted(s)
    ensures ProgramsUnshared(s) && DebugsUnshared(s) && DebugsCanonical(s)
  {
    hide Consistent, ProgramsUnshared, DebugsUnshared;
    assert s.debugs[0].program == 0;
    assert 0 in s.index;
    OneEachIsReady(s);
  }

  lemma {:induction false} CodeReady(c: CodeStore, data: seq<byte>)
    requires c == CodeStore([Item(0), Item(1)], [Code(data, true), Code(data, true)])
    ensures CodeLinked(c) && CodeEmitted(c) && CodeUnshared(c)
    ensures Duplicate(c, 2, 1) && !Duplicate(c, 2, 0)
  {
    assert DuplicateOf(c, 1, 0);
  }

  /** Any way to tell strings and programs apart. */
  function Apart(): Places {
    Places((x: nat) => x, (x: nat) => x)
  }

  /** The first layout puts the name behind both code items. */
  lemma {:induction false} FirstLayout(methods: seq<Method>, codes: seq<Code>, headers: seq<Header>, zeros: seq<nat>)
    requires Ready(methods, codes) && codes[1].emit && |zeros| == 11 && zeros[10] == 0
    requires Greedy(AllDeps(EmittedItems(SlotsFor(methods, codes))), headers)
    ensures SlotFirst(SlotsFor(methods, codes), 9) == 11 && Gather(SlotsFor(methods, codes), zeros, 9) == zeros
    ensures
      var pl := PlanOf(ContentsOf(PoolFor(methods, codes)), headers);
      |pl.items| == 9 && Scatter(SlotsFor(methods, codes), zeros, Assign(pl, zeros, 9).0, 9) == Assign(pl, zeros, 9).0
      && Assign(pl, zeros, 9).0[10] == 20182
  {
    hide SlotsFor, Like, OnlyClass, Greedy, EmittedItems, Renumber, Assign, Scatter, Gather, Rank, SlotFirst, PlanOf,
      ContentsOf;
    var slots := SlotsFor(methods, codes);
    FirstItems(methods, codes);
    AllOn(methods, codes);
    SlotNumbers(methods, codes, 9);
    GatherAll(slots, zeros, 9);
    assert zeros[..11] == zeros;
    PlanFor(methods, codes, headers);
    var pl := PlanOf(ContentsOf(PoolFor(methods, codes)), headers);
    NamePlaces(pl, zeros, 2, 9);
    SmallSize(0);
    var at := Assign(pl, zeros, 9).0;
    ScatterAll(slots, zeros, at, 9);
    assert at[..11] == at;
  }

  method LayOut(c: Container, methods: seq<Method>, codes: seq<Code>)
    requires Ready(methods, codes) && codes[1].emit && c.Valid() && c.pool == PoolFor(methods, codes)
    requires |c.full| == 11 && c.full[10] == 0
    modifies c`full, c`headers
    ensures c.Valid() && |c.full| == 11 && c.full[10] == 20182
  {
    hide SlotsFor, OnlyClass, Greedy, EmittedItems, Assign, Scatter, Gather, SlotFirst, ValidPool, PlanOf;
    FirstItems(methods, codes);
    AllFit(EmittedItems(SlotsFor(methods, codes)), 2);
    ghost var zeros := c.full;
    var ok := c.ComputeLayout();
    FirstLayout(methods, codes, c.headers, zeros);
  }

  /** The second one moves it by the whole of a code item, but leaves room for an offset as long as the old one. */
  lemma {:induction false} SecondLayout(methods: seq<Method>, codes: seq<Code>, headers: seq<Header>, full: seq<nat>)
    requires Ready(methods, codes) && !codes[1].emit && |full| == 11 && full[10] == 20182
    requires Greedy(AllDeps(EmittedItems(SlotsFor(methods, codes))), headers)
    ensures SlotFirst(SlotsFor(methods, codes), 9) == 11
    ensures
      var pl, stale := PlanOf(ContentsOf(PoolFor(methods, codes)), headers), Gather(SlotsFor(methods, codes), full, 9);
      && |pl.items| == 8 && |stale| == 10 && Assign(pl, stale, 8).0[9] == 10179
      && FileLayout.Position(pl, Assign(pl, stale, 8).0, 7) == 10178
  {
    hide SlotsFor, Like, OnlyClass, Greedy, EmittedItems, Renumber, Assign, Gather, Rank, SlotFirst, PlanOf, ContentsOf,
      FileLayout.Position, AllBut;
    SecondItems(methods, codes);
    AllOn(methods, codes);
    SlotNumbers(methods, codes, 9);
    SlotNumbers(methods, codes, 5);
    SlotNumbers(methods, codes, 6);
    GatherDrop(SlotsFor(methods, codes), full, 5, 9);
    var stale := Gather(SlotsFor(methods, codes), full, 9);
    assert stale[9] == 20182;
    PlanFor(methods, codes, headers);
    NamePlaces(PlanOf(ContentsOf(PoolFor(methods, codes)), headers), stale, 1, 8);
    LargeSize(20182);
    SmallSize(10179);
  }

  method WriteAgain(c: Container, methods: seq<Method>, codes: seq<Code>) returns (at: seq<nat>, file: seq<byte>)
    requires Ready(methods, codes) && !codes[1].emit && c.Valid() && c.pool == PoolFor(methods, codes)
    requires |c.full| == 11 && c.full[10] == 20182
    modifies c`headers
    ensures |at| == 10 && at[9] == 10179 && Lies(file, 10178, NAME)
  {
    hide SlotsFor, OnlyClass, Greedy, EmittedItems, Assign, Gather, SlotFirst, ValidPool, PlanOf, AllLie, BytesOf,
      RoundUp, FileLayout.Position, Lies, NAME, Alignment, FileLayout.Settled, LaidOut, Written;
    SecondItems(methods, codes);
    AllFit(EmittedItems(SlotsFor(methods, codes)), 2);
    var ok;
    ok, at, file := c.Write();
    SecondLayout(methods, codes, c.headers, c.full);
    LateName(methods, codes, c.headers, at);
    RoundUpOne(10178);
    PlanItems(ContentsOf(c.pool), c.headers);
    LieAt(PlanOf(ContentsOf(c.pool), c.headers), at, file, 7);
  }

  lemma {:induction false} LieAt(pl: Plan, at: seq<nat>, file: seq<byte>, i: nat)
    requires AllLie(pl, at, file) && i < |pl.items|
    ensures Lies(file, RoundUp(FileLayout.Position(pl, at, i), Alignment(pl.items[i])), BytesOf(pl, at, i))
  {
  }

  lemma {:induction false} LargeSize(v: nat)
    ensures 16384 <= v < 2097152 ==> UnsignedEncodingSize(v) == 3
  {
    hide UnsignedEncodingSize;
    UlebSize(v);
    if 16384 <= v < 2097152 {
      assert Uleb(v) == [v % 128 + 128] + Uleb(v / 128);
      assert Uleb(v / 128) == [v / 128 % 128 + 128] + Uleb(v / 128 / 128);
    }
  }

  /**
    Writing the container: a layout, deduplication, another layout, the bytes. In the end the debug info
    and every other reader find the late name at 10179, but it was written at 10178.
   */
  method DeduplicationSpoils() returns (at: seq<nat>, file: seq<byte>)
    ensures |at| == 10 && at[9] == 10179 && Lies(file, 10178, NAME)
  {
    hide SlotsFor, WellLinked, Consistent, DebugsEmitted, ProgramsUnshared, DebugsUnshared, DebugsCanonical,
      CodeUnshared, Duplicate, Distinguishes, CodeLinked, CodeEmitted, CodeCanonical, FirstCode, SameContent, Lies,
      NAME;
    var data := CodeFormat.CodeBytes(CodeItself());
    var d := new ItemContainer(
      [Method(Item(0), Item(0)), Method(NoItem, Item(1))], [DebugInfo(0, [11], [], 0, true)],
      [Program([0], 1, true)], [0], [Code(data, true), Code(data, true)]);
    ghost var s0, c0 := d.Debugging(), d.Coding();
    DebugsReady(s0);
    CodeReady(c0, data);
    PoolIsValid(d.methods, d.codes);
    var c := new Container(PoolFor(d.methods, d.codes));
    SlotNumbers(d.methods, d.codes, 9);
    LayOut(c, d.methods, d.codes);
    TellsApart();
    d.DeduplicateCodeAndDebugInfo(Apart());
    AfterPass(d.methods, d.codes, s0, c0, d.Debugging(), d.Coding());
    PoolIsValid(d.methods, d.codes);
    SlotNumbers(d.methods, d.codes, 9);
    c.pool := PoolFor(d.methods, d.codes);
    at, file := WriteAgain(c, d.methods, d.codes);
  }

  lemma {:induction false} TellsApart()
    ensures Distinguishes(Apart())
  {
  }

  /** The second code item is dropped, and nothing else changes. */
  lemma {:induction false} AfterPass(
    methods: seq<Method>, codes: seq<Code>, s0: Store, c0: CodeStore, s: Store, c: CodeStore)
    requires s0 == s && s0.methods == [Item(0), NoItem] && c0.methods == [Item(0), Item(1)]
    requires s.methods == DebugLinks(methods) && c.methods == CodeLinks(methods) && c.codes == codes && |codes| == 2
    requires forall i: nat :: i < |methods| ==> (HasCode(c, i) <==> HasCode(c0, i))
    requires codes[0].emit && !codes[1].emit
    ensures Ready(methods, codes) && !codes[1].emit
  {
    assert s.methods[0].Item? && s.methods[1].NoItem?;
    assert HasCode(c0, 0) && HasCode(c0, 1);
  }
}
