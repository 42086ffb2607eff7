/**
  Debug infos, code and fields of a written file, read by their accessors: the numbers they find there
  lead to the program, the caught classes and the value that were meant.
 */
module FileAccess {
  import opened Bytes
  import opened Leb128
  import opened Isa
  import opened FileBytes
  import opened TaggedData
  import opened FieldAccessor
  import opened ClassAccessor
  import opened CodeFormat
  import opened DebugAccessor
  import opened DedupState
  import opened ValueItems
  import opened FileItems
  import opened FileLayout
  import opened IndexRegions
  import opened IndexSection
  import opened IndexResolution
  import opened Entities
  import opened FileWriter
  import opened FileReading

  // ---------- debug infos ----------

  ghost function PlacesIn(c: Contents, headers: seq<Header>, at: seq<nat>): Places {
    PlacesOf(EnvOf(PlanOf(c, headers), at))
  }

  lemma {:induction false} DebugLies(c: Contents, headers: seq<Header>, at: seq<nat>, file: seq<byte>, i: nat)
    requires Complete(c, headers, at, file) && i < |c.items| && c.items[i].DebugI?
    ensures First(c.items, i) < |at|
    ensures Lies(file, at[First(c.items, i)], DebugBytes(PlacesIn(c, headers, at), c.items[i].d))
  {
    hide Complete, First, Lies, DebugBytes;
    ItemLies(c, headers, at, file, i);
    ItemsOf(c, headers);
  }

  lemma {:induction false} ProgramWord(c: Contents, headers: seq<Header>, at: seq<nat>, file: seq<byte>, x: nat)
    requires Complete(c, headers, at, file) && x in c.programs
    ensures IndexResolution.U32(file, ProgramsStart(c, headers, at) + 4 * ProgramPlace(c.programs, x)) == Where(at, x)
  {
    hide AllValid, Words, IndexWords, BytesOf, Lies, SectionCount, HeaderBytes, Greedy, First, AllDeps, ProgramsStart,
      IndexIn, LaidOut, ReadLe, FileSize, PlanOf;
    LinkSmall(c, headers, at, file, x);
    WordRead(file, ProgramsStart(c, headers, at), WhereAll(at, c.programs), ProgramPlace(c.programs, x));
  }

  lemma {:induction false} IsWritten(c: Contents, headers: seq<Header>, at: seq<nat>, file: seq<byte>)
    requires Complete(c, headers, at, file)
    ensures ValidContents(c) && Written(c, headers, at, file) && |file| < 0x1_0000_0000
  {
  }

  /**
    The number at the end of a debug info, looked up in the table that the header leads to, is the
    offset of its program.
   */
  lemma {:induction false} ProgramResolves(c: Contents, headers: seq<Header>, at: seq<nat>, file: seq<byte>, i: nat)
    requires Complete(c, headers, at, file) && i < |c.items| && c.items[i].DebugI? && c.items[i].d.program in c.programs
    ensures First(c.items, i) < |at|
    ensures
      var p := ProgramAt(at[First(c.items, i)], PlacesIn(c, headers, at), c.items[i].d);
      ResolveProgramIndex(file, ReadUlebAt(file, p).0) == Where(at, c.items[i].d.program)
  {
    hide Complete, ValidContents, Written, First, Lies, DebugBytes, ReadUlebAt, ReadLe, ProgramAt, ProgramsStart;
    IsWritten(c, headers, at, file);
    SizeInHeader(c, headers, at, file);
    DebugLies(c, headers, at, file, i);
    PoolRead(file, at[First(c.items, i)], PlacesIn(c, headers, at), c.items[i].d);
    ProgramWord(c, headers, at, file, c.items[i].d.program);
  }

  /** All that a debug info says, read back with offsets for links. */
  method ReadDebugInfo(
    file: seq<byte>, id: nat, ghost c: Contents, ghost headers: seq<Header>, ghost at: seq<nat>, ghost i: nat)
    returns (line: nat, names: seq<nat>, pool: seq<byte>, program: nat)
    requires Complete(c, headers, at, file) && i < |c.items| && c.items[i].DebugI?
    requires c.items[i].d.program in c.programs && First(c.items, i) < |at| && id == at[First(c.items, i)]
    ensures line == c.items[i].d.line && pool == c.items[i].d.pool
    ensures names == WhereAll(at, c.items[i].d.params)
    ensures program == Where(at, c.items[i].d.program)
  {
    hide Complete, First, Lies, DebugBytes, ReadUlebAt, ResolveProgramIndex, ProgramAt, PoolAt, ParamsAt;
    DebugLies(c, headers, at, file, i);
    ProgramResolves(c, headers, at, file, i);
    var accessor := new DebugInfoDataAccessor(file, id, PlacesIn(c, headers, at), c.items[i].d);
    line := accessor.lineStart;
    program := accessor.GetLineNumberProgram();
    names := accessor.EnumerateParameters();
    pool := accessor.GetConstantPool();
    PoolRead(file, id, PlacesIn(c, headers, at), c.items[i].d);
  }

  // ---------- catch blocks ----------

  /** The code of item i was written for entity y of item x, and catches classes that are dependencies of it. */
  ghost predicate Catches(c: Contents, i: nat, x: nat, y: nat) {
    && i < |c.items| && c.items[i].CodeI?
    && x < |c.items| && y < |EntityDeps(c.items[x])| && c.items[i].owner == First(c.items, x) + y
    && forall t, q :: 0 <= t < |c.items[i].code.tries| && 0 <= q < |c.items[i].code.tries[t].catches| ==>
         CatchesDep(OwnDeps(c, x, y), c.items[i].code.tries[t].catches[q])
  }

  ghost predicate CatchesDep(own: seq<Dep>, q: CatchItem) {
    q.typ.Some? ==> q.typ.value < |own| && own[q.typ.value].kind == CLASS
  }

  /** Where the class of a catch block lies, if it does not catch all. */
  ghost function Caught(c: Contents, at: seq<nat>, own: seq<Dep>, q: CatchItem): Option<nat>
    requires CatchesDep(own, q)
  {
    match q.typ case None => None case Some(k) => Some(DepOffset(c, at)(own[k]))
  }

  /** What a reader makes of the index in a catch block of the method at `id`. */
  function CaughtId(file: seq<byte>, sectionStart: nat, count: nat, id: nat, q: Catch): Option<nat> {
    if q.typeIdx == INVALID_INDEX then None else Some(ResolveIndex(file, sectionStart, count, id, CLASS, q.typeIdx))
  }

  ghost function CodeIn(c: Contents, headers: seq<Header>, at: seq<nat>, i: nat): CodeItem
    requires i < |c.items| && c.items[i].CodeI?
  {
    ResolveCode(c.items[i].code, c.items[i].owner, EnvOf(PlanOf(c, headers), at))
  }

  lemma {:induction false} CodeLies(c: Contents, headers: seq<Header>, at: seq<nat>, file: seq<byte>, i: nat)
    requires Complete(c, headers, at, file) && i < |c.items| && c.items[i].CodeI?
    ensures First(c.items, i) < |at|
    ensures Lies(file, at[First(c.items, i)], CodeFormat.CodeBytes(CodeIn(c, headers, at, i)))
  {
    hide Complete, First, Lies, CodeFormat.CodeBytes, ResolveCode;
    ItemLies(c, headers, at, file, i);
    ItemsOf(c, headers);
  }

  /** The index that is written for catch block q of try block t leads from the method to the class that is caught. */
  lemma {:induction false} CatchResolves(
    c: Contents, headers: seq<Header>, at: seq<nat>, file: seq<byte>, i: nat, x: nat, y: nat, t: nat, q: nat)
    requires Complete(c, headers, at, file) && Catches(c, i, x, y)
    requires t < |c.items[i].code.tries| && q < |c.items[i].code.tries[t].catches|
    ensures c.items[i].owner < |at|
    ensures
      var own, item := OwnDeps(c, x, y), c.items[i].code.tries[t].catches[q];
      var written := CodeIn(c, headers, at, i).tries[t].catches[q];
      && ValidCatch(written) && CatchesDep(own, item)
      && CaughtId(file, SectionStart(c), |headers|, at[c.items[i].owner], CatchView(written))
        == Caught(c, at, own, item)
  {
    hide Complete, First, ResolveIndex, DepOffset, EntityDeps, PlanOf, IndexIn, SectionStart;
    var item := c.items[i].code.tries[t].catches[q];
    assert CatchesDep(OwnDeps(c, x, y), item);
    ItemsOf(c, headers);
    if item.typ.Some? {
      FileResolves(c, headers, at, file, x, y, item.typ.value);
    } else {
      OwnerPlaced(c, headers, at, file, x, y);
    }
  }

  lemma {:induction false} OwnerPlaced(c: Contents, headers: seq<Header>, at: seq<nat>, file: seq<byte>, x: nat, y: nat)
    requires Complete(c, headers, at, file) && x < |c.items| && y < |EntityDeps(c.items[x])|
    ensures First(c.items, x) + y < |at|
  {
    hide Greedy, LaidOut, Written, EntityDeps;
    DepsPerEntity(c.items[x]);
    FirstGrows(c.items, x, |c.items|);
  }

  lemma {:induction false} CodeIsValid(
    c: Contents, headers: seq<Header>, at: seq<nat>, file: seq<byte>, i: nat, x: nat, y: nat)
    requires Complete(c, headers, at, file) && Catches(c, i, x, y)
    ensures ValidCode(CodeIn(c, headers, at, i))
  {
    hide Complete, First, ResolveIndex, DepOffset, EntityDeps, PlanOf, ValidCatch;
    var code := CodeIn(c, headers, at, i);
    forall t, q | 0 <= t < |code.tries| && 0 <= q < |code.tries[t].catches|
      ensures ValidCatch(code.tries[t].catches[q])
    {
      SameBlocks(c, headers, at, i, t);
      CatchResolves(c, headers, at, file, i, x, y, t, q);
    }
  }

  lemma {:induction false} SameBlocks(c: Contents, headers: seq<Header>, at: seq<nat>, i: nat, t: nat)
    requires i < |c.items| && c.items[i].CodeI? && t < |c.items[i].code.tries|
    ensures |CodeIn(c, headers, at, i).tries| == |c.items[i].code.tries|
    ensures |CodeIn(c, headers, at, i).tries[t].catches| == |c.items[i].code.tries[t].catches|
  {
    hide PlanOf, ResolveCatch;
  }

  /** What a reader finds in the catch blocks of try block t, up to the one after `inner`. */
  ghost predicate Found(
    c: Contents, at: seq<nat>, i: nat, x: nat, y: nat, inner: nat, t: nat, types: seq<Option<nat>>)
    requires Catches(c, i, x, y) && t < |c.items[i].code.tries|
  {
    var catches := c.items[i].code.tries[t].catches;
    && |types| == Stopped(|catches|, inner)
    && forall q :: 0 <= q < |types| ==> types[q] == CaughtAt(c, at, i, x, y, t, q)
  }

  ghost function CaughtAt(c: Contents, at: seq<nat>, i: nat, x: nat, y: nat, t: nat, q: nat): Option<nat>
    requires Catches(c, i, x, y) && t < |c.items[i].code.tries| && q < |c.items[i].code.tries[t].catches|
  {
    assert CatchesDep(OwnDeps(c, x, y), c.items[i].code.tries[t].catches[q]);
    Caught(c, at, OwnDeps(c, x, y), c.items[i].code.tries[t].catches[q])
  }

  lemma {:induction false} TryFound(
    c: Contents, headers: seq<Header>, at: seq<nat>, file: seq<byte>, i: nat, x: nat, y: nat, inner: nat, t: nat,
    seen: Try, types: seq<Option<nat>>)
    requires Complete(c, headers, at, file) && Catches(c, i, x, y) && t < |c.items[i].code.tries|
    requires t < |CodeIn(c, headers, at, i).tries| && seen == TryView(CodeIn(c, headers, at, i).tries[t], inner)
    requires c.items[i].owner < |at| && |types| == |seen.catches|
    requires forall q :: 0 <= q < |types| ==>
      types[q] == CaughtId(file, SectionStart(c), |headers|, at[c.items[i].owner], seen.catches[q])
    ensures Found(c, at, i, x, y, inner, t, types)
  {
    hide Complete, CaughtId, Caught, CodeIn, OwnDeps, CatchView, SectionStart;
    SameBlocks(c, headers, at, i, t);
    forall q | 0 <= q < |types| ensures types[q] == CaughtAt(c, at, i, x, y, t, q) {
      CatchResolves(c, headers, at, file, i, x, y, t, q);
    }
  }

  method CatchTypes(file: seq<byte>, sectionStart: nat, count: nat, id: nat, seen: Try)
    returns (types: seq<Option<nat>>)
    ensures |types| == |seen.catches|
    ensures forall q :: 0 <= q < |types| ==> types[q] == CaughtId(file, sectionStart, count, id, seen.catches[q])
  {
    hide CaughtId;
    types := [];
    for q := 0 to |seen.catches|
      invariant |types| == q
      invariant forall r :: 0 <= r < q ==> types[r] == CaughtId(file, sectionStart, count, id, seen.catches[r])
    {
      types := types + [CaughtId(file, sectionStart, count, id, seen.catches[q])];
    }
  }

  /** The code of item i lies at `id`, the method it was written for at `owner`. */
  ghost predicate LiesFor(c: Contents, at: seq<nat>, i: nat, id: nat, owner: nat)
    requires i < |c.items| && c.items[i].CodeI?
  {
    && First(c.items, i) < |at| && id == at[First(c.items, i)]
    && c.items[i].owner < |at| && owner == at[c.items[i].owner]
  }

  ghost predicate AllFound(
    c: Contents, at: seq<nat>, i: nat, x: nat, y: nat, stop: nat, inner: nat, types: seq<seq<Option<nat>>>)
    requires Catches(c, i, x, y)
  {
    && |types| == Stopped(|c.items[i].code.tries|, stop)
    && forall t :: 0 <= t < |types| ==> Found(c, at, i, x, y, inner, t, types[t])
  }

  /**
    The classes that the code at `id` catches, try block by try block, as its method at `owner` resolves
    the indexes that are read: each is the offset of the class that was meant, or none where all is
    caught. The callbacks stop where they like.
   */
  method EnumerateCatchTypes(
    file: seq<byte>, id: nat, owner: nat, sectionStart: nat, count: nat, stop: nat, inner: nat,
    ghost c: Contents, ghost headers: seq<Header>, ghost at: seq<nat>, ghost i: nat, ghost x: nat, ghost y: nat)
    returns (types: seq<seq<Option<nat>>>)
    requires Complete(c, headers, at, file) && sectionStart == SectionStart(c) && count == |headers|
    requires Catches(c, i, x, y) && LiesFor(c, at, i, id, owner)
    ensures AllFound(c, at, i, x, y, stop, inner, types)
  {
    hide Complete, CaughtId, Found, CodeFormat.CodeBytes, ValidCode, TryView, First, Lies, SectionStart;
    CodeLies(c, headers, at, file, i);
    CodeIsValid(c, headers, at, file, i, x, y);
    var accessor := new CodeDataAccessor(file, id, CodeIn(c, headers, at, i));
    var seen := accessor.EnumerateTryBlocks(stop, inner);
    types := [];
    for t := 0 to |seen|
      invariant |types| == t
      invariant forall r :: 0 <= r < t ==> Found(c, at, i, x, y, inner, r, types[r])
    {
      var found := CatchTypes(file, sectionStart, count, owner, seen[t]);
      TryFound(c, headers, at, file, i, x, y, inner, t, seen[t], found);
      types := types + [found];
    }
  }

  // ---------- fields with wide values ----------

  /** Offsets that stand for the types with 64-bit values: f64, i64 and u64. */
  predicate WideType(offset: nat) {
    8 <= offset <= 10
  }

  ghost function FieldIn(c: Contents, headers: seq<Header>, at: seq<nat>, i: nat, k: nat): FieldItem
    requires i < |c.items| && c.items[i].ClassI? && k < |c.items[i].c.fields|
  {
    var o := First(c.items, i) + 1 + k;
    ResolveField(c.items[i].c.fields[k], k in c.items[i].linked, o, EnvOf(PlanOf(c, headers), at))
  }

  lemma {:induction false} FieldLiesAt(
    c: Contents, headers: seq<Header>, at: seq<nat>, file: seq<byte>, i: nat, k: nat)
    requires Complete(c, headers, at, file) && i < |c.items| && c.items[i].ClassI? && k < |c.items[i].c.fields|
    ensures First(c.items, i) + 1 + k < |at|
    ensures Lies(file, at[First(c.items, i) + 1 + k], FieldBytes(FieldIn(c, headers, at, i, k), false))
  {
    hide Complete, First, Lies, FieldBytes, PlanOf, ResolveField;
    MemberLies(c, headers, at, file, i, k);
  }

  lemma {:induction false} LinksSmall(
    c: Contents, headers: seq<Header>, at: seq<nat>, file: seq<byte>, links: seq<nat>)
    requires Complete(c, headers, at, file)
    ensures Ids(WhereAll(at, links))
  {
    hide Complete, Where;
    assert Base(4) == 0x1_0000_0000;
    forall j | 0 <= j < |links| ensures Id(WhereAll(at, links)[j]) {
      LinkSmall(c, headers, at, file, links[j]);
    }
  }

  lemma {:induction false} FieldIsValid(
    c: Contents, headers: seq<Header>, at: seq<nat>, file: seq<byte>, i: nat, k: nat)
    requires Complete(c, headers, at, file) && i < |c.items| && c.items[i].ClassI? && k < |c.items[i].c.fields|
    requires c.items[i].c.fields[k].value.WordValue? && k !in c.items[i].linked ==> Id(c.items[i].c.fields[k].value.w)
    ensures ValidField(FieldIn(c, headers, at, i, k))
  {
    hide Complete, First, PlanOf, Where, IndexIn, EntityDeps, ValidContents;
    var f, o := c.items[i].c.fields[k], First(c.items, i) + 1 + k;
    assert Base(4) == 0x1_0000_0000;
    IsValid(c, headers, at, file);
    MemberKinds(c, i, k);
    FileResolves(c, headers, at, file, i, k + 1, 0);
    FileResolves(c, headers, at, file, i, k + 1, 1);
    IndexIsSmall(IndexIn(c, headers, o, 0));
    IndexIsSmall(IndexIn(c, headers, o, 1));
    ItemsOf(c, headers);
    LinkSmall(c, headers, at, file, f.name);
    if f.value.WordValue? {
      LinkSmall(c, headers, at, file, f.value.w);
    }
    LinksSmall(c, headers, at, file, f.runtimeAnnotations);
    LinksSmall(c, headers, at, file, f.annotations);
  }

  /** The number in a 64-bit scalar item. */
  function WideNumber(v: ScalarValue): nat {
    match v case LongValue(n) => n case DoubleValue(n) => n case _ => 0
  }

  /**
    A field whose type index leads to a 64-bit type: its value, as the accessor reads it through the
    offset in the field, is the number in the scalar item that the field was linked to.
   */
  method ReadWideField(
    file: seq<byte>, id: nat, sectionStart: nat, count: nat, ghost c: Contents, ghost headers: seq<Header>,
    ghost at: seq<nat>, ghost i: nat, ghost k: nat, ghost s: nat) returns (value: Option<nat>)
    requires Complete(c, headers, at, file) && sectionStart == SectionStart(c) && count == |headers|
    requires i < |c.items| && c.items[i].ClassI? && k < |c.items[i].c.fields|
    requires First(c.items, i) + 1 + k < |at| && id == at[First(c.items, i) + 1 + k]
    requires |EntityDeps(c.items[i])| > k + 1 && |OwnDeps(c, i, k + 1)| >= 2
    requires WideType(DepOffset(c, at)(OwnDeps(c, i, k + 1)[1]))
    requires s < |c.items| && c.items[s].ScalarI? && (c.items[s].value.LongValue? || c.items[s].value.DoubleValue?)
    requires WideNumber(c.items[s].value) < Base(8)
    requires k in c.items[i].linked && c.items[i].c.fields[k].value == WordValue(1 + First(c.items, s))
    ensures value == Some(WideNumber(c.items[s].value))
  {
    hide Complete, First, Lies, ValidField, FieldBytes, ResolveIndex, DepOffset, OwnDeps, EntityDeps, ReadLe,
      SectionStart, FieldSections, ValueBytes, Base;
    var isWide := (t: nat) => WideType(ResolveIndex(file, sectionStart, count, id, CLASS, t));
    FieldLiesAt(c, headers, at, file, i, k);
    FieldIsValid(c, headers, at, file, i, k);
    WideLink(c, headers, at, file, i, k, s);
    var accessor := new FieldDataAccessor(file, id, false, isWide, FieldIn(c, headers, at, i, k));
    value := accessor.GetFieldValue();
  }

  lemma {:induction false} WideLink(
    c: Contents, headers: seq<Header>, at: seq<nat>, file: seq<byte>, i: nat, k: nat, s: nat)
    requires Complete(c, headers, at, file) && i < |c.items| && c.items[i].ClassI? && k < |c.items[i].c.fields|
    requires s < |c.items| && c.items[s].ScalarI? && (c.items[s].value.LongValue? || c.items[s].value.DoubleValue?)
    requires WideNumber(c.items[s].value) < Base(8)
    requires k in c.items[i].linked && c.items[i].c.fields[k].value == WordValue(1 + First(c.items, s))
    ensures First(c.items, i) + 1 + k < |at| && |EntityDeps(c.items[i])| > k + 1 && |OwnDeps(c, i, k + 1)| >= 2
    ensures
      var f, p := FieldIn(c, headers, at, i, k), at[First(c.items, i) + 1 + k];
      && f.value.WordValue? && ReadLe(file, f.value.w, 8) == WideNumber(c.items[s].value)
      && Resolved(c, headers, file, p, CLASS, f.typ) == DepOffset(c, at)(OwnDeps(c, i, k + 1)[1])
  {
    hide Complete, First, DepOffset, EntityDeps, ReadLe, PlanOf, Base, ValidContents, IndexIn;
    IsValid(c, headers, at, file);
    ScalarReads(c, headers, at, file, s);
    MemberKinds(c, i, k);
    FileResolves(c, headers, at, file, i, k + 1, 1);
    ItemsOf(c, headers);
  }
}
