/**
  A whole file: the header, the class and literal array tables, the index section, the items and
  the table of line number programs.
 */
module FileWriter {
  import opened Bytes
  import opened FileBytes
  import opened ValueItems
  import opened FileItems
  import opened FileLayout
  import opened IndexRegions
  import opened IndexSection
  import opened IndexResolution
  import opened Entities

  const HEADER_SIZE := 60

  /** What an object is in the file: an item or member, by number, or a type with a fixed offset. */
  datatype Target = Placed(number: nat) | Fixed(offset: nat)

  /**
    What is to be written. Items are those that are emitted, foreign ones first; classes, literal
    arrays and programs are links to items, programs in the order of their index. `objects` says what
    the object at an address is.
   */
  datatype Contents = Contents(
    magic: seq<byte>, version: seq<byte>, items: seq<FileItem>, foreign: nat,
    classes: seq<nat>, literals: seq<nat>, programs: seq<nat>, objects: nat -> Target)

  ghost predicate ValidContents(c: Contents) {
    |c.magic| == 8 && |c.version| == 4 && AllValid(c.items) && c.foreign <= |c.items|
  }

  function CountOf(c: Contents): nat {
    First(c.items, |c.items|)
  }

  // ---------- indexes ----------

  function TargetAt(at: seq<nat>, t: Target): nat {
    match t case Placed(n) => Where(at, n + 1) case Fixed(x) => x
  }

  /** Where a dependency lies. */
  function DepOffset(c: Contents, at: seq<nat>): Dep -> nat {
    (d: Dep) => TargetAt(at, c.objects(d.ptr))
  }

  /** The index that entity o uses for its k-th dependency: the one of the region it is in. */
  function IndexIn(c: Contents, headers: seq<Header>, o: nat, k: nat): nat {
    var deps, first := DepsByNumber(c.items, |c.items|), Numbers(c.items);
    if o < |deps| && k < |deps[o]| && HasIndex(first, headers, deps[o][k], o)
    then GetIndex(first, headers, deps[o][k], o) else 0
  }

  function ProgramPlace(programs: seq<nat>, x: nat): (i: nat)
    ensures x in programs ==> i < |programs| && programs[i] == x
  {
    if programs == [] || programs[0] == x then 0 else 1 + ProgramPlace(programs[1..], x)
  }

  // ---------- the index section ----------

  function TableCount(headers: seq<Header>, n: nat, k: nat): nat
    requires n <= |headers| && (n < |headers| ==> k <= |headers[n].indexes|) && (n == |headers| ==> k == 0)
    decreases n, k
  {
    if k > 0 then TableCount(headers, n, k - 1) + |headers[n].indexes[k - 1]|
    else if n > 0 then TableCount(headers, n - 1, |headers[n - 1].indexes|)
    else 0
  }

  /** Words of the index section, known before any offset is. */
  function SectionCount(headers: seq<Header>): nat {
    10 * |headers| + TableCount(headers, |headers|, 0)
  }

  lemma {:induction false} TablesLength(headers: seq<Header>, offsetOf: Dep -> nat, n: nat, k: nat)
    requires n <= |headers| && (n < |headers| ==> k <= |headers[n].indexes|) && (n == |headers| ==> k == 0)
    ensures |Tables(headers, offsetOf, n, k)| == TableCount(headers, n, k)
    decreases n, k
  {
    if k > 0 {
      TablesLength(headers, offsetOf, n, k - 1);
    } else if n > 0 {
      TablesLength(headers, offsetOf, n - 1, |headers[n - 1].indexes|);
    }
  }

  lemma {:induction false} SectionLength(
    headers: seq<Header>, offsetOf: Dep -> nat, base: nat, first: seq<nat>, off: seq<nat>)
    requires AllFour(headers)
    ensures |SectionWords(headers, offsetOf, base, first, off)| == SectionCount(headers)
  {
    TablesLength(headers, offsetOf, |headers|, 0);
  }

  lemma {:induction false} WordsLength(ws: seq<nat>)
    ensures |Words(ws)| == 4 * |ws|
  {
    if ws != [] {
      WordsAt(ws, 0);
    }
  }

  lemma {:induction false} GreedyFour(items: seq<seq<Dep>>, headers: seq<Header>)
    requires Greedy(items, headers)
    ensures AllFour(headers)
  {
    forall h | 0 <= h < |headers| ensures |headers[h].indexes| == INDEX_COUNT_16 {
      HeaderBounds(items, headers, h);
    }
  }

  // ---------- positions ----------

  function SectionStart(c: Contents): nat {
    HEADER_SIZE + 4 * (|c.classes| + |c.literals|)
  }

  function PlanOf(c: Contents, headers: seq<Header>): Plan {
    Plan(c.items, (o: nat, k: nat) => IndexIn(c, headers, o, k), (x: nat) => ProgramPlace(c.programs, x),
         SectionStart(c) + 4 * SectionCount(headers))
  }

  function ProgramsStart(c: Contents, headers: seq<Header>, at: seq<nat>): nat {
    RoundUp(FileLayout.Position(PlanOf(c, headers), at, |c.items|), 4)
  }

  function FileSize(c: Contents, headers: seq<Header>, at: seq<nat>): nat {
    ProgramsStart(c, headers, at) + 4 * |c.programs|
  }

  function IndexWords(c: Contents, headers: seq<Header>, at: seq<nat>, end: nat): seq<nat>
    requires AllFour(headers)
  {
    SectionWords(headers, DepOffset(c, at), SectionStart(c), Numbers(c.items), at + [end])
  }

  function ForeignOffset(c: Contents, at: seq<nat>): nat {
    if c.foreign == 0 || |at| == 0 then 0 else at[0]
  }

  function ForeignSize(c: Contents, headers: seq<Header>, at: seq<nat>): nat
    requires c.foreign <= |c.items|
  {
    if c.foreign == 0 || |at| == 0 then 0
    else
      var pl := PlanOf(c, headers);
      var end := ItemAt(pl, at, c.foreign - 1) + CalculateSize(c.items[c.foreign - 1], EnvOf(pl, at));
      if end < at[0] then 0 else end - at[0]
  }

  function HeaderFields(
    c: Contents, headers: seq<Header>, at: seq<nat>, fileSize: nat, programsStart: nat): (r: seq<nat>)
    requires c.foreign <= |c.items|
    ensures |r| == 11
  {
    [fileSize, ForeignOffset(c, at), ForeignSize(c, headers, at),
     |c.classes|, HEADER_SIZE, |c.programs|, programsStart,
     |c.literals|, HEADER_SIZE + 4 * |c.classes|, |headers|, SectionStart(c)]
  }

  function HeaderBytes(c: Contents, headers: seq<Header>, at: seq<nat>, fileSize: nat, programsStart: nat): seq<byte>
    requires c.foreign <= |c.items|
  {
    c.magic + Le(0, 4) + c.version + Words(HeaderFields(c, headers, at, fileSize, programsStart))
  }

  // ---------- writing ----------

  /** Everything lies where the layout says, and the file is as long as its header says. */
  ghost predicate Written(c: Contents, headers: seq<Header>, at: seq<nat>, file: seq<byte>)
    requires ValidContents(c)
  {
    var pl := PlanOf(c, headers);
    && AllFour(headers)
    && |file| == FileSize(c, headers, at)
    && Lies(file, 0, HeaderBytes(c, headers, at, |file|, ProgramsStart(c, headers, at)))
    && Lies(file, HEADER_SIZE, Words(WhereAll(at, c.classes)))
    && Lies(file, HEADER_SIZE + 4 * |c.classes|, Words(WhereAll(at, c.literals)))
    && Lies(file, SectionStart(c), Words(IndexWords(c, headers, at, |file|)))
    && (forall i :: 0 <= i < |c.items| ==> Lies(file, ItemAt(pl, at, i), BytesOf(pl, at, i)))
    && Lies(file, ProgramsStart(c, headers, at), Words(WhereAll(at, c.programs)))
  }

  class FileContainer {
    const c: Contents
    var at: seq<nat>
    var headers: seq<Header>
    var programsStart: nat

    constructor (c: Contents)
      ensures this.c == c && |at| == CountOf(c)
    {
      this.c := c;
      at := seq(CountOf(c), _ => 0);
      headers := [];
      programsStart := 0;
    }

    /**
      Numbers all items, divides them into regions and assigns all offsets anew, starting from those
      that the last layout left. It fails only if some item has too many dependencies for a region.
     */
    method ComputeLayout() returns (ok: bool, size: nat)
      requires ValidContents(c) && |at| == CountOf(c)
      modifies this
      ensures |at| == CountOf(c)
      ensures ok <==> forall i :: 0 <= i < |c.items| ==> FitsAlone(AllDeps(c.items), i)
      ensures ok ==> Greedy(AllDeps(c.items), headers)
      ensures ok ==>
        && at == Assign(PlanOf(c, headers), old(at), |c.items|).0
        && programsStart == RoundUp(Assign(PlanOf(c, headers), old(at), |c.items|).1, 4)
        && size == programsStart + 4 * |c.programs|
    {
      hide AllValid, Assign, RoundUp, Greedy, FitsAlone, AllDeps, First, SectionCount;
      var first := UpdateOrderIndexes(Entities.Members(c.items));
      NumbersOnly(c.items, first);
      AllDepsValid(c.items);
      var section := new Section();
      ok := section.RebuildIndexSection(AllDeps(c.items));
      size := 0;
      if !ok {
        return;
      }
      headers := section.headers;
      var end;
      at, end := ComputeOffsets(PlanOf(c, headers), at);
      programsStart := RoundUp(end, 4);
      size := programsStart + 4 * |c.programs|;
    }

    /**
      Items are written one after the other, each at the next aligned position. This is where the layout
      put them, and the table of programs after them, exactly if the layout is settled; then the whole
      file is as planned.
     */
    method Write() returns (ok: bool, file: seq<byte>)
      requires ValidContents(c) && |at| == CountOf(c)
      modifies this
      ensures |at| == CountOf(c)
      ensures ok <==> forall i :: 0 <= i < |c.items| ==> FitsAlone(AllDeps(c.items), i)
      ensures ok ==> Greedy(AllDeps(c.items), headers) && at == Assign(PlanOf(c, headers), old(at), |c.items|).0
      ensures ok ==> AllLie(PlanOf(c, headers), at, file)
      ensures ok ==>
        (Settled(PlanOf(c, headers), old(at)) <==>
          LaidOut(PlanOf(c, headers), at, |c.items|) && programsStart == ProgramsStart(c, headers, at))
      ensures ok && Settled(PlanOf(c, headers), old(at)) ==> Written(c, headers, at, file)
    {
      hide AllValid, LaidOut, FileLayout.Position, RoundUp, HeaderBytes, Words, IndexWords, BytesOf, Lies, SectionCount,
        Assign, Greedy, FitsAlone, AllDeps, First, Settled, IndexIn, Alignment;
      ghost var stale := at;
      var size;
      ok, size := ComputeLayout();
      file := [];
      if !ok {
        return;
      }
      GreedyFour(AllDeps(c.items), headers);
      var head := HeaderBytes(c, headers, at, size, programsStart);
      var classes := Words(WhereAll(at, c.classes));
      var literals := Words(WhereAll(at, c.literals));
      var index := Words(IndexWords(c, headers, at, size));
      PartsLength(c, headers, at, size, programsStart);
      var start := head + classes + literals + index;
      var body := WriteItems(start, PlanOf(c, headers), at);
      var aligned := Align(body, 4);
      var programs := Words(WhereAll(at, c.programs));
      file := aligned + programs;
      BodyLies(PlanOf(c, headers), at, body, aligned, programs);
      LayoutExactly(PlanOf(c, headers), stale);
      if Settled(PlanOf(c, headers), stale) {
        WordsLength(WhereAll(at, c.programs));
        AllParts(c, headers, at, file, head, classes, literals, index, body, aligned, programs);
      }
    }
  }

  /** Every item is in the file, at the next aligned position after the one before it. */
  ghost predicate AllLie(pl: Plan, at: seq<nat>, file: seq<byte>) {
    forall i :: 0 <= i < |pl.items| ==>
      Lies(file, RoundUp(FileLayout.Position(pl, at, i), Alignment(pl.items[i])), BytesOf(pl, at, i))
  }

  lemma {:induction false} BodyLies(
    pl: Plan, at: seq<nat>, body: seq<byte>, aligned: seq<byte>, programs: seq<byte>)
    requires AllLie(pl, at, body) && |body| <= |aligned| && aligned[..|body|] == body
    ensures AllLie(pl, at, aligned + programs)
  {
    hide FileLayout.Position, RoundUp, BytesOf, Lies, Alignment;
    var file := aligned + programs;
    assert file[..|body|] == aligned[..|body|];
    forall i | 0 <= i < |pl.items|
      ensures Lies(file, RoundUp(FileLayout.Position(pl, at, i), Alignment(pl.items[i])), BytesOf(pl, at, i))
    {
      StillLies(body, file, RoundUp(FileLayout.Position(pl, at, i), Alignment(pl.items[i])), BytesOf(pl, at, i));
    }
  }

  lemma {:induction false} PartsLength(c: Contents, headers: seq<Header>, at: seq<nat>, size: nat, programsStart: nat)
    requires ValidContents(c) && AllFour(headers)
    ensures |HeaderBytes(c, headers, at, size, programsStart)| == HEADER_SIZE
    ensures |Words(WhereAll(at, c.classes))| == 4 * |c.classes|
    ensures |Words(WhereAll(at, c.literals))| == 4 * |c.literals|
    ensures |Words(IndexWords(c, headers, at, size))| == 4 * SectionCount(headers)
  {
    hide Words, SectionCount, AllValid, SectionWords, ForeignSize, Numbers;
    WordsLength(HeaderFields(c, headers, at, size, programsStart));
    WordsLength(WhereAll(at, c.classes));
    WordsLength(WhereAll(at, c.literals));
    WordsLength(IndexWords(c, headers, at, size));
    SectionLength(headers, DepOffset(c, at), SectionStart(c), Numbers(c.items), at + [size]);
  }

  /** Parts written one after the other stay where they are. */
  lemma {:induction false} AllParts(
    c: Contents, headers: seq<Header>, at: seq<nat>, file: seq<byte>, head: seq<byte>, classes: seq<byte>,
    literals: seq<byte>, index: seq<byte>, body: seq<byte>, aligned: seq<byte>, programs: seq<byte>)
    requires ValidContents(c) && |at| == CountOf(c) && AllFour(headers) && LaidOut(PlanOf(c, headers), at, |c.items|)
    requires head == HeaderBytes(c, headers, at, FileSize(c, headers, at), ProgramsStart(c, headers, at))
    requires |head| == HEADER_SIZE
    requires classes == Words(WhereAll(at, c.classes)) && |classes| == 4 * |c.classes|
    requires literals == Words(WhereAll(at, c.literals)) && |literals| == 4 * |c.literals|
    requires index == Words(IndexWords(c, headers, at, FileSize(c, headers, at)))
    requires |head + classes + literals + index| <= |body|
    requires body[..|head + classes + literals + index|] == head + classes + literals + index
    requires forall i :: 0 <= i < |c.items| ==>
      Lies(body, RoundUp(FileLayout.Position(PlanOf(c, headers), at, i), Alignment(c.items[i])),
           BytesOf(PlanOf(c, headers), at, i))
    requires |body| <= |aligned| == ProgramsStart(c, headers, at) && aligned[..|body|] == body
    requires programs == Words(WhereAll(at, c.programs)) && file == aligned + programs
    requires |file| == FileSize(c, headers, at)
    ensures Written(c, headers, at, file)
  {
    hide AllValid, HeaderBytes, Words, IndexWords, BytesOf, Lies, ProgramsStart, FileSize, SectionCount, LaidOut,
      PlanOf, First, RoundUp, FileLayout.Position, ItemAt, Alignment;
    var start := head + classes + literals + index;
    LiesAtEnd([], head);
    assert [] + head == head;
    LiesAtEnd(head, classes);
    LiesAtEnd(head + classes, literals);
    LiesAtEnd(head + classes + literals, index);
    assert file[..|aligned|] == aligned;
    assert file[..|body|] == aligned[..|body|] == body;
    assert file[..|start|] == body[..|start|] == start;
    assert start[..|head|] == head && start[..|head + classes|] == head + classes
      && start[..|head + classes + literals|] == head + classes + literals;
    assert file[..|head|] == start[..|head|];
    assert file[..|head + classes|] == start[..|head + classes|];
    assert file[..|head + classes + literals|] == start[..|head + classes + literals|];
    StillLies(head, file, 0, head);
    StillLies(head + classes, file, |head|, classes);
    StillLies(head + classes + literals, file, |head + classes|, literals);
    StillLies(start, file, |head + classes + literals|, index);
    ItemsOf(c, headers);
    forall i | 0 <= i < |c.items|
      ensures Lies(file, ItemAt(PlanOf(c, headers), at, i), BytesOf(PlanOf(c, headers), at, i))
    {
      ItemIsAt(PlanOf(c, headers), at, i);
      StillLies(body, file, ItemAt(PlanOf(c, headers), at, i), BytesOf(PlanOf(c, headers), at, i));
    }
    LiesAtEnd(aligned, programs);
  }

  lemma {:induction false} ItemsOf(c: Contents, headers: seq<Header>)
    ensures PlanOf(c, headers).items == c.items
    ensures PlanOf(c, headers).base == SectionStart(c) + 4 * SectionCount(headers)
    ensures forall o: nat, k: nat :: PlanOf(c, headers).index(o, k) == IndexIn(c, headers, o, k)
    ensures forall x: nat :: PlanOf(c, headers).programs(x) == ProgramPlace(c.programs, x)
  {
    hide IndexIn, SectionCount;
  }
}
