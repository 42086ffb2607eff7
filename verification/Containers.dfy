/**
  The items of a container, emitted or not. Items refer to each other as objects; what is laid out and
  written are the emitted ones, numbered anew. Dropping items never brings a name behind the item that
  is sized by it.
 */
module Containers {
  import opened Bytes
  import opened Isa
  import opened FieldAccessor
  import opened MethodAccessor
  import opened ClassAccessor
  import opened DedupState
  import opened IndexRegions
  import opened ValueItems
  import opened FileItems
  import opened FileLayout
  import opened FileWriter
  import opened IndexSection
  import opened Entities

  /** An item as it was created; its links go by the numbers of all items, emitted or not. */
  datatype Slot = Slot(it: FileItem, emit: bool)

  // ---------- links under another numbering ----------

  function MapAll(links: seq<nat>, f: nat -> nat): (r: seq<nat>)
    ensures |r| == |links| && forall i :: 0 <= i < |r| ==> r[i] == f(links[i])
  {
    seq<nat>(|links|, i requires 0 <= i < |links| => f(links[i]))
  }

  function MapOption(link: Option<nat>, f: nat -> nat): (r: Option<nat>)
    ensures r.Some? <==> link.Some?
  {
    match link case None => None case Some(x) => Some(f(x))
  }

  function MapField(d: FieldItem, linked: bool, f: nat -> nat): FieldItem {
    d.(name := f(d.name),
       value := if linked && d.value.WordValue? then WordValue(f(d.value.w)) else d.value,
       runtimeAnnotations := MapAll(d.runtimeAnnotations, f), annotations := MapAll(d.annotations, f))
  }

  function MapMethod(m: MethodItem, f: nat -> nat): MethodItem {
    m.(name := f(m.name), code := MapOption(m.code, f), runtimeAnnotations := MapAll(m.runtimeAnnotations, f),
       runtimeParam := MapOption(m.runtimeParam, f), debug := MapOption(m.debug, f),
       annotations := MapAll(m.annotations, f), param := MapOption(m.param, f))
  }

  function MapFields(ds: seq<FieldItem>, linked: set<nat>, f: nat -> nat): (r: seq<FieldItem>)
    ensures |r| == |ds| && forall i :: 0 <= i < |r| ==> r[i] == MapField(ds[i], i in linked, f)
  {
    seq(|ds|, i requires 0 <= i < |ds| => MapField(ds[i], i in linked, f))
  }

  function MapMethods(ms: seq<MethodItem>, f: nat -> nat): (r: seq<MethodItem>)
    ensures |r| == |ms| && forall i :: 0 <= i < |r| ==> r[i] == MapMethod(ms[i], f)
  {
    seq(|ms|, i requires 0 <= i < |ms| => MapMethod(ms[i], f))
  }

  function MapClass(c: ClassItem, linked: set<nat>, f: nat -> nat): ClassItem {
    c.(super := f(c.super), runtimeAnnotations := MapAll(c.runtimeAnnotations, f),
       annotations := MapAll(c.annotations, f), sourceFile := MapOption(c.sourceFile, f),
       fields := MapFields(c.fields, linked, f), methods := MapMethods(c.methods, f))
  }

  function MapScalar(s: ScalarValue, f: nat -> nat): ScalarValue {
    if s.IdValue? then IdValue(f(s.link)) else s
  }

  function MapScalars(vs: seq<ScalarValue>, f: nat -> nat): (r: seq<ScalarValue>)
    ensures |r| == |vs| && forall i :: 0 <= i < |r| ==> r[i] == MapScalar(vs[i], f)
  {
    seq(|vs|, i requires 0 <= i < |vs| => MapScalar(vs[i], f))
  }

  function MapElement(e: AnnotationElement, f: nat -> nat): AnnotationElement {
    AnnotationElement(f(e.name), if e.value.Apart? then ElementValue.Apart(f(e.value.link)) else e.value)
  }

  function MapLiteral(l: Literal, f: nat -> nat): Literal {
    match l
    case StringLiteral(x) => StringLiteral(f(x))
    case MethodLiteral(x) => MethodLiteral(f(x))
    case _ => l
  }

  /** The number of the method that code was written for is one less than a link to it. */
  function MapOwner(owner: nat, f: nat -> nat): nat {
    if f(owner + 1) > 0 then f(owner + 1) - 1 else owner
  }

  function MapLinks(it: FileItem, f: nat -> nat): FileItem {
    match it
    case ClassI(c, linked, deps) => ClassI(MapClass(c, linked, f), linked, deps)
    case ForeignMethodI(m, own) => ForeignMethodI(MapMethod(m, f), own)
    case ForeignFieldI(d, own) => ForeignFieldI(MapField(d, false, f), own)
    case CodeI(c, owner) => CodeI(c, MapOwner(owner, f))
    case DebugI(d) => DebugI(d.(params := MapAll(d.params, f), program := f(d.program)))
    case HandleI(k, x) => HandleI(k, f(x))
    case ScalarI(v) => ScalarI(MapScalar(v, f))
    case ArrayI(c, vs) => ArrayI(c, MapScalars(vs, f))
    case AnnotationI(cls, es, tags) =>
      AnnotationI(cls, seq(|es|, i requires 0 <= i < |es| => MapElement(es[i], f)), tags)
    case ParamAnnotationsI(ps) => ParamAnnotationsI(seq(|ps|, i requires 0 <= i < |ps| => MapAll(ps[i], f)))
    case LiteralsI(ls) => LiteralsI(seq(|ls|, i requires 0 <= i < |ls| => MapLiteral(ls[i], f)))
    case _ => it
  }

  /** Another numbering changes neither what an item is nor what it has. */
  lemma {:induction false} MapKeeps(it: FileItem, f: nat -> nat)
    ensures MembersOf(MapLinks(it, f)) == MembersOf(it) && Alignment(MapLinks(it, f)) == Alignment(it)
    ensures ValidItem(it) ==> ValidItem(MapLinks(it, f))
    ensures Sized(MapLinks(it, f)) <==> Sized(it)
    ensures EntityDeps(MapLinks(it, f)) == EntityDeps(it)
  {
    hide MapField, MapMethod;
    if it.ArrayI? {
      ScalarsKeep(it.component, it.values, f);
    }
  }

  lemma {:induction false} ScalarsKeep(c: Component, vs: seq<ScalarValue>, f: nat -> nat)
    ensures ValidArray(c, vs) ==> ValidArray(c, MapScalars(vs, f))
    ensures WidthsMatch(c, MapScalars(vs, f)) <==> WidthsMatch(c, vs)
  {
    var r := MapScalars(vs, f);
    forall i | 0 <= i < |vs|
      ensures ScalarSize(r[i]) == ScalarSize(vs[i]) && (r[i].IntegerValue? <==> vs[i].IntegerValue?)
    {
    }
  }

  // ---------- the emitted items ----------

  function Items(slots: seq<Slot>): (r: seq<FileItem>)
    ensures |r| == |slots| && forall i :: 0 <= i < |r| ==> r[i] == slots[i].it
  {
    seq(|slots|, i requires 0 <= i < |slots| => slots[i].it)
  }

  /** The number of slot n among all. */
  function SlotFirst(slots: seq<Slot>, n: nat): nat
    requires n <= |slots|
  {
    if n == 0 then 0 else SlotFirst(slots, n - 1) + 1 + MembersOf(slots[n - 1].it)
  }

  function Min(a: nat, b: nat): nat {
    if a < b then a else b
  }

  /** How many of the first x numbers of the first n slots are emitted. */
  function Rank(slots: seq<Slot>, n: nat, x: nat): nat
    requires n <= |slots|
  {
    if n == 0 then 0
    else if x <= SlotFirst(slots, n - 1) then Rank(slots, n - 1, x)
    else
      Rank(slots, n - 1, SlotFirst(slots, n - 1))
      + if slots[n - 1].emit then Min(x - SlotFirst(slots, n - 1), 1 + MembersOf(slots[n - 1].it)) else 0
  }

  /** A link to an emitted item or member, by its number among the emitted; a link to another one leads nowhere. */
  function Renumber(slots: seq<Slot>, x: nat): nat {
    if x > 0 && Rank(slots, |slots|, x) == Rank(slots, |slots|, x - 1) + 1 then Rank(slots, |slots|, x) else 0
  }

  function Renumbered(slots: seq<Slot>): nat -> nat {
    (x: nat) => Renumber(slots, x)
  }

  function Kept(slots: seq<Slot>, f: nat -> nat, n: nat): seq<FileItem>
    requires n <= |slots|
  {
    if n == 0 then []
    else Kept(slots, f, n - 1) + if slots[n - 1].emit then [MapLinks(slots[n - 1].it, f)] else []
  }

  function EmittedItems(slots: seq<Slot>): seq<FileItem> {
    Kept(slots, Renumbered(slots), |slots|)
  }

  /** Offsets of the emitted ones among those of all. */
  function Gather(slots: seq<Slot>, full: seq<nat>, n: nat): seq<nat>
    requires n <= |slots| && SlotFirst(slots, n) <= |full|
  {
    if n == 0 then []
    else
      Gather(slots, full, n - 1)
      + if slots[n - 1].emit then full[SlotFirst(slots, n - 1)..SlotFirst(slots, n)] else []
  }

  /** Offsets of all after a layout of the emitted ones; the others keep those they had. */
  function Scatter(slots: seq<Slot>, full: seq<nat>, at: seq<nat>, n: nat): (r: seq<nat>)
    requires n <= |slots| && SlotFirst(slots, n) <= |full|
  {
    if n == 0 then []
    else
      var o, o' := SlotFirst(slots, n - 1), SlotFirst(slots, n);
      var p := Rank(slots, n - 1, o);
      Scatter(slots, full, at, n - 1)
      + if slots[n - 1].emit && p + (o' - o) <= |at| then at[p..p + (o' - o)] else full[o..o']
  }

  // ---------- ranks ----------

  lemma {:induction false} SlotFirstIs(slots: seq<Slot>, n: nat)
    requires n <= |slots|
    ensures SlotFirst(slots, n) == First(Items(slots), n)
  {
    if n > 0 {
      SlotFirstIs(slots, n - 1);
    }
  }

  lemma {:induction false} RankGrows(slots: seq<Slot>, n: nat, x: nat, y: nat)
    requires n <= |slots| && x <= y
    ensures Rank(slots, n, x) <= Rank(slots, n, y)
  {
    if n > 0 {
      var f := SlotFirst(slots, n - 1);
      RankGrows(slots, n - 1, x, if x < f then f else x);
      if y <= f {
        RankGrows(slots, n - 1, x, y);
      }
    }
  }

  /** Slots further back do not matter. */
  lemma {:induction false} RankEarlier(slots: seq<Slot>, m: nat, n: nat, x: nat)
    requires m <= n <= |slots| && x <= SlotFirst(slots, m)
    ensures Rank(slots, n, x) == Rank(slots, m, x)
    decreases n
  {
    if m < n {
      SlotFirstGrows(slots, m, n - 1);
      RankEarlier(slots, m, n - 1, x);
    }
  }

  lemma {:induction false} SlotFirstGrows(slots: seq<Slot>, m: nat, n: nat)
    requires m <= n <= |slots|
    ensures SlotFirst(slots, m) <= SlotFirst(slots, n)
    decreases n
  {
    if m < n {
      SlotFirstGrows(slots, m, n - 1);
    }
  }

  lemma {:induction false} KeptStep(slots: seq<Slot>, f: nat -> nat, n: nat)
    requires n < |slots|
    ensures Kept(slots, f, n + 1) ==
      if slots[n].emit then Kept(slots, f, n) + [MapLinks(slots[n].it, f)] else Kept(slots, f, n)
  {
    hide MapLinks;
    assert Kept(slots, f, n) + [] == Kept(slots, f, n);
  }

  /** The number of an item among the emitted ones is its rank. */
  lemma {:induction false} KeptFirst(slots: seq<Slot>, f: nat -> nat, n: nat)
    requires n <= |slots|
    ensures First(Kept(slots, f, n), |Kept(slots, f, n)|) == Rank(slots, n, SlotFirst(slots, n))
  {
    hide MapLinks, MembersOf;
    if n > 0 {
      KeptStep(slots, f, n - 1);
      KeptFirst(slots, f, n - 1);
      var before, it := Kept(slots, f, n - 1), slots[n - 1].it;
      if slots[n - 1].emit {
        MapKeeps(it, f);
        FirstAppend(before, MapLinks(it, f));
      }
    }
  }

  lemma {:induction false} FirstAppend(items: seq<FileItem>, it: FileItem)
    ensures First(items + [it], |items|) == First(items, |items|)
    ensures First(items + [it], |items| + 1) == First(items, |items|) + 1 + MembersOf(it)
  {
    FirstPrefix(items, [it], |items|);
  }

  lemma {:induction false} FirstPrefix(items: seq<FileItem>, more: seq<FileItem>, n: nat)
    requires n <= |items|
    ensures First(items + more, n) == First(items, n)
  {
    if n > 0 {
      FirstPrefix(items, more, n - 1);
    }
  }

  /** A name before an item is still before it among the emitted ones. */
  lemma {:induction false} RenumberEarlier(slots: seq<Slot>, i: nat, x: nat)
    requires i <= |slots| && x <= SlotFirst(slots, i)
    ensures Renumber(slots, x) <= Rank(slots, i, SlotFirst(slots, i))
  {
    RankEarlier(slots, i, |slots|, x);
    RankGrows(slots, i, x, SlotFirst(slots, i));
  }

  lemma {:induction false} NamesStayEarlier(slots: seq<Slot>, i: nat)
    requires i < |slots| && NamesEarlier(slots[i].it, SlotFirst(slots, i))
    ensures NamesEarlier(MapLinks(slots[i].it, Renumbered(slots)), Rank(slots, i, SlotFirst(slots, i)))
  {
    hide Rank, Renumber;
    match slots[i].it
    case DebugI(d) =>
      forall k | 0 <= k < |d.params|
        ensures Renumber(slots, d.params[k]) <= Rank(slots, i, SlotFirst(slots, i))
      {
        RenumberEarlier(slots, i, d.params[k]);
      }
    case HandleI(_, x) => RenumberEarlier(slots, i, x);
    case _ =>
  }

  lemma {:induction false} KeptFine(slots: seq<Slot>, n: nat)
    requires n <= |slots| && Fine(Items(slots))
    ensures Fine(Kept(slots, Renumbered(slots), n))
  {
    hide MapLinks, Rank, Renumber, Renumbered, Sized, NamesEarlier, ValidItem, Kept, SlotFirst, First;
    var f := Renumbered(slots);
    if n == 0 {
      NoneKept(slots, f);
    } else {
      KeptFine(slots, n - 1);
      KeptStep(slots, f, n - 1);
      var it := slots[n - 1].it;
      var before := Kept(slots, f, n - 1);
      if slots[n - 1].emit {
        MapKeeps(it, f);
        KeptFirst(slots, f, n - 1);
        SlotFirstIs(slots, n - 1);
        assert Items(slots)[n - 1] == it;
        NamesStayEarlier(slots, n - 1);
        FineAppend(before, MapLinks(it, f));
      }
    }
  }

  lemma {:induction false} NoneKept(slots: seq<Slot>, f: nat -> nat)
    ensures Kept(slots, f, 0) == []
  {
  }

  lemma {:induction false} FineAppend(items: seq<FileItem>, it: FileItem)
    requires Fine(items) && ValidItem(it) && Sized(it) && NamesEarlier(it, First(items, |items|))
    ensures Fine(items + [it])
  {
    hide ValidItem, Sized, NamesEarlier, First;
    var all := items + [it];
    forall i | 0 <= i < |all|
      ensures ValidItem(all[i]) && Sized(all[i]) && NamesEarlier(all[i], First(all, i))
    {
      FirstPrefix(items, [it], if i < |items| then i else |items|);
      if i < |items| {
        assert ValidItem(items[i]) && Sized(items[i]) && NamesEarlier(items[i], First(items, i));
      }
    }
  }

  /** If all names come before the items sized by them, they do so among any of them that are emitted. */
  lemma {:induction false} DropKeepsFine(slots: seq<Slot>)
    requires Fine(Items(slots))
    ensures Fine(EmittedItems(slots))
  {
    KeptFine(slots, |slots|);
  }

  // ---------- all items, or all but one ----------

  ghost predicate AllBut(slots: seq<Slot>, q: nat, n: nat) {
    n <= |slots| && forall i :: 0 <= i < n ==> (slots[i].emit <==> i != q)
  }

  lemma {:induction false} RankAll(slots: seq<Slot>, n: nat, x: nat)
    requires n <= |slots| && forall i :: 0 <= i < n ==> slots[i].emit
    ensures Rank(slots, n, x) == Min(x, SlotFirst(slots, n))
  {
    hide MembersOf;
    if n > 0 {
      RankAll(slots, n - 1, if x <= SlotFirst(slots, n - 1) then x else SlotFirst(slots, n - 1));
    }
  }

  lemma {:induction false} RankDrop(slots: seq<Slot>, q: nat, n: nat, x: nat)
    requires q < n && AllBut(slots, q, n) && x <= SlotFirst(slots, n)
    ensures SlotFirst(slots, q) <= SlotFirst(slots, q + 1)
    ensures Rank(slots, n, x) ==
      if x <= SlotFirst(slots, q) then x
      else if x <= SlotFirst(slots, q + 1) then SlotFirst(slots, q)
      else x - (SlotFirst(slots, q + 1) - SlotFirst(slots, q))
    decreases n
  {
    hide MembersOf;
    if n == q + 1 {
      RankAll(slots, q, if x <= SlotFirst(slots, q) then x else SlotFirst(slots, q));
    } else {
      SlotFirstGrows(slots, q + 1, n - 1);
      RankDrop(slots, q, n - 1, if x <= SlotFirst(slots, n - 1) then x else SlotFirst(slots, n - 1));
    }
  }

  lemma {:induction false} KeptAll(slots: seq<Slot>, f: nat -> nat, n: nat)
    requires n <= |slots| && forall i :: 0 <= i < n ==> slots[i].emit
    ensures |Kept(slots, f, n)| == n && forall i :: 0 <= i < n ==> Kept(slots, f, n)[i] == MapLinks(slots[i].it, f)
  {
    hide MapLinks;
    if n > 0 {
      KeptAll(slots, f, n - 1);
    }
  }

  lemma {:induction false} KeptDrop(slots: seq<Slot>, f: nat -> nat, q: nat, n: nat)
    requires q < n && AllBut(slots, q, n)
    ensures |Kept(slots, f, n)| == n - 1
    ensures forall i :: 0 <= i < n - 1 ==> Kept(slots, f, n)[i] == MapLinks(slots[if i < q then i else i + 1].it, f)
    decreases n
  {
    hide MapLinks;
    if n == q + 1 {
      KeptAll(slots, f, q);
    } else {
      KeptDrop(slots, f, q, n - 1);
    }
  }

  lemma {:induction false} Joined(s: seq<nat>, a: nat, b: nat, c: nat)
    requires a <= b <= c <= |s|
    ensures s[a..b] + s[b..c] == s[a..c]
  {
  }

  lemma {:induction false} GatherSteps(slots: seq<Slot>, full: seq<nat>, n: nat)
    requires 0 < n <= |slots| && SlotFirst(slots, n) <= |full|
    ensures SlotFirst(slots, n - 1) < SlotFirst(slots, n) && Gather(slots, full, 0) == []
    ensures Gather(slots, full, n) == Gather(slots, full, n - 1)
      + if slots[n - 1].emit then full[SlotFirst(slots, n - 1)..SlotFirst(slots, n)] else []
  {
    hide MembersOf;
  }

  lemma {:induction false} GatherAll(slots: seq<Slot>, full: seq<nat>, n: nat)
    requires n <= |slots| && SlotFirst(slots, n) <= |full| && forall i :: 0 <= i < n ==> slots[i].emit
    ensures Gather(slots, full, n) == full[..SlotFirst(slots, n)]
  {
    if n > 0 {
      hide SlotFirst, Gather;
      GatherSteps(slots, full, n);
      GatherAll(slots, full, n - 1);
      Joined(full, 0, SlotFirst(slots, n - 1), SlotFirst(slots, n));
    }
  }

  lemma {:induction false} GatherDrop(slots: seq<Slot>, full: seq<nat>, q: nat, n: nat)
    requires q < n && AllBut(slots, q, n) && SlotFirst(slots, n) <= |full|
    ensures SlotFirst(slots, q) <= SlotFirst(slots, q + 1) <= SlotFirst(slots, n)
    ensures Gather(slots, full, n) == full[..SlotFirst(slots, q)] + full[SlotFirst(slots, q + 1)..SlotFirst(slots, n)]
    decreases n
  {
    hide SlotFirst, Gather;
    GatherSteps(slots, full, n);
    if n == q + 1 {
      GatherAll(slots, full, q);
    } else {
      GatherDrop(slots, full, q, n - 1);
      Joined(full, SlotFirst(slots, q + 1), SlotFirst(slots, n - 1), SlotFirst(slots, n));
    }
  }

  lemma {:induction false} ScatterAll(slots: seq<Slot>, full: seq<nat>, at: seq<nat>, n: nat)
    requires n <= |slots| && SlotFirst(slots, n) <= |full| && SlotFirst(slots, n) <= |at|
    requires forall i :: 0 <= i < n ==> slots[i].emit
    ensures Scatter(slots, full, at, n) == at[..SlotFirst(slots, n)]
  {
    hide MembersOf, Rank;
    if n > 0 {
      ScatterAll(slots, full, at, n - 1);
      RankAll(slots, n - 1, SlotFirst(slots, n - 1));
      Joined(at, 0, SlotFirst(slots, n - 1), SlotFirst(slots, n));
    }
  }

  // ---------- the container ----------

  /** All items, foreign ones first, and what else is written. `objects` says what the object at an address is. */
  datatype Pool = Pool(
    magic: seq<byte>, version: seq<byte>, slots: seq<Slot>, foreign: nat,
    classes: seq<nat>, literals: seq<nat>, programs: seq<nat>, objects: nat -> Target)

  ghost predicate ValidPool(p: Pool) {
    |p.magic| == 8 && |p.version| == 4 && AllValid(Items(p.slots)) && p.foreign <= |p.slots|
  }

  function MapTarget(t: Target, f: nat -> nat): Target {
    if t.Placed? then Placed(MapOwner(t.number, f)) else t
  }

  /** What is laid out and written. */
  function ContentsOf(p: Pool): Contents
    requires p.foreign <= |p.slots|
  {
    var f := Renumbered(p.slots);
    Contents(p.magic, p.version, EmittedItems(p.slots), |Kept(p.slots, f, p.foreign)|,
             MapAll(p.classes, f), MapAll(p.literals, f), MapAll(p.programs, f),
             (x: nat) => MapTarget(p.objects(x), f))
  }

  lemma {:induction false} KeptValid(slots: seq<Slot>, f: nat -> nat, n: nat)
    requires n <= |slots| && AllValid(Items(slots))
    ensures AllValid(Kept(slots, f, n)) && |Kept(slots, f, n)| <= n
  {
    hide MapLinks, ValidItem;
    if n > 0 {
      KeptValid(slots, f, n - 1);
      KeptStep(slots, f, n - 1);
      MapKeeps(slots[n - 1].it, f);
      assert Items(slots)[n - 1] == slots[n - 1].it;
    }
  }

  lemma {:induction false} KeptGrows(slots: seq<Slot>, f: nat -> nat, m: nat, n: nat)
    requires m <= n <= |slots|
    ensures |Kept(slots, f, m)| <= |Kept(slots, f, n)|
    decreases n
  {
    hide MapLinks;
    if m < n {
      KeptGrows(slots, f, m, n - 1);
    }
  }

  lemma {:induction false} ContentsValid(p: Pool)
    requires ValidPool(p)
    ensures ValidContents(ContentsOf(p))
  {
    hide Kept, Renumbered, AllValid;
    KeptValid(p.slots, Renumbered(p.slots), |p.slots|);
    KeptGrows(p.slots, Renumbered(p.slots), p.foreign, |p.slots|);
  }

  lemma {:induction false} GatherLength(slots: seq<Slot>, full: seq<nat>, n: nat)
    requires n <= |slots| && SlotFirst(slots, n) <= |full|
    ensures |Gather(slots, full, n)| == Rank(slots, n, SlotFirst(slots, n))
  {
    hide MembersOf;
    if n > 0 {
      GatherLength(slots, full, n - 1);
    }
  }

  lemma {:induction false} ScatterLength(slots: seq<Slot>, full: seq<nat>, at: seq<nat>, n: nat)
    requires n <= |slots| && SlotFirst(slots, n) <= |full|
    ensures |Scatter(slots, full, at, n)| == SlotFirst(slots, n)
  {
    hide MembersOf, Rank;
    if n > 0 {
      ScatterLength(slots, full, at, n - 1);
    }
  }

  class Container {
    var pool: Pool
    var full: seq<nat>
    var headers: seq<Header>

    ghost predicate Valid()
      reads this
    {
      ValidPool(pool) && |full| == SlotFirst(pool.slots, |pool.slots|)
    }

    /** No item has an offset yet. */
    constructor (pool: Pool)
      requires ValidPool(pool)
      ensures Valid() && this.pool == pool && full == seq(SlotFirst(pool.slots, |pool.slots|), _ => 0)
    {
      this.pool := pool;
      full := seq(SlotFirst(pool.slots, |pool.slots|), _ => 0);
      headers := [];
    }

    /** The offsets that the last layout left to the items which are emitted now. */
    function Stale(): seq<nat>
      requires |full| == SlotFirst(pool.slots, |pool.slots|)
      reads this
    {
      Gather(pool.slots, full, |pool.slots|)
    }

    method Open() returns (c: FileContainer)
      requires Valid()
      ensures fresh(c) && c.c == ContentsOf(pool) && c.at == Stale()
      ensures ValidContents(c.c) && |c.at| == CountOf(c.c)
    {
      ContentsValid(pool);
      GatherLength(pool.slots, full, |pool.slots|);
      KeptFirst(pool.slots, Renumbered(pool.slots), |pool.slots|);
      c := new FileContainer(ContentsOf(pool));
      c.at := Stale();
    }

    /** Lays out the emitted items; the others keep the offsets they have. */
    method ComputeLayout() returns (ok: bool)
      requires Valid()
      modifies this`full, this`headers
      ensures Valid()
      ensures ok <==> FitsRegions(ContentsOf(pool).items)
      ensures ok ==>
        var pl := PlanOf(ContentsOf(pool), headers);
        && Greedy(AllDeps(ContentsOf(pool).items), headers)
        && full == Scatter(pool.slots, old(full), Assign(pl, old(Stale()), |pl.items|).0, |pool.slots|)
    {
      hide Gather, Scatter, Assign, Greedy, ContentsOf, SlotFirst, ValidPool, PlanOf, AllDeps;
      var c := Open();
      var size;
      ok, size := c.ComputeLayout();
      PlanItems(c.c, c.headers);
      if ok {
        ScatterLength(pool.slots, full, c.at, |pool.slots|);
        full := Scatter(pool.slots, full, c.at, |pool.slots|);
        headers := c.headers;
      }
    }

    /** The last layout, and the file. It is right exactly if that layout is settled. */
    method Write() returns (ok: bool, at: seq<nat>, file: seq<byte>)
      requires Valid()
      modifies this`headers
      ensures ok <==> FitsRegions(ContentsOf(pool).items)
      ensures ok ==>
        var pl := PlanOf(ContentsOf(pool), headers);
        && Greedy(AllDeps(ContentsOf(pool).items), headers)
        && at == Assign(pl, Stale(), |pl.items|).0
        && AllLie(pl, at, file)
        && (Settled(pl, Stale()) ==>
              && ValidContents(ContentsOf(pool)) && LaidOut(pl, at, |pl.items|)
              && Written(ContentsOf(pool), headers, at, file))
    {
      hide Gather, Assign, Greedy, ContentsOf, SlotFirst, ValidPool, PlanOf, AllDeps, Written, LaidOut, Settled,
        AllLie;
      var c := Open();
      ok, file := c.Write();
      at, headers := c.at, c.headers;
      PlanItems(c.c, c.headers);
    }
  }

  ghost predicate FitsRegions(items: seq<FileItem>) {
    forall i :: 0 <= i < |items| ==> FitsAlone(AllDeps(items), i)
  }

  lemma {:induction false} PlanItems(c: Contents, headers: seq<Header>)
    ensures PlanOf(c, headers).items == c.items
  {
  }
}
