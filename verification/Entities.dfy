/**
  Entities of a file: items and the members of classes, in the order of their numbers. The layout
  gives them increasing offsets, so that a region of numbers is a region of offsets.
 */
module Entities {
  import opened Bytes
  import opened FieldAccessor
  import opened MethodAccessor
  import opened ClassAccessor
  import opened IndexRegions
  import opened FileItems
  import opened FileLayout
  import opened IndexResolution

  // ---------- numbers ----------

  function Members(items: seq<FileItem>): (r: seq<nat>)
    ensures |r| == |items| && forall i :: 0 <= i < |items| ==> r[i] == MembersOf(items[i])
  {
    seq(|items|, i requires 0 <= i < |items| => MembersOf(items[i]))
  }

  /** The numbers of all items, and of the end mark. */
  function Numbers(items: seq<FileItem>): (r: seq<nat>)
    ensures |r| == |items| + 1 && forall i :: 0 <= i < |r| ==> r[i] == First(items, i)
  {
    seq(|items| + 1, i requires 0 <= i <= |items| => First(items, i))
  }

  lemma {:induction false} NumbersAreNumbering(items: seq<FileItem>)
    ensures Numbering(Members(items), Numbers(items))
  {
    forall j | 0 < j <= |items| ensures First(items, j) == First(items, j - 1) + 1 + Members(items)[j - 1] {
    }
  }

  lemma {:induction false} NumberingUnique(members: seq<nat>, a: seq<nat>, b: seq<nat>, n: nat)
    requires Numbering(members, a) && Numbering(members, b) && n <= |members|
    ensures a[..n + 1] == b[..n + 1]
  {
    if n > 0 {
      NumberingUnique(members, a, b, n - 1);
      assert a[..n][n - 1] == b[..n][n - 1];
      assert a[..n + 1] == a[..n] + [a[n]] && b[..n + 1] == b[..n] + [b[n]];
    }
  }

  /** So the numbers that updating gives are these. */
  lemma {:induction false} NumbersOnly(items: seq<FileItem>, first: seq<nat>)
    requires Numbering(Members(items), first)
    ensures first == Numbers(items)
  {
    NumbersAreNumbering(items);
    NumberingUnique(Members(items), first, Numbers(items), |items|);
    assert first[..|items| + 1] == first && Numbers(items)[..|items| + 1] == Numbers(items);
  }

  // ---------- dependencies ----------

  function Flat(deps: seq<seq<Dep>>): seq<Dep> {
    if deps == [] then [] else deps[0] + Flat(deps[1..])
  }

  lemma {:induction false} FlatHas(deps: seq<seq<Dep>>, k: nat, d: Dep)
    requires k < |deps| && d in deps[k]
    ensures d in Flat(deps)
    decreases k
  {
    if k > 0 {
      FlatHas(deps[1..], k - 1, d);
    }
  }

  lemma {:induction false} FlatValid(deps: seq<seq<Dep>>)
    requires forall k :: 0 <= k < |deps| ==> ValidDeps(deps[k])
    ensures ValidDeps(Flat(deps))
  {
    if deps != [] {
      FlatValid(deps[1..]);
    }
  }

  /** What each item asks of its region: its own dependencies and those of its members. */
  function AllDeps(items: seq<FileItem>): (r: seq<seq<Dep>>)
    ensures |r| == |items| && forall i :: 0 <= i < |items| ==> r[i] == Flat(EntityDeps(items[i]))
  {
    seq(|items|, i requires 0 <= i < |items| => Flat(EntityDeps(items[i])))
  }

  lemma {:induction false} AllDepsValid(items: seq<FileItem>)
    requires AllValid(items)
    ensures forall i :: 0 <= i < |items| ==> ValidDeps(AllDeps(items)[i])
  {
    hide EntityDeps, Flat;
    forall i | 0 <= i < |items| ensures ValidDeps(AllDeps(items)[i]) {
      DepsPerEntity(items[i]);
      FlatValid(EntityDeps(items[i]));
    }
  }

  /** The dependencies of each entity of the first n items, by number. */
  function DepsByNumber(items: seq<FileItem>, n: nat): seq<seq<Dep>>
    requires n <= |items|
  {
    if n == 0 then [] else DepsByNumber(items, n - 1) + EntityDeps(items[n - 1])
  }

  lemma {:induction false} DepsCount(items: seq<FileItem>, n: nat)
    requires AllValid(items) && n <= |items|
    ensures |DepsByNumber(items, n)| == First(items, n)
  {
    hide EntityDeps;
    if n > 0 {
      DepsCount(items, n - 1);
      DepsPerEntity(items[n - 1]);
    }
  }

  lemma {:induction false} DepsOfEntity(items: seq<FileItem>, n: nat, i: nat, k: nat)
    requires AllValid(items) && i < n <= |items| && k <= MembersOf(items[i])
    ensures |EntityDeps(items[i])| == 1 + MembersOf(items[i])
    ensures First(items, i) + k < |DepsByNumber(items, n)|
    ensures DepsByNumber(items, n)[First(items, i) + k] == EntityDeps(items[i])[k]
  {
    hide EntityDeps, MembersOf;
    DepsCount(items, n - 1);
    DepsPerEntity(items[i]);
    if i < n - 1 {
      DepsOfEntity(items, n - 1, i, k);
    }
  }

  // ---------- offsets ----------

  lemma {:induction false} FieldsGrow(fields: seq<FieldItem>, i: nat, j: nat)
    requires i < j <= |fields|
    ensures FieldsSize(fields, i) < FieldsSize(fields, j)
  {
    hide CalculateFieldSize;
    FieldSizePositive(fields[j - 1], false);
    if i < j - 1 {
      FieldsGrow(fields, i, j - 1);
    }
  }

  lemma {:induction false} MethodsGrow(methods: seq<MethodItem>, i: nat, j: nat)
    requires i < j <= |methods|
    ensures MethodsSize(methods, i) < MethodsSize(methods, j)
  {
    hide CalculateMethodSize;
    MethodSizePositive(methods[j - 1], false);
    if i < j - 1 {
      MethodsGrow(methods, i, j - 1);
    }
  }

  lemma {:induction false} MembersGrow(c: ClassItem, i: nat, j: nat)
    requires i < j <= |c.fields| + |c.methods|
    ensures MemberOffset(c, i) < MemberOffset(c, j)
  {
    hide FieldsSize, MethodsSize, CalculateSizeWithoutFieldsAndMethods;
    var n := |c.fields|;
    NothingYet(c);
    if i < n {
      FieldsGrow(c.fields, i, if j < n then j else n);
    }
    if n < j {
      MethodsGrow(c.methods, if i < n then 0 else i - n, j - n);
    }
  }

  lemma {:induction false} NothingYet(c: ClassItem)
    ensures FieldsSize(c.fields, 0) == 0 && MethodsSize(c.methods, 0) == 0
  {
  }

  lemma {:induction false} HeadTakesRoom(c: ClassItem)
    ensures CalculateSizeWithoutFieldsAndMethods(c) > 0
  {
  }

  lemma {:induction false} AfterMembers(c: ClassItem)
    ensures MemberOffset(c, |c.fields| + |c.methods|) == CalculateClassSize(c)
  {
    hide CalculateSizeWithoutFieldsAndMethods, FieldsSize, MethodsSize;
  }

  lemma {:induction false} AfterHead(c: ClassItem, k: nat)
    requires k <= |c.fields| + |c.methods|
    ensures MemberOffset(c, k) >= CalculateSizeWithoutFieldsAndMethods(c)
  {
    hide CalculateSizeWithoutFieldsAndMethods, FieldsSize, MethodsSize;
  }

  /** Every valid item writes something; a class exactly what its members are laid out in. */
  lemma {:induction false} WritesSomething(it: FileItem, o: nat, e: Env)
    requires ValidItem(it)
    ensures |ItemBytes(it, o, e)| > 0
    ensures it.ClassI? ==> |ItemBytes(it, o, e)| == CalculateClassSize(it.c)
  {
    if it.ArrayI? {
      hide ValueItems.ElementsBytes;
    } else {
      hide ItemBytes, CalculateClassSize;
      SizePositive(it, e);
      ItemSizeExactly(it, o, e);
      ClassSize(it, e);
    }
  }

  lemma {:induction false} ClassSize(it: FileItem, e: Env)
    ensures it.ClassI? ==> CalculateSize(it, e) == CalculateClassSize(it.c)
  {
  }

  /** Entities of one item lie inside it, in order. */
  lemma {:induction false} BlockGrows(it: FileItem, o: nat, e: Env, p: nat, i: nat, j: nat)
    requires ValidItem(it) && i < j <= 1 + MembersOf(it)
    ensures j <= MembersOf(it) ==> EntityOffset(it, p, i) < EntityOffset(it, p, j)
    ensures p <= EntityOffset(it, p, i) < p + |ItemBytes(it, o, e)|
  {
    hide CalculateSizeWithoutFieldsAndMethods, FieldsSize, MethodsSize, MemberOffset, ItemBytes, ValidItem,
      CalculateClassSize;
    WritesSomething(it, o, e);
    if it.ClassI? {
      HeadTakesRoom(it.c);
      AfterMembers(it.c);
      if i > 0 {
        if j <= MembersOf(it) {
          MembersGrow(it.c, i - 1, j - 1);
        }
        MembersGrow(it.c, i - 1, MembersOf(it));
      } else if j <= MembersOf(it) {
        AfterHead(it.c, j - 1);
      }
    }
  }

  ghost predicate Within(e: seq<nat>, lo: nat, hi: nat) {
    Increasing(e) && forall a :: 0 <= a < |e| ==> lo <= e[a] < hi
  }

  lemma {:induction false} BlockWithin(it: FileItem, o: nat, e: Env, p: nat)
    requires ValidItem(it)
    ensures Within(Block(it, p), p, p + |ItemBytes(it, o, e)|)
  {
    hide EntityOffset, ItemBytes, ValidItem, MembersOf;
    var block := Block(it, p);
    forall a | 0 <= a < |block| ensures p <= block[a] < p + |ItemBytes(it, o, e)| {
      BlockGrows(it, o, e, p, a, a + 1);
    }
    forall a, b | 0 <= a < b < |block| ensures block[a] < block[b] {
      BlockGrows(it, o, e, p, a, b);
    }
  }

  lemma {:induction false} WithinAppend(before: seq<nat>, block: seq<nat>, lo: nat, mid: nat, p: nat, hi: nat)
    requires Within(before, lo, mid) && Within(block, p, hi) && lo <= mid <= p <= hi
    ensures Within(before + block, lo, hi)
  {
  }

  /** The entities of the first n items are in order, and lie before the position after them. */
  lemma {:induction false} EntitiesGrow(pl: Plan, at: seq<nat>, n: nat)
    requires AllValid(pl.items) && LaidOut(pl, at, |pl.items|) && n <= |pl.items| && |at| == Count(pl)
    ensures First(pl.items, n) <= |at|
    ensures Within(at[..First(pl.items, n)], pl.base, FileLayout.Position(pl, at, n))
  {
    hide FileLayout.Position, ItemBytes, Block, First, MembersOf, Alignment, RoundUp, LaidOut, PlacedAt, Within,
      ValidItem;
    if n < |pl.items| {
      FirstGrows(pl.items, n, |pl.items|);
    }
    if n == 0 {
      NoneFirst(pl.items);
      NoneWithin(pl.base, FileLayout.Position(pl, at, 0));
      assert at[..0] == [];
    } else {
      EntitiesGrow(pl, at, n - 1);
      var it, o := pl.items[n - 1], First(pl.items, n - 1);
      FirstGrows(pl.items, n - 1, n);
      var start := FileLayout.Position(pl, at, n - 1);
      var p := RoundUp(start, Alignment(it));
      PositionSteps(pl, at, n - 1);
      PositionFromBase(pl, at, n - 1);
      BlockWithin(it, o, EnvOf(pl, at), p);
      WithinAppend(at[..o], Block(it, p), pl.base, start, p, FileLayout.Position(pl, at, n));
      LaidOutAt(pl, at, n - 1);
      PlacedPrefix(pl.items, at, n - 1, p);
    }
  }

  lemma {:induction false} NoneWithin(lo: nat, hi: nat)
    ensures Within([], lo, hi)
  {
  }

  lemma {:induction false} LaidOutAt(pl: Plan, at: seq<nat>, i: nat)
    requires LaidOut(pl, at, |pl.items|) && i < |pl.items|
    ensures PlacedAt(pl.items, at, i, RoundUp(FileLayout.Position(pl, at, i), Alignment(pl.items[i])))
  {
  }

  lemma {:induction false} PlacedPrefix(items: seq<FileItem>, at: seq<nat>, i: nat, p: nat)
    requires i < |items| && PlacedAt(items, at, i, p)
    ensures First(items, i) <= First(items, i + 1) <= |at|
    ensures at[..First(items, i + 1)] == at[..First(items, i)] + Block(items[i], p)
  {
    hide Block;
  }

  lemma {:induction false} NoneFirst(items: seq<FileItem>)
    ensures First(items, 0) == 0
  {
  }

  /** With the end of the file as end mark, all numbered offsets increase. */
  lemma {:induction false} AllIncrease(pl: Plan, at: seq<nat>, end: nat)
    requires AllValid(pl.items) && LaidOut(pl, at, |pl.items|) && |at| == Count(pl)
    requires end >= FileLayout.Position(pl, at, |pl.items|)
    ensures Increasing(at + [end])
    ensures forall a :: 0 <= a < |at| ==> pl.base <= at[a] < end
  {
    hide FileLayout.Position, First, LaidOut, AllValid;
    EntitiesGrow(pl, at, |pl.items|);
    assert at[..First(pl.items, |pl.items|)] == at;
  }
}
