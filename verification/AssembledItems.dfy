/**
  The order in which the assembler creates items. All names are created with the functions, before any
  debug info, so whatever is dropped later, every layout of an assembled program is right.
 */
module AssembledItems {
  import opened Bytes
  import opened Isa
  import opened CodeFormat
  import opened DedupState
  import opened FileItems
  import opened FileLayout
  import opened FileWriter
  import opened IndexRegions
  import opened IndexSection
  import opened Entities
  import opened Containers

  type Text = seq<byte>

  /** An item by its place in the list of foreign items or in that of all others. */
  datatype Ptr = Foreign(i: nat) | Own(i: nat)

  /** A debug info holds pointers to the names of its parameters, if they have any. */
  datatype Made = Other(it: FileItem) | Debug(d: DebugInfo, names: seq<Option<Ptr>>)

  /** What is created besides code and debug infos; foreign classes and members go to a list of their own. */
  datatype Step =
    | MakeItem(it: FileItem) | MakeString(s: Text) | MakeClass(name: Text, it: FileItem)
    | MakeForeignClass(name: Text, it: FileItem) | MakeForeignItem(it: FileItem)

  datatype Variable = Variable(name: Text, signature: Text, signatureType: Text, isParameter: bool)

  /** A function, and what else is created before its variables, after them, and with its code. */
  datatype Function = Function(
    foreign: bool, implemented: bool, canThrow: bool, params: nat, locals: seq<Variable>,
    before: seq<Step>, after: seq<Step>, annotations: seq<Step>)

  /** Items other than debug infos; method handles are not created by the assembler. */
  ghost predicate Plain(it: FileItem) {
    ValidItem(it) && Sized(it) && !SizedByOffsets(it)
  }

  ghost predicate PlainStep(s: Step) {
    s.MakeString? || Plain(s.it)
  }

  ghost predicate PlainSteps(steps: seq<Step>) {
    forall i :: 0 <= i < |steps| ==> PlainStep(steps[i])
  }

  /** Annotations make values, strings and foreign array classes, but no class of their own. */
  ghost predicate LateSteps(steps: seq<Step>) {
    PlainSteps(steps) && forall i :: 0 <= i < |steps| ==> !steps[i].MakeClass?
  }

  ghost predicate PlainFunction(f: Function) {
    PlainSteps(f.before) && PlainSteps(f.after) && LateSteps(f.annotations)
  }

  ghost predicate PlainFunctions(fs: seq<Function>) {
    forall i :: 0 <= i < |fs| ==> PlainFunction(fs[i])
  }

  /** Every variable has a name and a signature. */
  predicate AllNamed(f: Function) {
    forall k :: 0 <= k < |f.locals| ==> f.locals[k].name != [] && f.locals[k].signature != []
  }

  /** A pointer to something laid out before own item i. */
  predicate Before(p: Ptr, foreign: nat, i: nat) {
    if p.Foreign? then p.i < foreign else p.i < i
  }

  ghost predicate MadeRight(m: Made, foreign: nat, i: nat) {
    match m
    case Other(it) => Plain(it)
    case Debug(_, names) => forall k :: 0 <= k < |names| && names[k].Some? ==> Before(names[k].value, foreign, i)
  }

  /** What the names of the parameters among the first k variables stand for. */
  function Names(locals: seq<Variable>, k: nat, classes: map<Text, Ptr>, strings: map<Text, nat>): seq<Option<Ptr>>
    requires k <= |locals|
  {
    if k == 0 then []
    else
      var s := locals[k - 1].name;
      Names(locals, k - 1, classes, strings)
      + if !locals[k - 1].isParameter then []
        else if s in classes then [Some(classes[s])]
        else if s in strings then [Some(Own(strings[s]))] else [None]
  }

  ghost predicate StartsWith(more: seq<Made>, few: seq<Made>) {
    few <= more
  }

  lemma {:induction false} StartsSame(a: seq<Made>)
    ensures StartsWith(a, a)
  {
  }

  lemma {:induction false} StartsOn(a: seq<Made>, b: seq<Made>, c: seq<Made>)
    requires StartsWith(b, a) && StartsWith(c, b)
    ensures StartsWith(c, a) && |a| <= |b| <= |c|
  {
  }

  class Assembler {
    const length: Text -> nat
    var foreign: seq<FileItem>
    var own: seq<Made>
    var classes: map<Text, Ptr>
    var strings: map<Text, nat>

    /** Everything created is plain, and debug infos name only what comes before them. */
    ghost predicate Valid()
      reads this
    {
      && (forall i :: 0 <= i < |foreign| ==> Plain(foreign[i]))
      && (forall i :: 0 <= i < |own| ==> MadeRight(own[i], |foreign|, i))
      && (forall s :: s in classes ==> Before(classes[s], |foreign|, |own|))
      && (forall s :: s in strings ==> strings[s] < |own|)
    }

    predicate Known(s: Text)
      reads this
    {
      s in classes || s in strings
    }

    /** What is known by a name is one of the first n own items, or foreign; and so are all classes. */
    predicate KnownEarly(s: Text, n: nat)
      reads this
    {
      s in classes || (s in strings && strings[s] < n)
    }

    ghost predicate ClassesEarly(n: nat)
      reads this
    {
      forall s :: s in classes ==> classes[s].Foreign? || classes[s].i < n
    }

    constructor (length: Text -> nat)
      ensures Valid() && foreign == [] && own == [] && classes == map[] && strings == map[]
    {
      this.length := length;
      foreign, own, classes, strings := [], [], map[], map[];
    }

    /** Nothing is forgotten. */
    twostate predicate Grown()
      reads this
    {
      && StartsWith(own, old(own)) && old(|foreign|) <= |foreign|
      && (forall s :: s in old(classes) ==> s in classes && classes[s] == old(classes)[s])
      && (forall s :: s in old(strings) ==> s in strings && strings[s] == old(strings)[s])
    }

    method AddOwn(it: FileItem)
      requires Valid() && Plain(it)
      modifies `own
      ensures Valid() && own == old(own) + [Other(it)]
    {
      hide Plain;
      own := own + [Other(it)];
    }

    method GetOrCreateStringItem(s: Text) returns (p: Ptr)
      requires Valid()
      modifies `own, `strings
      ensures Valid() && Grown() && Known(s)
      ensures p == if s in classes then classes[s] else Own(strings[s])
      ensures old(Known(s)) ==> own == old(own) && strings == old(strings)
    {
      if s in classes {
        return classes[s];
      }
      if s !in strings {
        AddOwn(StringI(length(s), s));
        strings := strings[s := |own| - 1];
      }
      return Own(strings[s]);
    }

    method GetOrCreateClassItem(name: Text, it: FileItem)
      requires Valid() && Plain(it)
      modifies `own, `classes
      ensures Valid() && Grown()
    {
      if name !in classes {
        AddOwn(it);
        classes := classes[name := Own(|own| - 1)];
      }
    }

    method AddForeign(it: FileItem)
      requires Valid() && Plain(it)
      modifies `foreign
      ensures Valid() && foreign == old(foreign) + [it]
    {
      hide Plain;
      foreign := foreign + [it];
      forall i | 0 <= i < |own| ensures MadeRight(own[i], |foreign|, i) {
        assert MadeRight(own[i], |foreign| - 1, i);
      }
    }

    method GetOrCreateForeignClassItem(name: Text, it: FileItem)
      requires Valid() && Plain(it)
      modifies `foreign, `classes
      ensures Valid() && Grown() && own == old(own)
      ensures forall s :: s in classes && s !in old(classes) ==> classes[s].Foreign?
    {
      if name !in classes {
        AddForeign(it);
        classes := classes[name := Foreign(|foreign| - 1)];
      }
    }

    method Take(step: Step)
      requires Valid() && PlainStep(step)
      modifies this
      ensures Valid() && Grown()
      ensures !step.MakeClass? ==> forall s :: s in classes && s !in old(classes) ==> classes[s].Foreign?
    {
      hide Plain;
      match step {
        case MakeItem(it) => AddOwn(it);
        case MakeString(s) =>
          var p := GetOrCreateStringItem(s);
        case MakeClass(name, it) => GetOrCreateClassItem(name, it);
        case MakeForeignClass(name, it) => GetOrCreateForeignClassItem(name, it);
        case MakeForeignItem(it) => AddForeign(it);
      }
    }

    method TakeAll(steps: seq<Step>)
      requires Valid() && PlainSteps(steps)
      modifies this
      ensures Valid() && Grown()
      ensures LateSteps(steps) ==> forall s :: s in classes && s !in old(classes) ==> classes[s].Foreign?
    {
      hide PlainStep, Valid, StartsWith;
      StartsSame(own);
      for i := 0 to |steps|
        invariant Valid() && Grown()
        invariant LateSteps(steps) ==> forall s :: s in classes && s !in old(classes) ==> classes[s].Foreign?
      {
        ghost var mid := own;
        Take(steps[i]);
        StartsOn(old(own), mid, own);
      }
    }

    /** The names of all variables exist from here on. */
    method HandleFunctionLocalVariables(f: Function) returns (ok: bool)
      requires Valid()
      modifies `own, `strings
      ensures Valid() && Grown()
      ensures ok <==> AllNamed(f)
      ensures ok ==> NamesKnown(f)
    {
      hide Valid, StartsWith;
      StartsSame(own);
      for k := 0 to |f.locals|
        invariant Valid() && Grown()
        invariant forall j :: 0 <= j < k ==> f.locals[j].name != [] && f.locals[j].signature != []
        invariant forall j :: 0 <= j < k ==> Known(f.locals[j].name)
      {
        var v := f.locals[k];
        if v.name == [] || v.signature == [] {
          return false;
        }
        ghost var mid := own;
        HandleVariable(v);
        StartsOn(old(own), mid, own);
      }
      return true;
    }

    method HandleVariable(v: Variable)
      requires Valid()
      modifies `own, `strings
      ensures Valid() && Grown() && Known(v.name)
    {
      hide Valid, StartsWith;
      var p := GetOrCreateStringItem(v.name);
      if !v.isParameter {
        ghost var mid := own;
        p := GetOrCreateStringItem(v.signature);
        StartsOn(old(own), mid, own);
        if v.signatureType != [] {
          mid := own;
          p := GetOrCreateStringItem(v.signatureType);
          StartsOn(old(own), mid, own);
        }
      }
    }

    ghost predicate NamesKnown(f: Function)
      reads this
    {
      forall k :: 0 <= k < |f.locals| ==> Known(f.locals[k].name)
    }

    method MakeFunctionItems(fs: seq<Function>, emitDebug: bool) returns (ok: bool)
      requires Valid() && PlainFunctions(fs)
      modifies this
      ensures Valid()
      ensures ok <==> !emitDebug || forall i :: 0 <= i < |fs| ==> AllNamed(fs[i])
      ensures ok && emitDebug ==> forall i :: 0 <= i < |fs| ==> NamesKnown(fs[i])
    {
      hide Valid, PlainStep;
      for i := 0 to |fs|
        invariant Valid()
        invariant emitDebug ==> forall j :: 0 <= j < i ==> NamesKnown(fs[j]) && AllNamed(fs[j])
      {
        assert PlainFunction(fs[i]);
        TakeAll(fs[i].before);
        if emitDebug {
          ok := HandleFunctionLocalVariables(fs[i]);
          if !ok {
            return;
          }
        }
        TakeAll(fs[i].after);
      }
      return true;
    }

    /** The parameters of f have names among the first n own items or among the foreign ones. */
    ghost predicate NamesEarly(f: Function, n: nat)
      reads this
    {
      forall k :: 0 <= k < |f.locals| ==> KnownEarly(f.locals[k].name, n)
    }

    /** Creates a debug info, and then gives it the names of its parameters, all of which exist already. */
    method AddDebugInfo(f: Function, emitDebug: bool, ghost n: nat)
      requires Valid() && n <= |own| && ClassesEarly(n) && (emitDebug ==> NamesEarly(f, n))
      modifies `own, `strings
      ensures Valid() && classes == old(classes) && strings == old(strings)
      ensures |own| == |old(own)| + 1 && own[..|old(own)|] == old(own) && own[|old(own)|].Debug?
      ensures emitDebug ==> own[|old(own)|].names == Names(f.locals, |f.locals|, classes, strings)
    {
      hide Plain, StartsWith;
      var place, names: seq<Option<Ptr>> := |own|, [];
      var d := DebugInfo(0, [], [], 0, true);
      own := own + [Debug(d, names)];
      if emitDebug {
        for k := 0 to |f.locals|
          invariant Valid() && classes == old(classes) && strings == old(strings)
          invariant own == old(own) + [Debug(d, names)] && names == Names(f.locals, k, classes, strings)
          invariant forall j :: 0 <= j < |names| ==> names[j].Some? && Before(names[j].value, |foreign|, n)
        {
          if f.locals[k].isParameter {
            assert KnownEarly(f.locals[k].name, n);
            var p := GetOrCreateStringItem(f.locals[k].name);
            names := names + [Some(p)];
            own := own[place := Debug(d, names)];
          }
        }
      } else {
        names := seq(f.params, _ => None);
        own := own[place := Debug(d, names)];
      }
    }

    method SetCodeAndDebugInfo(f: Function, emitDebug: bool, ghost n: nat)
      requires Valid() && n <= |own| && ClassesEarly(n) && (emitDebug ==> NamesEarly(f, n))
      modifies `own, `strings
      ensures Valid() && classes == old(classes) && strings == old(strings) && n <= |own|
    {
      AddOwn(CodeI(CodeItem(0, 0, [], []), 0));
      if !emitDebug && !f.canThrow {
        return;
      }
      AddOwn(ProgramI([0]));
      AddDebugInfo(f, emitDebug, n);
    }

    method MakeFunctionDebugInfoAndAnnotations(fs: seq<Function>, emitDebug: bool)
      requires Valid() && PlainFunctions(fs)
      requires emitDebug ==> forall i :: 0 <= i < |fs| ==> NamesKnown(fs[i])
      modifies this
      ensures Valid()
    {
      ghost var n := |own|;
      hide PlainStep, Plain;
      for i := 0 to |fs|
        invariant Valid() && n <= |own| && ClassesEarly(n)
        invariant emitDebug ==> forall j :: 0 <= j < |fs| ==> NamesEarly(fs[j], n)
      {
        if !fs[i].foreign {
          assert PlainFunction(fs[i]);
          if fs[i].implemented {
            SetCodeAndDebugInfo(fs[i], emitDebug, n);
          }
          TakeAll(fs[i].annotations);
        }
      }
    }

    /** Strings, types and records first, then functions, annotations of records, and code last. */
    method Emit(prelude: seq<Step>, fs: seq<Function>, records: seq<Step>, emitDebug: bool) returns (ok: bool)
      requires Valid() && PlainSteps(prelude) && PlainFunctions(fs) && PlainSteps(records)
      modifies this
      ensures Valid() && MadeInOrder(foreign, own)
      ensures ok <==> !emitDebug || forall i :: 0 <= i < |fs| ==> AllNamed(fs[i])
    {
      hide PlainSteps, PlainFunctions, AllNamed;
      TakeAll(prelude);
      ok := MakeFunctionItems(fs, emitDebug);
      if ok {
        TakeAll(records);
        MakeFunctionDebugInfoAndAnnotations(fs, emitDebug);
      }
    }
  }

  // ---------- the finished list ----------

  function Shape(m: Made): FileItem {
    match m case Other(it) => it case Debug(d, _) => DebugI(d.(params := []))
  }

  function Shapes(foreign: seq<FileItem>, own: seq<Made>): (r: seq<FileItem>)
    ensures |r| == |foreign| + |own|
    ensures forall i :: 0 <= i < |foreign| ==> r[i] == foreign[i]
    ensures forall i :: 0 <= i < |own| ==> r[|foreign| + i] == Shape(own[i])
  {
    foreign + seq(|own|, i requires 0 <= i < |own| => Shape(own[i]))
  }

  function Place(p: Ptr, foreign: nat): nat {
    if p.Foreign? then p.i else foreign + p.i
  }

  /** A link goes by the number of the item. */
  function LinkOf(p: Option<Ptr>, foreign: nat, items: seq<FileItem>): nat {
    if p.Some? && Place(p.value, foreign) < |items| then 1 + First(items, Place(p.value, foreign)) else 0
  }

  function Finished(m: Made, foreign: nat, items: seq<FileItem>): FileItem {
    match m
    case Other(it) => it
    case Debug(d, names) =>
      DebugI(d.(params := seq(|names|, k requires 0 <= k < |names| => LinkOf(names[k], foreign, items))))
  }

  /** All items, foreign ones first. */
  function Assembled(foreign: seq<FileItem>, own: seq<Made>): (r: seq<FileItem>)
    ensures |r| == |foreign| + |own|
    ensures forall i :: 0 <= i < |foreign| ==> r[i] == foreign[i]
    ensures forall i :: 0 <= i < |own| ==> r[|foreign| + i] == Finished(own[i], |foreign|, Shapes(foreign, own))
  {
    foreign + seq(|own|, i requires 0 <= i < |own| => Finished(own[i], |foreign|, Shapes(foreign, own)))
  }

  lemma {:induction false} SameNumbers(a: seq<FileItem>, b: seq<FileItem>, n: nat)
    requires |a| == |b| && n <= |a| && forall i :: 0 <= i < |a| ==> MembersOf(a[i]) == MembersOf(b[i])
    ensures First(a, n) == First(b, n)
  {
    if n > 0 {
      SameNumbers(a, b, n - 1);
    }
  }

  lemma {:induction false} ShapeMembers(foreign: seq<FileItem>, own: seq<Made>, i: nat)
    requires i < |foreign| + |own|
    ensures MembersOf(Assembled(foreign, own)[i]) == MembersOf(Shapes(foreign, own)[i])
  {
    if i >= |foreign| {
      var k := i - |foreign|;
      assert Assembled(foreign, own)[|foreign| + k] == Finished(own[k], |foreign|, Shapes(foreign, own));
      assert Shapes(foreign, own)[|foreign| + k] == Shape(own[k]);
    }
  }

  lemma {:induction false} LinkEarlier(p: Option<Ptr>, foreign: nat, items: seq<FileItem>, i: nat)
    requires foreign + i <= |items| && (p.Some? ==> Before(p.value, foreign, i))
    ensures LinkOf(p, foreign, items) <= First(items, foreign + i)
  {
    if p.Some? {
      FirstGrows(items, Place(p.value, foreign), foreign + i);
    }
  }

  lemma {:induction false} FinishedEarlier(m: Made, foreign: nat, items: seq<FileItem>, i: nat)
    requires foreign + i <= |items| && MadeRight(m, foreign, i)
    ensures var it := Finished(m, foreign, items);
      ValidItem(it) && Sized(it) && NamesEarlier(it, First(items, foreign + i))
  {
    hide ValidItem, Sized, First, LinkOf;
    if m.Debug? {
      DebugIsValid(Finished(m, foreign, items));
      forall k | 0 <= k < |m.names| ensures LinkOf(m.names[k], foreign, items) <= First(items, foreign + i) {
        LinkEarlier(m.names[k], foreign, items, i);
      }
    }
  }

  lemma {:induction false} DebugIsValid(it: FileItem)
    requires it.DebugI?
    ensures ValidItem(it) && Sized(it)
  {
  }

  ghost predicate MadeInOrder(foreign: seq<FileItem>, own: seq<Made>) {
    && (forall i :: 0 <= i < |foreign| ==> Plain(foreign[i]))
    && (forall i :: 0 <= i < |own| ==> MadeRight(own[i], |foreign|, i))
  }

  lemma {:induction false} AssembledFine(foreign: seq<FileItem>, own: seq<Made>)
    requires MadeInOrder(foreign, own)
    ensures Fine(Assembled(foreign, own))
  {
    hide ValidItem, Sized, NamesEarlier, First, MadeRight, Finished, Assembled, Shapes, SizedByOffsets;
    var items, shapes := Assembled(foreign, own), Shapes(foreign, own);
    forall i | 0 <= i < |items| ensures MembersOf(items[i]) == MembersOf(shapes[i]) {
      ShapeMembers(foreign, own, i);
    }
    forall i | 0 <= i < |items|
      ensures ValidItem(items[i]) && Sized(items[i]) && NamesEarlier(items[i], First(items, i))
    {
      if i < |foreign| {
        assert Plain(foreign[i]);
        PlainEarlier(foreign[i], First(items, i));
      } else {
        SameNumbers(items, shapes, i);
        FinishedEarlier(own[i - |foreign|], |foreign|, shapes, i - |foreign|);
        assert items[|foreign| + (i - |foreign|)] == Finished(own[i - |foreign|], |foreign|, shapes);
      }
    }
  }

  lemma {:induction false} PlainEarlier(it: FileItem, o: nat)
    requires Plain(it)
    ensures NamesEarlier(it, o)
  {
  }

  /** What emitting code and deduplication may change later: anything but what debug infos and handles name. */
  ghost predicate SameNames(it: FileItem, it': FileItem) {
    && ValidItem(it') && Sized(it') && MembersOf(it') == MembersOf(it)
    && (it'.DebugI? ==> it.DebugI? && it'.d.params == it.d.params)
    && (it'.HandleI? ==> it == it')
  }

  lemma {:induction false} SameNamesFine(items: seq<FileItem>, items': seq<FileItem>)
    requires Fine(items) && |items'| == |items| && forall i :: 0 <= i < |items| ==> SameNames(items[i], items'[i])
    ensures Fine(items')
  {
    hide ValidItem, Sized, First, MembersOf;
    forall i | 0 <= i < |items'| ensures NamesEarlier(items'[i], First(items', i)) {
      SameNumbers(items', items, i);
      assert NamesEarlier(items[i], First(items, i)) && SameNames(items[i], items'[i]);
    }
  }

  /**
    Every layout of an assembled program is settled: whatever was filled in since its items were created,
    whichever of them are dropped, and whatever offsets earlier layouts left.
   */
  lemma {:induction false} AssembledSettles(
    foreign: seq<FileItem>, own: seq<Made>, pool: Pool, headers: seq<Header>, stale: seq<nat>)
    requires MadeInOrder(foreign, own) && pool.foreign <= |pool.slots|
    requires |pool.slots| == |Assembled(foreign, own)|
    requires forall i :: 0 <= i < |pool.slots| ==> SameNames(Assembled(foreign, own)[i], pool.slots[i].it)
    requires |stale| == Count(PlanOf(ContentsOf(pool), headers))
    ensures Settled(PlanOf(ContentsOf(pool), headers), stale)
  {
    hide SameNames, Fine, Settled, EmittedItems, Assembled, SectionCount, IndexIn;
    AssembledFine(foreign, own);
    SameNamesFine(Assembled(foreign, own), Items(pool.slots));
    DropKeepsFine(pool.slots);
    PlanItems(ContentsOf(pool), headers);
    FineSettles(PlanOf(ContentsOf(pool), headers), stale);
  }

  /**
    So the file of an assembled program is right: of a container whose items the assembler made, however
    they were filled in, dropped and laid out since.
   */
  method WriteAssembled(a: Assembler, c: Container) returns (ok: bool, at: seq<nat>, file: seq<byte>)
    requires a.Valid() && c.Valid() && |c.pool.slots| == |Assembled(a.foreign, a.own)|
    requires forall i :: 0 <= i < |c.pool.slots| ==> SameNames(Assembled(a.foreign, a.own)[i], c.pool.slots[i].it)
    modifies c`headers
    ensures ok <==> FitsRegions(ContentsOf(c.pool).items)
    ensures ok ==> ValidContents(ContentsOf(c.pool)) && Written(ContentsOf(c.pool), c.headers, at, file)
  {
    hide SameNames, Settled, Written, ContentsOf, AllValid, Greedy, Assign, AllLie, Gather;
    ok, at, file := c.Write();
    if ok {
      StaleLength(c.pool, c.full, c.headers);
      AssembledSettles(a.foreign, a.own, c.pool, c.headers, c.Stale());
    }
  }

  lemma {:induction false} StaleLength(p: Pool, full: seq<nat>, headers: seq<Header>)
    requires ValidPool(p) && |full| == SlotFirst(p.slots, |p.slots|)
    ensures |Gather(p.slots, full, |p.slots|)| == Count(PlanOf(ContentsOf(p), headers))
  {
    hide Gather, SlotFirst, First, Kept, Rank, AllValid, SectionCount, IndexIn;
    GatherLength(p.slots, full, |p.slots|);
    KeptFirst(p.slots, Renumbered(p.slots), |p.slots|);
    PlanItems(ContentsOf(p), headers);
  }
}
