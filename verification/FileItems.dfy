/**
  Items of a file before their offsets are known. They refer to each other by links and by indexes of
  their dependencies; sizes are computed while the layout is under way, bytes once it is finished.
 */
module FileItems {
  import opened Bytes
  import opened Leb128
  import opened Isa
  import opened TaggedData
  import opened FieldAccessor
  import opened MethodAccessor
  import opened ClassAccessor
  import opened CodeFormat
  import opened ProgramIndex
  import opened DedupState
  import opened IndexRegions
  import opened ValueItems

  /**
    In classes, methods and fields every offset of another item is a link. The class and the prototype
    of a method are its first two dependencies, the class and the type of a field its only two; the
    interfaces of a class are its dependencies. A catch block names its class by a dependency of the
    method, given by its number, that the code was written for.
   */
  datatype FileItem =
    | StringI(length: nat, chars: seq<byte>)
    | ClassI(c: ClassItem, linked: set<nat>, deps: seq<seq<Dep>>)
    | ForeignClassI(nameLength: nat, name: seq<byte>)
    | ForeignMethodI(m: MethodItem, own: seq<Dep>)
    | ForeignFieldI(f: FieldItem, own: seq<Dep>)
    | CodeI(code: CodeItem, owner: nat)
    | DebugI(d: DebugInfo)
    | ProgramI(data: seq<byte>)
    | HandleI(kind: byte, entity: nat)
    | ScalarI(value: ScalarValue)
    | ArrayI(component: Component, values: seq<ScalarValue>)
    | AnnotationI(cls: Dep, elements: seq<AnnotationElement>, tags: seq<byte>)
    | ParamAnnotationsI(params: seq<seq<nat>>)
    | LiteralsI(literals: seq<Literal>)
    | ProtoI(shorty: seq<nat>, refs: seq<Dep>)

  function Alignment(it: FileItem): (n: nat)
    ensures n > 0
  {
    match it
    case ScalarI(v) => ScalarSize(v)
    case ProtoI(_, _) => 2
    case _ => 1
  }

  const CLASS := 0
  const PROTO := 3

  function MembersOf(it: FileItem): nat {
    if it.ClassI? then |it.c.fields| + |it.c.methods| else 0
  }

  /** The dependencies of an item, then those of each of its members. */
  function EntityDeps(it: FileItem): (r: seq<seq<Dep>>)
    ensures it.ClassI? || |r| == 1
  {
    match it
    case ClassI(_, _, deps) => deps
    case ForeignMethodI(_, own) => [own]
    case ForeignFieldI(_, own) => [own]
    case AnnotationI(cls, _, _) => [[cls]]
    case ProtoI(_, refs) => [refs]
    case _ => [[]]
  }

  predicate AllOfKind(deps: seq<Dep>, kind: nat) {
    forall i :: 0 <= i < |deps| ==> deps[i].kind == kind
  }

  predicate MethodDeps(own: seq<Dep>) {
    |own| >= 2 && own[0].kind == CLASS && own[1].kind == PROTO && ValidDeps(own)
  }

  predicate FieldDeps(own: seq<Dep>) {
    |own| == 2 && AllOfKind(own, CLASS)
  }

  ghost predicate ClassDeps(c: ClassItem, deps: seq<seq<Dep>>) {
    && |deps| == 1 + |c.fields| + |c.methods|
    && |deps[0]| == |c.ifaces| && AllOfKind(deps[0], CLASS)
    && (forall k :: 0 < k < |deps| ==> if k <= |c.fields| then FieldDeps(deps[k]) else MethodDeps(deps[k]))
  }

  /** Every item takes some room and has the dependencies that its constructor gives it. */
  ghost predicate ValidItem(it: FileItem) {
    match it
    case ClassI(c, _, deps) => ClassDeps(c, deps)
    case ForeignMethodI(_, own) => MethodDeps(own)
    case ForeignFieldI(_, own) => FieldDeps(own)
    case ProgramI(data) => data != []
    case ArrayI(c, vs) => ValidArray(c, vs)
    case AnnotationI(cls, _, _) => cls.kind == CLASS
    case ProtoI(shorty, refs) => shorty != [] && AllOfKind(refs, CLASS)
    case _ => true
  }

  lemma {:induction false} DepsPerEntity(it: FileItem)
    requires ValidItem(it)
    ensures |EntityDeps(it)| == 1 + MembersOf(it)
    ensures forall k :: 0 <= k < |EntityDeps(it)| ==> ValidDeps(EntityDeps(it)[k])
  {
  }

  // ---------- links become offsets, dependencies indexes ----------

  /**
    What is known when an item is sized or written: the offsets of all items and members by number, the
    index that an item or member uses for each of its dependencies, and the index of each program.
   */
  datatype Env = Env(at: seq<nat>, index: (nat, nat) -> nat, programs: nat -> nat)

  function WhereAll(at: seq<nat>, links: seq<nat>): (r: seq<nat>)
    ensures |r| == |links| && forall i :: 0 <= i < |r| ==> r[i] == Where(at, links[i])
  {
    seq(|links|, i requires 0 <= i < |links| => Where(at, links[i]))
  }

  function WhereOption(at: seq<nat>, link: Option<nat>): (r: Option<nat>)
    ensures r.Some? <==> link.Some?
  {
    match link case None => None case Some(x) => Some(Where(at, x))
  }

  function Indexes(e: Env, o: nat, n: nat): (r: seq<nat>)
    ensures |r| == n && forall k :: 0 <= k < n ==> r[k] == e.index(o, k)
  {
    seq<nat>(n, k requires 0 <= k < n => e.index(o, k))
  }

  /** Values of some types are items of their own; then the field holds a link. */
  function ResolveField(f: FieldItem, linked: bool, o: nat, e: Env): FieldItem {
    f.(cls := e.index(o, 0), typ := e.index(o, 1), name := Where(e.at, f.name),
       value := if linked && f.value.WordValue? then WordValue(Where(e.at, f.value.w)) else f.value,
       runtimeAnnotations := WhereAll(e.at, f.runtimeAnnotations),
       annotations := WhereAll(e.at, f.annotations))
  }

  function ResolveMethod(m: MethodItem, o: nat, e: Env): MethodItem {
    m.(cls := e.index(o, 0), proto := e.index(o, 1), name := Where(e.at, m.name), code := WhereOption(e.at, m.code),
       runtimeAnnotations := WhereAll(e.at, m.runtimeAnnotations), runtimeParam := WhereOption(e.at, m.runtimeParam),
       debug := WhereOption(e.at, m.debug), annotations := WhereAll(e.at, m.annotations),
       param := WhereOption(e.at, m.param))
  }

  /** Members are numbered after their class, fields first. */
  function ResolveFields(fields: seq<FieldItem>, linked: set<nat>, o: nat, e: Env): (r: seq<FieldItem>)
    ensures |r| == |fields| && forall i :: 0 <= i < |fields| ==> r[i] == ResolveField(fields[i], i in linked, o + i, e)
  {
    seq(|fields|, i requires 0 <= i < |fields| => ResolveField(fields[i], i in linked, o + i, e))
  }

  function ResolveMethods(methods: seq<MethodItem>, o: nat, e: Env): (r: seq<MethodItem>)
    ensures |r| == |methods| && forall i :: 0 <= i < |methods| ==> r[i] == ResolveMethod(methods[i], o + i, e)
  {
    seq(|methods|, i requires 0 <= i < |methods| => ResolveMethod(methods[i], o + i, e))
  }

  function ResolveClass(c: ClassItem, linked: set<nat>, o: nat, e: Env): ClassItem {
    c.(super := Where(e.at, c.super), ifaces := Indexes(e, o, |c.ifaces|),
       runtimeAnnotations := WhereAll(e.at, c.runtimeAnnotations), annotations := WhereAll(e.at, c.annotations),
       sourceFile := WhereOption(e.at, c.sourceFile),
       fields := ResolveFields(c.fields, linked, o + 1, e),
       methods := ResolveMethods(c.methods, o + 1 + |c.fields|, e))
  }

  function ResolveCatch(c: CatchItem, owner: nat, e: Env): CatchItem {
    match c.typ case None => c case Some(k) => c.(typ := Some(e.index(owner, k)))
  }

  function ResolveTry(t: TryItem, owner: nat, e: Env): TryItem {
    t.(catches := seq(|t.catches|, i requires 0 <= i < |t.catches| => ResolveCatch(t.catches[i], owner, e)))
  }

  function ResolveCode(c: CodeItem, owner: nat, e: Env): CodeItem {
    c.(tries := seq(|c.tries|, i requires 0 <= i < |c.tries| => ResolveTry(c.tries[i], owner, e)))
  }

  /** Debug infos name strings by link. */
  function PlacesOf(e: Env): Places {
    Places((x: nat) => Where(e.at, x), e.programs)
  }

  /** What item number o writes. */
  function ItemBytes(it: FileItem, o: nat, e: Env): seq<byte> {
    match it
    case StringI(n, s) => Uleb(n) + s + [0]
    case ClassI(c, linked, _) => ClassBytes(ResolveClass(c, linked, o, e))
    case ForeignClassI(n, s) => Uleb(n) + s + [0]
    case ForeignMethodI(m, _) => MethodBytes(ResolveMethod(m, o, e), true)
    case ForeignFieldI(f, _) => FieldBytes(ResolveField(f, false, o, e), true)
    case CodeI(c, owner) => CodeBytes(ResolveCode(c, owner, e))
    case DebugI(d) => DebugBytes(PlacesOf(e), d)
    case ProgramI(data) => data
    case HandleI(k, x) => [k] + Uleb(Where(e.at, x))
    case ScalarI(v) => ScalarBytes(e.at, v)
    case ArrayI(c, vs) => ArrayBytes(e.at, c, vs)
    case AnnotationI(_, es, tags) => AnnotationBytes(e.at, e.index(o, 0), es, tags)
    case ParamAnnotationsI(ps) => ParamAnnotationsBytes(e.at, ps)
    case LiteralsI(ls) => LiteralArrayBytes(e.at, ls)
    case ProtoI(shorty, refs) => ProtoBytes(shorty, Indexes(e, o, |refs|))
  }

  // ---------- sizes ----------

  function ParamsSize(at: seq<nat>, params: seq<nat>): nat {
    if params == [] then 0 else UnsignedEncodingSize(Where(at, params[0])) + ParamsSize(at, params[1..])
  }

  /** What is reserved for an item, given the offsets known so far. */
  function CalculateSize(it: FileItem, e: Env): nat {
    match it
    case StringI(n, s) => UnsignedEncodingSize(n) + |s| + 1
    case ClassI(c, _, _) => CalculateClassSize(c)
    case ForeignClassI(n, s) => UnsignedEncodingSize(n) + |s| + 1
    case ForeignMethodI(m, _) => CalculateMethodSize(m, true)
    case ForeignFieldI(f, _) => CalculateFieldSize(f, true)
    case CodeI(c, owner) => CalculateCodeSize(ResolveCode(c, owner, e))
    case DebugI(d) =>
      UnsignedEncodingSize(d.line) + UnsignedEncodingSize(|d.params|) + ParamsSize(e.at, d.params)
      + UnsignedEncodingSize(|d.pool|) + |d.pool| + UnsignedEncodingSize(e.programs(d.program))
    case ProgramI(data) => |data|
    case HandleI(_, x) => 1 + UnsignedEncodingSize(Where(e.at, x))
    case ScalarI(v) => ScalarSize(v)
    case ArrayI(c, vs) => CalculateArraySize(c, vs)
    case AnnotationI(_, es, tags) => CalculateAnnotationSize(es, tags)
    case ParamAnnotationsI(ps) => CalculateParamAnnotationsSize(ps)
    case LiteralsI(ls) => CalculateLiteralsSize(ls)
    case ProtoI(shorty, refs) => 2 * |shorty| + 2 * |refs|
  }

  lemma {:induction false} ParamsSizeExact(e: Env, params: seq<nat>)
    ensures |ParamBytes(PlacesOf(e), params)| == ParamsSize(e.at, params)
  {
    hide Uleb, UnsignedEncodingSize, Where;
    if params != [] {
      ParamsSizeExact(e, params[1..]);
      UlebSize(Where(e.at, params[0]));
    }
  }

  lemma {:induction false} FieldSizeSame(f: FieldItem, linked: bool, o: nat, e: Env, foreign: bool)
    ensures CalculateFieldSize(ResolveField(f, linked, o, e), foreign) == CalculateFieldSize(f, foreign)
  {
    hide UnsignedEncodingSize, SignedEncodingSize, Where;
  }

  lemma {:induction false} FieldsSizeSame(fields: seq<FieldItem>, linked: set<nat>, o: nat, e: Env, n: nat)
    requires n <= |fields|
    ensures FieldsSize(ResolveFields(fields, linked, o, e), n) == FieldsSize(fields, n)
  {
    hide CalculateFieldSize, ResolveField;
    if n > 0 {
      FieldsSizeSame(fields, linked, o, e, n - 1);
      FieldSizeSame(fields[n - 1], n - 1 in linked, o + n - 1, e, false);
    }
  }

  lemma {:induction false} MethodSizeSame(m: MethodItem, o: nat, e: Env, foreign: bool)
    ensures CalculateMethodSize(ResolveMethod(m, o, e), foreign) == CalculateMethodSize(m, foreign)
  {
    hide UnsignedEncodingSize, Where;
  }

  lemma {:induction false} MethodsSizeSame(methods: seq<MethodItem>, o: nat, e: Env, n: nat)
    requires n <= |methods|
    ensures MethodsSize(ResolveMethods(methods, o, e), n) == MethodsSize(methods, n)
  {
    hide CalculateMethodSize, ResolveMethod;
    if n > 0 {
      MethodsSizeSame(methods, o, e, n - 1);
      MethodSizeSame(methods[n - 1], o + n - 1, e, false);
    }
  }

  /** Offsets take four bytes and indexes two wherever they are, so the size of a class does not depend on them. */
  lemma {:induction false} ClassSizeSame(c: ClassItem, linked: set<nat>, o: nat, e: Env)
    ensures CalculateClassSize(ResolveClass(c, linked, o, e)) == CalculateClassSize(c)
    ensures CalculateSizeWithoutFieldsAndMethods(ResolveClass(c, linked, o, e))
      == CalculateSizeWithoutFieldsAndMethods(c)
  {
    hide UnsignedEncodingSize, Where, FieldsSize, MethodsSize;
    FieldsSizeSame(c.fields, linked, o + 1, e, |c.fields|);
    MethodsSizeSame(c.methods, o + 1 + |c.fields|, e, |c.methods|);
    assert Indexes(e, o, |c.ifaces|) == [] <==> c.ifaces == [];
  }

  lemma {:induction false} DebugSizeExact(e: Env, d: DebugInfo)
    ensures |DebugBytes(PlacesOf(e), d)| == CalculateSize(DebugI(d), e)
  {
    hide Uleb, UnsignedEncodingSize, Where, ParamBytes, ParamsSize;
    UlebSize(d.line);
    UlebSize(|d.params|);
    ParamsSizeExact(e, d.params);
    UlebSize(|d.pool|);
    UlebSize(e.programs(d.program));
  }

  /** Of all items only arrays can take another size than what was reserved, if their scalars do not fit. */
  predicate Sized(it: FileItem) {
    it.ArrayI? ==> WidthsMatch(it.component, it.values)
  }

  lemma {:induction false} MemberItemSize(it: FileItem, o: nat, e: Env)
    requires it.ClassI? || it.ForeignMethodI? || it.ForeignFieldI?
    ensures |ItemBytes(it, o, e)| == CalculateSize(it, e)
  {
    hide ClassBytes, MethodBytes, FieldBytes, CalculateClassSize, CalculateMethodSize, CalculateFieldSize, ResolveClass,
      ResolveMethod, ResolveField;
    match it
    case ClassI(c, linked, _) =>
      ClassSizeExact(ResolveClass(c, linked, o, e));
      ClassSizeSame(c, linked, o, e);
    case ForeignMethodI(m, _) =>
      MethodSizeExact(ResolveMethod(m, o, e), true);
      MethodSizeSame(m, o, e, true);
    case ForeignFieldI(f, _) =>
      FieldSizeExact(ResolveField(f, false, o, e), true);
      FieldSizeSame(f, false, o, e, true);
  }

  lemma {:induction false} ValueItemSize(it: FileItem, o: nat, e: Env)
    requires it.ScalarI? || it.AnnotationI? || it.ParamAnnotationsI? || it.LiteralsI? || it.ProtoI?
    ensures |ItemBytes(it, o, e)| == CalculateSize(it, e)
  {
    hide ScalarBytes, AnnotationBytes, ParamAnnotationsBytes, LiteralArrayBytes, ProtoBytes, CalculateAnnotationSize,
      CalculateParamAnnotationsSize, CalculateLiteralsSize;
    match it
    case ScalarI(v) => ScalarSizeExact(e.at, v);
    case AnnotationI(_, es, tags) => AnnotationExact([], 0, e.at, e.index(o, 0), es, tags, 0);
    case ParamAnnotationsI(ps) => ParamAnnotationsExact([], 0, e.at, ps, 0);
    case LiteralsI(ls) => LiteralArrayExact([], 0, e.at, ls, 0);
    case ProtoI(shorty, refs) => ProtoSizeExact(shorty, Indexes(e, o, |refs|));
  }

  /**
    With the same offsets, an item writes exactly what was reserved for it, unless it is an array
    that does not fit.
   */
  lemma {:induction false} ItemSizeExactly(it: FileItem, o: nat, e: Env)
    requires ValidItem(it)
    ensures |ItemBytes(it, o, e)| == CalculateSize(it, e) <==> Sized(it)
  {
    if it.ClassI? || it.ForeignMethodI? || it.ForeignFieldI? {
      hide ItemBytes, CalculateSize;
      MemberItemSize(it, o, e);
    } else if it.ScalarI? || it.AnnotationI? || it.ParamAnnotationsI? || it.LiteralsI? || it.ProtoI? {
      hide ItemBytes, CalculateSize;
      ValueItemSize(it, o, e);
    } else {
      hide Uleb, UnsignedEncodingSize, Where, CodeBytes, DebugBytes, CalculateCodeSize, ResolveCode, PlacesOf,
        ParamsSize, ArrayBytes, CalculateArraySize, WidthsMatch, ValidArray;
      match it
      case StringI(n, _) => UlebSize(n);
      case ForeignClassI(n, _) => UlebSize(n);
      case CodeI(c, owner) => CodeSizeExact(ResolveCode(c, owner, e));
      case DebugI(d) => DebugSizeExact(e, d);
      case HandleI(_, x) => UlebSize(Where(e.at, x));
      case ArrayI(c, vs) => ArraySizeExactly(e.at, c, vs);
      case ProgramI(_) =>
    }
  }

  // ---------- what sizes depend on ----------

  /** Only debug infos and method handles are sized by offsets of others. */
  predicate SizedByOffsets(it: FileItem) {
    it.DebugI? || it.HandleI?
  }

  /** Those named come before item number o. */
  predicate NamesEarlier(it: FileItem, o: nat) {
    match it
    case DebugI(d) => forall k :: 0 <= k < |d.params| ==> d.params[k] <= o
    case HandleI(_, x) => x <= o
    case _ => true
  }

  lemma {:induction false} ParamsSizeDepends(params: seq<nat>, at: seq<nat>, at': seq<nat>, o: nat)
    requires (forall k :: 0 <= k < |params| ==> params[k] <= o) && o <= |at| && o <= |at'| && at[..o] == at'[..o]
    ensures ParamsSize(at, params) == ParamsSize(at', params)
  {
    hide UnsignedEncodingSize;
    if params != [] {
      ParamsSizeDepends(params[1..], at, at', o);
      SameWhere(at, at', params[0], o);
    }
  }

  lemma {:induction false} SameWhere(at: seq<nat>, at': seq<nat>, link: nat, o: nat)
    requires link <= o <= |at| && o <= |at'| && at[..o] == at'[..o]
    ensures Where(at, link) == Where(at', link)
  {
    if link > 0 {
      assert at[..o][link - 1] == at'[..o][link - 1];
    }
  }

  lemma {:induction false} SizeFixed(it: FileItem, e: Env, at': seq<nat>)
    requires !SizedByOffsets(it)
    ensures CalculateSize(it, e.(at := at')) == CalculateSize(it, e)
  {
    hide UnsignedEncodingSize, CalculateClassSize, CalculateMethodSize, CalculateFieldSize, CalculateCodeSize,
      CalculateArraySize, CalculateAnnotationSize, CalculateParamAnnotationsSize, CalculateLiteralsSize;
    if it.CodeI? {
      CodeFixed(it.code, it.owner, e, at');
    }
  }

  lemma {:induction false} CodeFixed(c: CodeItem, owner: nat, e: Env, at': seq<nat>)
    ensures ResolveCode(c, owner, e.(at := at')) == ResolveCode(c, owner, e)
  {
    forall i | 0 <= i < |c.tries|
      ensures ResolveTry(c.tries[i], owner, e.(at := at')) == ResolveTry(c.tries[i], owner, e)
    {
    }
  }

  /** So the size of item number o is settled by the offsets before it, if those are all it names. */
  lemma {:induction false} SizeDepends(it: FileItem, e: Env, at': seq<nat>, o: nat)
    requires NamesEarlier(it, o) && o <= |e.at| && o <= |at'| && e.at[..o] == at'[..o]
    ensures CalculateSize(it, e.(at := at')) == CalculateSize(it, e)
  {
    if SizedByOffsets(it) {
      hide UnsignedEncodingSize, ParamsSize, Where;
      match it
      case DebugI(d) => ParamsSizeDepends(d.params, e.at, at', o);
      case HandleI(_, x) => SameWhere(e.at, at', x, o);
    } else {
      hide CalculateSize;
      SizeFixed(it, e, at');
    }
  }

  lemma {:induction false} SizePositive(it: FileItem, e: Env)
    requires ValidItem(it)
    ensures CalculateSize(it, e) > 0
  {
    hide CalculateClassSize, CalculateMethodSize, CalculateFieldSize, ParamsSize, Where, TriesSize;
    match it
    case ClassI(c, _, _) => ClassSizePositive(c);
    case ForeignMethodI(m, _) => MethodSizePositive(m, true);
    case ForeignFieldI(f, _) => FieldSizePositive(f, true);
    case _ =>
  }

  lemma {:induction false} MethodSizePositive(m: MethodItem, foreign: bool)
    ensures CalculateMethodSize(m, foreign) > 0
  {
  }

  lemma {:induction false} FieldSizePositive(f: FieldItem, foreign: bool)
    ensures CalculateFieldSize(f, foreign) > 0
  {
  }

  lemma {:induction false} ClassSizePositive(c: ClassItem)
    ensures CalculateClassSize(c) > 0
  {
  }

  // ---------- members ----------

  /** Offset of member k inside its class: fields first, then methods. */
  function MemberOffset(c: ClassItem, k: nat): nat
    requires k <= |c.fields| + |c.methods|
  {
    CalculateSizeWithoutFieldsAndMethods(c)
    + if k < |c.fields| then FieldsSize(c.fields, k)
      else FieldsSize(c.fields, |c.fields|) + MethodsSize(c.methods, k - |c.fields|)
  }

  /** Offset of entity k of an item at p: 0 is the item itself. */
  function EntityOffset(it: FileItem, p: nat, k: nat): nat
    requires k <= MembersOf(it)
  {
    if k == 0 then p else p + MemberOffset(it.c, k - 1)
  }

  /** Offsets of an item at p and of its members. */
  function Block(it: FileItem, p: nat): (r: seq<nat>)
    ensures |r| == 1 + MembersOf(it) && forall k :: 0 <= k < |r| ==> r[k] == EntityOffset(it, p, k)
  {
    seq(1 + MembersOf(it), k requires 0 <= k <= MembersOf(it) => EntityOffset(it, p, k))
  }
}
