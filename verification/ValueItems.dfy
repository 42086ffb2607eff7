/**
  Items that hold values: scalars, arrays, literals, annotations and prototypes. For each of them, what
  is written, what was reserved for it, and where its parts lie.
 */
module ValueItems {
  import opened Bytes
  import opened Leb128
  import opened FileBytes
  import opened ClassAccessor

  /** A link is 0 for none, or one more than the number of the item or member it names. */
  function Where(at: seq<nat>, link: nat): nat {
    if 0 < link <= |at| then at[link - 1] else 0
  }

  function LinkBytes(at: seq<nat>, links: seq<nat>): seq<byte> {
    if links == [] then [] else Le(Where(at, links[0]), 4) + LinkBytes(at, links[1..])
  }

  lemma {:induction false} LinksLie(file: seq<byte>, p: nat, at: seq<nat>, links: seq<nat>, i: nat)
    requires i <= |links|
    ensures |LinkBytes(at, links)| == 4 * |links|
    ensures Lies(file, p, LinkBytes(at, links)) && i < |links| ==> Lies(file, p + 4 * i, Le(Where(at, links[i]), 4))
    decreases |links|
  {
    hide Le, Lies, Where;
    if links != [] {
      LinksLie(file, p + 4, at, links[1..], if i == 0 then 0 else i - 1);
      LiesSplit(file, p, Le(Where(at, links[0]), 4), LinkBytes(at, links[1..]));
    }
  }

  // ---------- scalars ----------

  /** Floating point values are given by their bits. */
  datatype ScalarValue =
    | IntegerValue(v: nat) | LongValue(v: nat) | FloatValue(bits: nat) | DoubleValue(bits: nat) | IdValue(link: nat)

  function ScalarSize(s: ScalarValue): (n: nat)
    ensures n == 4 || n == 8
  {
    match s
    case IntegerValue(_) => 4
    case LongValue(_) => 8
    case FloatValue(_) => 4
    case DoubleValue(_) => 8
    case IdValue(_) => 4
  }

  function ScalarBytes(at: seq<nat>, s: ScalarValue): seq<byte> {
    match s
    case IntegerValue(v) => Le(v, 4)
    case LongValue(v) => Le(v, 8)
    case FloatValue(b) => Le(b, 4)
    case DoubleValue(b) => Le(b, 8)
    case IdValue(x) => Le(Where(at, x), 4)
  }

  lemma {:induction false} ScalarSizeExact(at: seq<nat>, s: ScalarValue)
    ensures |ScalarBytes(at, s)| == ScalarSize(s)
  {
    hide Le, Where;
  }

  // ---------- arrays ----------

  datatype Component = U1 | I8 | U8 | I16 | U16 | I32 | U32 | F32 | I64 | U64 | F64 | Reference | Void

  function ComponentSize(c: Component): nat {
    match c
    case U1 => 1
    case I8 => 1
    case U8 => 1
    case I16 => 2
    case U16 => 2
    case I32 => 4
    case U32 => 4
    case F32 => 4
    case I64 => 8
    case U64 => 8
    case F64 => 8
    case Reference => 4
    case Void => 0
  }

  /** Components of one or two bytes are cut off integers; all others are written as the scalars they are. */
  predicate Narrow(c: Component) {
    0 < ComponentSize(c) < 4
  }

  predicate ValidArray(c: Component, vs: seq<ScalarValue>) {
    Narrow(c) ==> forall i :: 0 <= i < |vs| ==> vs[i].IntegerValue?
  }

  function ElementBytes(at: seq<nat>, c: Component, s: ScalarValue): seq<byte> {
    if Narrow(c) && s.IntegerValue? then Le(s.v, ComponentSize(c)) else ScalarBytes(at, s)
  }

  function ElementsBytes(at: seq<nat>, c: Component, vs: seq<ScalarValue>): seq<byte> {
    if vs == [] then [] else ElementBytes(at, c, vs[0]) + ElementsBytes(at, c, vs[1..])
  }

  function ArrayBytes(at: seq<nat>, c: Component, vs: seq<ScalarValue>): seq<byte> {
    Uleb(|vs|) + ElementsBytes(at, c, vs)
  }

  function CalculateArraySize(c: Component, vs: seq<ScalarValue>): nat {
    UnsignedEncodingSize(|vs|) + |vs| * ComponentSize(c)
  }

  /** What the layout reserves goes by the component type, what is written by the scalars. */
  predicate WidthsMatch(c: Component, vs: seq<ScalarValue>) {
    Narrow(c) || forall i :: 0 <= i < |vs| ==> ScalarSize(vs[i]) == ComponentSize(c)
  }

  lemma {:induction false} ElementSize(at: seq<nat>, c: Component, s: ScalarValue)
    ensures |ElementBytes(at, c, s)| == if Narrow(c) && s.IntegerValue? then ComponentSize(c) else ScalarSize(s)
  {
    hide Le, ScalarBytes;
    ScalarSizeExact(at, s);
  }

  /** All scalars are at least four and at most eight bytes, so that sums can only agree if all widths do. */
  lemma {:induction false} ElementsSize(at: seq<nat>, c: Component, vs: seq<ScalarValue>)
    requires ValidArray(c, vs)
    ensures
      var n, size := |ElementsBytes(at, c, vs)|, |vs| * ComponentSize(c);
      && (ComponentSize(c) < 4 ==> n >= size)
      && (ComponentSize(c) == 4 ==> n >= size)
      && (ComponentSize(c) == 8 ==> n <= size)
      && (n == size <==> WidthsMatch(c, vs))
  {
    hide ElementBytes;
    if vs != [] {
      ElementsSize(at, c, vs[1..]);
      ElementSize(at, c, vs[0]);
      assert |vs| * ComponentSize(c) == |vs[1..]| * ComponentSize(c) + ComponentSize(c);
      assert WidthsMatch(c, vs) <==>
        (Narrow(c) || ScalarSize(vs[0]) == ComponentSize(c)) && WidthsMatch(c, vs[1..]) by {
        assert vs == [vs[0]] + vs[1..];
      }
    }
  }

  /** An array takes what was reserved for it exactly if each of its scalars has the width of its component type. */
  lemma {:induction false} ArraySizeExactly(at: seq<nat>, c: Component, vs: seq<ScalarValue>)
    requires ValidArray(c, vs)
    ensures |ArrayBytes(at, c, vs)| == CalculateArraySize(c, vs) <==> WidthsMatch(c, vs)
  {
    hide Uleb, UnsignedEncodingSize, ElementsBytes;
    UlebSize(|vs|);
    ElementsSize(at, c, vs);
  }

  /** One integer in an array of doubles, or in one of no type: the file ends up shorter or longer than planned. */
  lemma {:induction false} MisfitArrays(v: nat)
    ensures |ArrayBytes([], F64, [IntegerValue(v)])| + 4 == CalculateArraySize(F64, [IntegerValue(v)])
    ensures |ArrayBytes([], Void, [IntegerValue(v)])| == CalculateArraySize(Void, [IntegerValue(v)]) + 4
  {
    hide Uleb, UnsignedEncodingSize, Le;
    UlebSize(1);
    assert ElementsBytes([], F64, [IntegerValue(v)]) == Le(v, 4) + ElementsBytes([], F64, []);
    assert ElementsBytes([], Void, [IntegerValue(v)]) == Le(v, 4) + ElementsBytes([], Void, []);
  }

  /** Where the layout puts element i of an array at p. */
  function ElementOffset(p: nat, c: Component, vs: seq<ScalarValue>, i: nat): nat {
    p + UnsignedEncodingSize(|vs|) + i * ComponentSize(c)
  }

  lemma {:induction false} ElementsLie(
    file: seq<byte>, p: nat, at: seq<nat>, c: Component, vs: seq<ScalarValue>, i: nat)
    requires ValidArray(c, vs) && WidthsMatch(c, vs) && i < |vs| && Lies(file, p, ElementsBytes(at, c, vs))
    ensures Lies(file, p + i * ComponentSize(c), ElementBytes(at, c, vs[i]))
    decreases i
  {
    hide ElementBytes, Lies;
    LiesSplit(file, p, ElementBytes(at, c, vs[0]), ElementsBytes(at, c, vs[1..]));
    if i > 0 {
      ElementSize(at, c, vs[0]);
      ElementsLie(file, p + ComponentSize(c), at, c, vs[1..], i - 1);
      assert ComponentSize(c) + (i - 1) * ComponentSize(c) == i * ComponentSize(c);
    }
  }

  /** Then each element is written where the layout put it. */
  lemma {:induction false} ArrayLies(file: seq<byte>, p: nat, at: seq<nat>, c: Component, vs: seq<ScalarValue>, i: nat)
    requires ValidArray(c, vs) && WidthsMatch(c, vs) && i < |vs| && Lies(file, p, ArrayBytes(at, c, vs))
    ensures Lies(file, ElementOffset(p, c, vs, i), ElementBytes(at, c, vs[i]))
  {
    hide Uleb, UnsignedEncodingSize, ElementsBytes, ElementBytes, Lies;
    UlebSize(|vs|);
    LiesSplit(file, p, Uleb(|vs|), ElementsBytes(at, c, vs));
    ElementsLie(file, p + |Uleb(|vs|)|, at, c, vs, i);
  }

  // ---------- literal arrays ----------

  datatype Literal = B1(v: nat) | B2(v: nat) | B4(v: nat) | B8(v: nat) | StringLiteral(link: nat)
    | MethodLiteral(link: nat)

  function LiteralSize(l: Literal): nat {
    match l
    case B1(_) => 1
    case B2(_) => 2
    case B4(_) => 4
    case B8(_) => 8
    case StringLiteral(_) => 4
    case MethodLiteral(_) => 4
  }

  function LiteralBytes(at: seq<nat>, l: Literal): seq<byte> {
    match l
    case B1(v) => Le(v, 1)
    case B2(v) => Le(v, 2)
    case B4(v) => Le(v, 4)
    case B8(v) => Le(v, 8)
    case StringLiteral(x) => Le(Where(at, x), 4)
    case MethodLiteral(x) => Le(Where(at, x), 4)
  }

  function LiteralsBytes(at: seq<nat>, ls: seq<Literal>): seq<byte> {
    if ls == [] then [] else LiteralBytes(at, ls[0]) + LiteralsBytes(at, ls[1..])
  }

  /** Room for the first n literals. */
  function LiteralsSize(ls: seq<Literal>, n: nat): nat
    requires n <= |ls|
  {
    if n == 0 then 0 else LiteralsSize(ls, n - 1) + LiteralSize(ls[n - 1])
  }

  function LiteralArrayBytes(at: seq<nat>, ls: seq<Literal>): seq<byte> {
    Le(|ls|, 4) + LiteralsBytes(at, ls)
  }

  function CalculateLiteralsSize(ls: seq<Literal>): nat {
    4 + LiteralsSize(ls, |ls|)
  }

  lemma {:induction false} LiteralSizeExact(at: seq<nat>, l: Literal)
    ensures |LiteralBytes(at, l)| == LiteralSize(l)
  {
    hide Le, Where;
  }

  lemma {:induction false} LiteralsShift(ls: seq<Literal>, n: nat)
    requires 0 < n <= |ls|
    ensures LiteralsSize(ls, n) == LiteralSize(ls[0]) + LiteralsSize(ls[1..], n - 1)
  {
    hide LiteralSize;
    if n > 1 {
      LiteralsShift(ls, n - 1);
    }
  }

  lemma {:induction false} LiteralsLength(at: seq<nat>, ls: seq<Literal>)
    ensures |LiteralsBytes(at, ls)| == LiteralsSize(ls, |ls|)
  {
    hide LiteralBytes, LiteralSize;
    if ls != [] {
      LiteralsLength(at, ls[1..]);
      LiteralsShift(ls, |ls|);
      LiteralSizeExact(at, ls[0]);
    }
  }

  lemma {:induction false} LiteralsLie(file: seq<byte>, p: nat, at: seq<nat>, ls: seq<Literal>, i: nat)
    requires i < |ls| && Lies(file, p, LiteralsBytes(at, ls))
    ensures Lies(file, p + LiteralsSize(ls, i), LiteralBytes(at, ls[i]))
    decreases i
  {
    hide LiteralBytes, LiteralSize, Lies;
    LiteralSizeExact(at, ls[0]);
    LiesSplit(file, p, LiteralBytes(at, ls[0]), LiteralsBytes(at, ls[1..]));
    if i > 0 {
      LiteralsLie(file, p + LiteralSize(ls[0]), at, ls[1..], i - 1);
      LiteralsShift(ls, i);
    }
  }

  /** A literal array takes exactly what was reserved for it, and each literal is written where the layout put it. */
  lemma {:induction false} LiteralArrayExact(file: seq<byte>, p: nat, at: seq<nat>, ls: seq<Literal>, i: nat)
    ensures |LiteralArrayBytes(at, ls)| == CalculateLiteralsSize(ls)
    ensures Lies(file, p, LiteralArrayBytes(at, ls)) && i < |ls| ==>
      Lies(file, p + 4 + LiteralsSize(ls, i), LiteralBytes(at, ls[i]))
  {
    hide LiteralsBytes, LiteralsSize, LiteralBytes, Le, Lies;
    LiteralsLength(at, ls);
    LiesSplit(file, p, Le(|ls|, 4), LiteralsBytes(at, ls));
    if Lies(file, p, LiteralArrayBytes(at, ls)) && i < |ls| {
      LiteralsLie(file, p + 4, at, ls, i);
    }
  }

  // ---------- annotations ----------

  /** Values of four bytes are stored in the element, all others are items of their own. */
  datatype ElementValue = InPlace(w: nat) | Apart(link: nat)
  datatype AnnotationElement = AnnotationElement(name: nat, value: ElementValue)

  function AnnotationElementBytes(at: seq<nat>, e: AnnotationElement): seq<byte> {
    Le(Where(at, e.name), 4) + Le(if e.value.InPlace? then e.value.w else Where(at, e.value.link), 4)
  }

  function AnnotationElementsBytes(at: seq<nat>, es: seq<AnnotationElement>): seq<byte> {
    if es == [] then [] else AnnotationElementBytes(at, es[0]) + AnnotationElementsBytes(at, es[1..])
  }

  function AnnotationBytes(at: seq<nat>, cls: nat, es: seq<AnnotationElement>, tags: seq<byte>): seq<byte> {
    Le(cls, 2) + (Le(|es|, 2) + (AnnotationElementsBytes(at, es) + tags))
  }

  function CalculateAnnotationSize(es: seq<AnnotationElement>, tags: seq<byte>): nat {
    2 + 2 + 8 * |es| + |tags|
  }

  lemma {:induction false} AnnotationElementsLie(
    file: seq<byte>, p: nat, at: seq<nat>, es: seq<AnnotationElement>, i: nat)
    requires i <= |es|
    ensures |AnnotationElementsBytes(at, es)| == 8 * |es|
    ensures Lies(file, p, AnnotationElementsBytes(at, es)) && i < |es| ==>
      Lies(file, p + 8 * i, AnnotationElementBytes(at, es[i]))
    decreases |es|
  {
    hide Le, Lies, Where;
    if es != [] {
      AnnotationElementsLie(file, p + 8, at, es[1..], if i == 0 then 0 else i - 1);
      LiesSplit(file, p, AnnotationElementBytes(at, es[0]), AnnotationElementsBytes(at, es[1..]));
    }
  }

  /** An annotation takes exactly what was reserved for it: class, count, elements of eight bytes, and tags. */
  lemma {:induction false} AnnotationExact(
    file: seq<byte>, p: nat, at: seq<nat>, cls: nat, es: seq<AnnotationElement>, tags: seq<byte>, i: nat)
    ensures |AnnotationBytes(at, cls, es, tags)| == CalculateAnnotationSize(es, tags)
    ensures Lies(file, p, AnnotationBytes(at, cls, es, tags)) ==>
      && Lies(file, p, Le(cls, 2)) && Lies(file, p + 2, Le(|es|, 2))
      && (i < |es| ==> Lies(file, p + 4 + 8 * i, AnnotationElementBytes(at, es[i])))
      && Lies(file, p + 4 + 8 * |es|, tags)
  {
    hide AnnotationElementsBytes, AnnotationElementBytes, Le, Lies;
    var elems := AnnotationElementsBytes(at, es);
    AnnotationElementsLie(file, p + 4, at, es, if i < |es| then i else 0);
    LiesSplit(file, p, Le(cls, 2), Le(|es|, 2) + (elems + tags));
    LiesSplit(file, p + 2, Le(|es|, 2), elems + tags);
    LiesSplit(file, p + 4, elems, tags);
  }

  // ---------- annotations of parameters ----------

  function ParamsAnnotationBytes(at: seq<nat>, params: seq<seq<nat>>): seq<byte> {
    if params == [] then []
    else Le(|params[0]|, 4) + LinkBytes(at, params[0]) + ParamsAnnotationBytes(at, params[1..])
  }

  /** Room for the first n parameters. */
  function ParamsAnnotationSize(params: seq<seq<nat>>, n: nat): nat
    requires n <= |params|
  {
    if n == 0 then 0 else ParamsAnnotationSize(params, n - 1) + 4 + 4 * |params[n - 1]|
  }

  function ParamAnnotationsBytes(at: seq<nat>, params: seq<seq<nat>>): seq<byte> {
    Le(|params|, 4) + ParamsAnnotationBytes(at, params)
  }

  function CalculateParamAnnotationsSize(params: seq<seq<nat>>): nat {
    4 + ParamsAnnotationSize(params, |params|)
  }

  lemma {:induction false} ParamsAnnotationShift(params: seq<seq<nat>>, n: nat)
    requires 0 < n <= |params|
    ensures ParamsAnnotationSize(params, n) == 4 + 4 * |params[0]| + ParamsAnnotationSize(params[1..], n - 1)
  {
    if n > 1 {
      ParamsAnnotationShift(params, n - 1);
    }
  }

  lemma {:induction false} ParamsAnnotationLie(file: seq<byte>, p: nat, at: seq<nat>, params: seq<seq<nat>>, i: nat)
    requires i <= |params|
    ensures |ParamsAnnotationBytes(at, params)| == ParamsAnnotationSize(params, |params|)
    ensures Lies(file, p, ParamsAnnotationBytes(at, params)) && i < |params| ==>
      && Lies(file, p + ParamsAnnotationSize(params, i), Le(|params[i]|, 4))
      && Lies(file, p + ParamsAnnotationSize(params, i) + 4, LinkBytes(at, params[i]))
    decreases |params|
  {
    hide Le, Lies, LinkBytes;
    if params != [] {
      var head, links := Le(|params[0]|, 4), LinkBytes(at, params[0]);
      LinksLie(file, p, at, params[0], 0);
      ParamsAnnotationLie(file, p + |head + links|, at, params[1..], if i == 0 then 0 else i - 1);
      ParamsAnnotationShift(params, |params|);
      LiesSplit(file, p, head + links, ParamsAnnotationBytes(at, params[1..]));
      LiesSplit(file, p, head, links);
      if i > 0 {
        ParamsAnnotationShift(params, i);
      }
    }
  }

  /** Annotations of parameters take exactly what was reserved, one counted list for each parameter. */
  lemma {:induction false} ParamAnnotationsExact(file: seq<byte>, p: nat, at: seq<nat>, params: seq<seq<nat>>, i: nat)
    ensures |ParamAnnotationsBytes(at, params)| == CalculateParamAnnotationsSize(params)
    ensures Lies(file, p, ParamAnnotationsBytes(at, params)) && i < |params| ==>
      && Lies(file, p + 4 + ParamsAnnotationSize(params, i), Le(|params[i]|, 4))
      && Lies(file, p + 4 + ParamsAnnotationSize(params, i) + 4, LinkBytes(at, params[i]))
  {
    hide ParamsAnnotationBytes, ParamsAnnotationSize, Le, Lies, LinkBytes;
    ParamsAnnotationLie(file, p + 4, at, params, if i < |params| then i else 0);
    LiesSplit(file, p, Le(|params|, 4), ParamsAnnotationBytes(at, params));
  }

  // ---------- prototypes ----------

  /** The packed types, then the indexes of the reference types among them. */
  function ProtoBytes(shorty: seq<nat>, refs: seq<nat>): seq<byte> {
    IndexBytes(shorty + refs)
  }

  function CalculateProtoSize(shorty: seq<nat>, refs: seq<nat>): nat {
    2 * |shorty| + 2 * |refs|
  }

  lemma {:induction false} ProtoSizeExact(shorty: seq<nat>, refs: seq<nat>)
    ensures |ProtoBytes(shorty, refs)| == CalculateProtoSize(shorty, refs)
  {
    IndexBytesLength(shorty + refs);
  }
}
