/** Methods of a class in a file: how they are written, and the accessor that reads them back lazily. */
module MethodAccessor {
  import opened Bytes
  import opened Leb128
  import opened FileBytes
  import opened Isa
  import opened TaggedData

  datatype MethodItem = MethodItem(
    cls: nat, proto: nat, name: nat, flags: nat,
    code: Option<nat>, lang: nat, runtimeAnnotations: seq<nat>, runtimeParam: Option<nat>,
    debug: Option<nat>, annotations: seq<nat>, param: Option<nat>)

  predicate ValidMethod(m: MethodItem) {
    && m.cls < Base(2) && m.proto < Base(2) && Id(m.name) && m.lang < Base(1)
    && OptionalId(m.code) && OptionalId(m.runtimeParam) && OptionalId(m.debug) && OptionalId(m.param)
    && Ids(m.runtimeAnnotations) && Ids(m.annotations)
  }

  function MethodHead(m: MethodItem): seq<byte> {
    Le(m.cls, 2) + (Le(m.proto, 2) + (Le(m.name, 4) + Uleb(m.flags)))
  }

  /** The tagged sections of a method; section k has tag k + 1. */
  function MethodSections(m: MethodItem): (secs: seq<Section>)
    ensures |secs| == 7
  {
    [Section(1, 4, FromOption(m.code)),
     Section(2, 1, Language(m.lang)),
     Section(3, 4, m.runtimeAnnotations),
     Section(4, 4, FromOption(m.runtimeParam)),
     Section(5, 4, FromOption(m.debug)),
     Section(6, 4, m.annotations),
     Section(7, 4, FromOption(m.param))]
  }

  /** Methods of foreign classes have no tagged data. */
  function MethodBytes(m: MethodItem, foreign: bool): seq<byte> {
    if foreign then MethodHead(m) else MethodHead(m) + Tail(MethodSections(m), 0)
  }

  function CalculateMethodSize(m: MethodItem, foreign: bool): nat {
    var head := 2 + 2 + 4 + UnsignedEncodingSize(m.flags);
    if foreign then head
    else
      head
      + (if m.code.Some? then 5 else 0) + (if m.lang != PANDA_ASSEMBLY then 2 else 0)
      + 5 * |m.runtimeAnnotations| + (if m.runtimeParam.Some? then 5 else 0)
      + 5 * |m.annotations| + (if m.param.Some? then 5 else 0) + (if m.debug.Some? then 5 else 0)
      + 1
  }

  lemma {:induction false} MethodTagged(m: MethodItem)
    requires ValidMethod(m)
    ensures Tagged(MethodSections(m))
    ensures forall k :: 0 <= k < 7 ==> MethodSections(m)[k].tag == k + 1
  {
    var secs := MethodSections(m);
    forall k | 0 <= k < 7 ensures secs[k].tag == k + 1 && ValidSection(secs[k]) {
    }
  }

  lemma {:induction false} SectionsEnd(m: MethodItem)
    ensures Place(MethodSections(m), 7) + UnsignedEncodingSize(m.flags) + 9 == CalculateMethodSize(m, false)
  {
    hide Uleb, UnsignedEncodingSize, SectionSize, Place;
    var secs := MethodSections(m);
    OptionalSize(secs[0]);
    OptionalSize(secs[1]);
    ListSize(secs[2]);
    OptionalSize(secs[3]);
    OptionalSize(secs[4]);
    ListSize(secs[5]);
    OptionalSize(secs[6]);
    NextPlace(secs, 0);
    NextPlace(secs, 1);
    NextPlace(secs, 2);
    NextPlace(secs, 3);
    NextPlace(secs, 4);
    NextPlace(secs, 5);
    NextPlace(secs, 6);
  }

  /** The method takes exactly the bytes that were reserved for it. */
  lemma {:induction false} MethodSizeExact(m: MethodItem, foreign: bool)
    ensures |MethodBytes(m, foreign)| == CalculateMethodSize(m, foreign)
  {
    hide Uleb, UnsignedEncodingSize, Le, Tail, MethodSections;
    UlebSize(m.flags);
    if !foreign {
      TailLength(MethodSections(m), 0);
      SectionsEnd(m);
    }
  }

  /** What can be asked of an accessor, in any order and any number of times. */
  datatype MethodCall =
    | CodeId | SourceLang | RuntimeAnnotations | RuntimeParamAnnotationId | DebugInfoId | Annotations
    | ParamAnnotationId | Size

  function MethodAnswer(m: MethodItem, foreign: bool, call: MethodCall): Answer {
    match call
    case CodeId => Value(if foreign then None else m.code)
    case SourceLang => Value(if foreign then None else AsOption(Language(m.lang)))
    case RuntimeAnnotations => Values(if foreign then [] else m.runtimeAnnotations)
    case RuntimeParamAnnotationId => Value(if foreign then None else m.runtimeParam)
    case DebugInfoId => Value(if foreign then None else m.debug)
    case Annotations => Values(if foreign then [] else m.annotations)
    case ParamAnnotationId => Value(if foreign then None else m.param)
    case Size => Number(CalculateMethodSize(m, foreign))
  }

  lemma {:induction false} MethodHeadRead(file: seq<byte>, id: nat, m: MethodItem, foreign: bool)
    requires ValidMethod(m) && Lies(file, id, MethodBytes(m, foreign))
    ensures ReadLe(file, id, 2) == m.cls && ReadLe(file, id + 2, 2) == m.proto && ReadLe(file, id + 4, 4) == m.name
    ensures ReadUlebAt(file, id + 8) == (m.flags, id + |MethodHead(m)|)
    ensures !foreign ==> Lies(file, id + |MethodHead(m)|, Tail(MethodSections(m), 0))
  {
    hide Uleb, Le, Tail, ReadLe, ReadUlebAt, Lies, Base, MethodSections;
    if !foreign {
      LiesSplit(file, id, MethodHead(m), Tail(MethodSections(m), 0));
    }
    LiesSplit(file, id, Le(m.cls, 2), Le(m.proto, 2) + (Le(m.name, 4) + Uleb(m.flags)));
    LiesSplit(file, id + 2, Le(m.proto, 2), Le(m.name, 4) + Uleb(m.flags));
    LiesSplit(file, id + 4, Le(m.name, 4), Uleb(m.flags));
    ReadLeBack(file, id, m.cls, 2);
    ReadLeBack(file, id + 2, m.proto, 2);
    ReadLeBack(file, id + 4, m.name, 4);
    ReadUlebBack(file, id + 8, m.flags);
  }

  class MethodDataAccessor {
    const file: seq<byte>
    const id: nat
    const external: bool
    ghost const item: MethodItem

    const classIdx: nat
    const protoIdx: nat
    const nameOff: nat
    const accessFlags: nat
    const taggedValues: nat

    var sourceLang: Option<nat>
    var runtimeAnnotations: Option<nat>
    var runtimeParam: Option<nat>
    var debug: Option<nat>
    var annotations: Option<nat>
    var param: Option<nat>
    var size: nat

    ghost predicate Constant()
    {
      && ValidMethod(item)
      && Lies(file, id, MethodBytes(item, external))
      && classIdx == item.cls && protoIdx == item.proto && nameOff == item.name && accessFlags == item.flags
      && taggedValues == id + |MethodHead(item)|
      && (!external ==> Lies(file, taggedValues, Tail(MethodSections(item), 0)))
    }

    ghost predicate Valid()
      reads this
    {
      var secs := MethodSections(item);
      && Constant()
      && CursorAt(sourceLang, taggedValues, secs, 1)
      && CursorAt(runtimeAnnotations, taggedValues, secs, 2)
      && CursorAt(runtimeParam, taggedValues, secs, 3)
      && CursorAt(debug, taggedValues, secs, 4)
      && CursorAt(annotations, taggedValues, secs, 5)
      && CursorAt(param, taggedValues, secs, 6)
      && (size == CalculateMethodSize(item, external) || (size == 0 && !external))
    }

    constructor (file: seq<byte>, id: nat, external: bool, ghost item: MethodItem)
      requires ValidMethod(item) && Lies(file, id, MethodBytes(item, external))
      ensures Valid() && this.file == file && this.id == id && this.external == external && this.item == item
    {
      hide Lies, Tail, MethodHead, ReadLe, ReadUlebAt, UnsignedEncodingSize, ValidMethod, Place, MethodSections;
      MethodHeadRead(file, id, item, external);
      MethodSizeExact(item, external);
      this.file, this.id, this.external, this.item := file, id, external, item;
      classIdx := ReadLe(file, id, 2);
      protoIdx := ReadLe(file, id + 2, 2);
      nameOff := ReadLe(file, id + 4, 4);
      var (flags, next) := ReadUlebAt(file, id + 8);
      accessFlags := flags;
      taggedValues := next;
      sourceLang, runtimeAnnotations, runtimeParam, debug, annotations, param := None, None, None, None, None, None;
      size := if external then next - id else 0;
    }

    /** What reading section k gives. */
    lemma {:induction false} Reads(k: nat)
      requires Constant() && !external && k < 7
      ensures
        var s := MethodSections(item)[k];
        var p, next := taggedValues + Place(MethodSections(item), k), taggedValues + Place(MethodSections(item), k + 1);
        && s.tag == k + 1
        && TaggedValues(file, p, s.tag, s.width) == (s.values, next)
        && (|s.values| <= 1 ==> GetOptionalTaggedValue(file, p, s.tag, s.width) == (AsOption(s.values), next))
    {
      hide Tail, Place, TaggedValues, GetOptionalTaggedValue, Lies, MethodSections, Tagged;
      MethodTagged(item);
      SectionRead(file, taggedValues, MethodSections(item), k);
    }

    method GetCodeId() returns (v: Option<nat>)
      requires Valid()
      modifies this
      ensures Valid() && Value(v) == MethodAnswer(item, external, CodeId)
      ensures !external ==> sourceLang.Some?
    {
      hide Constant, Place, GetOptionalTaggedValue, CalculateMethodSize;
      if external {
        return None;
      }
      AtStart();
      Reads(0);
      var (r, next) := GetOptionalTaggedValue(file, taggedValues, 1, 4);
      sourceLang := Some(next);
      return r;
    }

    lemma {:induction false} AtStart()
      ensures Place(MethodSections(item), 0) == 0
    {
    }

    method GetSourceLang() returns (v: Option<nat>)
      requires Valid()
      modifies this
      ensures Valid() && Value(v) == MethodAnswer(item, external, SourceLang)
      ensures !external ==> runtimeAnnotations.Some?
    {
      hide Constant, Place, GetOptionalTaggedValue, CalculateMethodSize;
      if external {
        return None;
      }
      if sourceLang.None? {
        var _ := GetCodeId();
      }
      Reads(1);
      var (r, next) := GetOptionalTaggedValue(file, sourceLang.value, 2, 1);
      runtimeAnnotations := Some(next);
      return r;
    }

    method EnumerateRuntimeAnnotations() returns (vs: seq<nat>)
      requires Valid()
      modifies this
      ensures Valid() && Values(vs) == MethodAnswer(item, external, RuntimeAnnotations)
      ensures !external ==> runtimeParam.Some?
    {
      hide Constant, Place, TaggedValues, CalculateMethodSize;
      if external {
        return [];
      }
      if runtimeAnnotations.None? {
        var _ := GetSourceLang();
      }
      Reads(2);
      var next;
      vs, next := EnumerateTaggedValues(file, runtimeAnnotations.value, 3, 4);
      runtimeParam := Some(next);
    }

    method GetRuntimeParamAnnotationId() returns (v: Option<nat>)
      requires Valid()
      modifies this
      ensures Valid() && Value(v) == MethodAnswer(item, external, RuntimeParamAnnotationId)
      ensures !external ==> debug.Some?
    {
      hide Constant, Place, GetOptionalTaggedValue, CalculateMethodSize;
      if external {
        return None;
      }
      if runtimeParam.None? {
        var _ := EnumerateRuntimeAnnotations();
      }
      Reads(3);
      var (r, next) := GetOptionalTaggedValue(file, runtimeParam.value, 4, 4);
      debug := Some(next);
      return r;
    }

    method GetDebugInfoId() returns (v: Option<nat>)
      requires Valid()
      modifies this
      ensures Valid() && Value(v) == MethodAnswer(item, external, DebugInfoId)
      ensures !external ==> annotations.Some?
    {
      hide Constant, Place, GetOptionalTaggedValue, CalculateMethodSize;
      if external {
        return None;
      }
      if debug.None? {
        var _ := GetRuntimeParamAnnotationId();
      }
      Reads(4);
      var (r, next) := GetOptionalTaggedValue(file, debug.value, 5, 4);
      annotations := Some(next);
      return r;
    }

    method EnumerateAnnotations() returns (vs: seq<nat>)
      requires Valid()
      modifies this
      ensures Valid() && Values(vs) == MethodAnswer(item, external, Annotations)
      ensures !external ==> param.Some?
    {
      hide Constant, Place, TaggedValues, CalculateMethodSize;
      if external {
        return [];
      }
      if annotations.None? {
        var _ := GetDebugInfoId();
      }
      Reads(5);
      var next;
      vs, next := EnumerateTaggedValues(file, annotations.value, 6, 4);
      param := Some(next);
    }

    /** The position after the last section, and the zero tag, make the size. */
    lemma {:induction false} EndIsSize()
      requires Constant() && !external
      ensures id <= taggedValues
      ensures taggedValues + Place(MethodSections(item), 7) - id + 1 == CalculateMethodSize(item, external)
    {
      hide Place, Tail, Lies, MethodSections, CalculateMethodSize, MethodHead;
      MethodSizeExact(item, external);
      TailLength(MethodSections(item), 0);
      AtStart();
    }

    method GetParamAnnotationId() returns (v: Option<nat>)
      requires Valid()
      modifies this
      ensures Valid() && Value(v) == MethodAnswer(item, external, ParamAnnotationId)
      ensures size == CalculateMethodSize(item, external)
    {
      hide Constant, Place, GetOptionalTaggedValue, CalculateMethodSize;
      if external {
        return None;
      }
      if param.None? {
        var _ := EnumerateAnnotations();
      }
      Reads(6);
      EndIsSize();
      var (r, next) := GetOptionalTaggedValue(file, param.value, 7, 4);
      size := next - id + 1;
      return r;
    }

    method GetSize() returns (n: nat)
      requires Valid()
      modifies this
      ensures Valid() && Number(n) == MethodAnswer(item, external, Size)
    {
      hide Constant, Place, CalculateMethodSize;
      if size == 0 {
        var _ := GetParamAnnotationId();
      }
      return size;
    }

    method Ask(call: MethodCall) returns (a: Answer)
      requires Valid()
      modifies this
      ensures Valid() && a == MethodAnswer(item, external, call)
    {
      hide Valid, MethodAnswer;
      match call
      case CodeId => var v := GetCodeId(); return Value(v);
      case SourceLang => var v := GetSourceLang(); return Value(v);
      case RuntimeAnnotations => var vs := EnumerateRuntimeAnnotations(); return Values(vs);
      case RuntimeParamAnnotationId => var v := GetRuntimeParamAnnotationId(); return Value(v);
      case DebugInfoId => var v := GetDebugInfoId(); return Value(v);
      case Annotations => var vs := EnumerateAnnotations(); return Values(vs);
      case ParamAnnotationId => var v := GetParamAnnotationId(); return Value(v);
      case Size => var n := GetSize(); return Number(n);
    }

    /** Any run of calls gets, call by call, what was written. */
    method Run(calls: seq<MethodCall>) returns (answers: seq<Answer>)
      requires Valid()
      modifies this
      ensures Valid() && |answers| == |calls|
      ensures forall i :: 0 <= i < |calls| ==> answers[i] == MethodAnswer(item, external, calls[i])
    {
      hide Valid, MethodAnswer;
      answers := [];
      for i := 0 to |calls|
        invariant Valid() && |answers| == i
        invariant forall j :: 0 <= j < i ==> answers[j] == MethodAnswer(item, external, calls[j])
      {
        var a := Ask(calls[i]);
        answers := answers + [a];
      }
    }
  }
}
