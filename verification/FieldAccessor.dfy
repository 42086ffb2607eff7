/** Fields of a class in a file: how they are written, and the accessor that reads them back lazily. */
module FieldAccessor {
  import opened Bytes
  import opened Leb128
  import opened FileBytes
  import opened Isa
  import opened TaggedData

  /** Integers are stored in the field; other values as four bytes, for wide types the offset of the value. */
  datatype FieldValue = NoValue | IntValue(v: int) | WordValue(w: nat)

  datatype FieldItem = FieldItem(
    cls: nat, typ: nat, name: nat, flags: nat, value: FieldValue, runtimeAnnotations: seq<nat>, annotations: seq<nat>)

  predicate ValidField(f: FieldItem) {
    && f.cls < Base(2) && f.typ < Base(2) && Id(f.name)
    && (f.value.WordValue? ==> Id(f.value.w))
    && Ids(f.runtimeAnnotations) && Ids(f.annotations)
  }

  const INT_VALUE: byte := 1
  const VALUE: byte := 2

  function ValueBytes(v: FieldValue): seq<byte> {
    match v
    case NoValue => []
    case IntValue(i) => [INT_VALUE] + Sleb(i)
    case WordValue(w) => [VALUE] + Le(w, 4)
  }

  /** Fields of foreign classes have no access flags and no tagged data. */
  function FieldHead(f: FieldItem, foreign: bool): seq<byte> {
    Le(f.cls, 2) + (Le(f.typ, 2) + (Le(f.name, 4) + if foreign then [] else Uleb(f.flags)))
  }

  function FieldSections(f: FieldItem): (secs: seq<Section>)
    ensures |secs| == 2
  {
    [Section(3, 4, f.runtimeAnnotations), Section(4, 4, f.annotations)]
  }

  function FieldBytes(f: FieldItem, foreign: bool): seq<byte> {
    if foreign then FieldHead(f, true)
    else FieldHead(f, false) + (ValueBytes(f.value) + Tail(FieldSections(f), 0))
  }

  function CalculateFieldSize(f: FieldItem, foreign: bool): nat {
    var base := 2 + 2 + 4;
    if foreign then base
    else
      var value :=
        match f.value
        case NoValue => 0
        case IntValue(i) => 1 + SignedEncodingSize(i)
        case WordValue(_) => 1 + 4;
      base + UnsignedEncodingSize(f.flags) + value + 5 * |f.runtimeAnnotations| + 5 * |f.annotations| + 1
  }

  lemma {:induction false} FieldTagged(f: FieldItem)
    requires ValidField(f)
    ensures Tagged(FieldSections(f)) && forall k :: 0 <= k < 2 ==> FieldSections(f)[k].tag == k + 3
  {
    forall k | 0 <= k < 2 ensures FieldSections(f)[k].tag == k + 3 && ValidSection(FieldSections(f)[k]) {
    }
  }

  lemma {:induction false} FieldSectionsEnd(f: FieldItem)
    ensures Place(FieldSections(f), 2) == 5 * |f.runtimeAnnotations| + 5 * |f.annotations|
  {
    hide SectionSize, Place;
    var secs := FieldSections(f);
    ListSize(secs[0]);
    ListSize(secs[1]);
    NextPlace(secs, 0);
    NextPlace(secs, 1);
  }

  /** The field takes exactly the bytes that were reserved for it. */
  lemma {:induction false} FieldSizeExact(f: FieldItem, foreign: bool)
    ensures |FieldBytes(f, foreign)| == CalculateFieldSize(f, foreign)
  {
    hide Uleb, Sleb, UnsignedEncodingSize, SignedEncodingSize, Le, Tail, FieldSections;
    UlebSize(f.flags);
    if f.value.IntValue? {
      SlebSize(f.value.v);
    }
    if !foreign {
      TailLength(FieldSections(f), 0);
      NextPlace(FieldSections(f), 0);
      FieldSectionsEnd(f);
    }
  }

  // ---------- reading ----------

  /** The value as an unsigned number, and the position after it. */
  function ReadValue(file: seq<byte>, p: nat, wide: bool): (Option<nat>, nat) {
    if p < |file| && file[p] == INT_VALUE then
      var (v, next) := ReadSlebAt(file, p + 1);
      (Some(v % 0x1_0000_0000), next)
    else if p < |file| && file[p] == VALUE then
      var w := ReadLe(file, p + 1, 4);
      (Some(if wide then ReadLe(file, w, 8) else w), p + 5)
    else (None, p)
  }

  function ValueOf(file: seq<byte>, v: FieldValue, wide: bool): Option<nat> {
    match v
    case NoValue => None
    case IntValue(i) => Some(i % 0x1_0000_0000)
    case WordValue(w) => Some(if wide then ReadLe(file, w, 8) else w)
  }

  lemma {:induction false} ValueRead(file: seq<byte>, p: nat, f: FieldItem, wide: bool)
    requires ValidField(f) && Lies(file, p, ValueBytes(f.value) + Tail(FieldSections(f), 0))
    ensures ReadValue(file, p, wide) == (ValueOf(file, f.value, wide), p + |ValueBytes(f.value)|)
  {
    hide Sleb, Le, Tail, ReadLe, ReadSlebAt, Lies, Base, FieldSections, Tagged;
    var rest := Tail(FieldSections(f), 0);
    LiesByte(file, p, ValueBytes(f.value) + rest);
    LiesSplit(file, p, ValueBytes(f.value), rest);
    match f.value
    case NoValue =>
      FieldTagged(f);
      NextTag(FieldSections(f), 0, INT_VALUE);
      NextTag(FieldSections(f), 0, VALUE);
    case IntValue(i) =>
      LiesSplit(file, p, [INT_VALUE], Sleb(i));
      ReadSlebBack(file, p + 1, i);
    case WordValue(w) =>
      LiesSplit(file, p, [VALUE], Le(w, 4));
      ReadLeBack(file, p + 1, w, 4);
  }

  lemma {:induction false} FieldHeadRead(file: seq<byte>, id: nat, f: FieldItem, foreign: bool)
    requires ValidField(f) && Lies(file, id, FieldBytes(f, foreign))
    ensures ReadLe(file, id, 2) == f.cls && ReadLe(file, id + 2, 2) == f.typ && ReadLe(file, id + 4, 4) == f.name
    ensures !foreign ==>
      && ReadUlebAt(file, id + 8) == (f.flags, id + |FieldHead(f, false)|)
      && Lies(file, id + |FieldHead(f, false)|, ValueBytes(f.value) + Tail(FieldSections(f), 0))
      && Lies(file, id + |FieldHead(f, false)| + |ValueBytes(f.value)|, Tail(FieldSections(f), 0))
  {
    hide Uleb, Le, Tail, ReadLe, ReadUlebAt, Lies, Base, FieldSections, ValueBytes;
    var flags := if foreign then [] else Uleb(f.flags);
    if !foreign {
      LiesSplit(file, id, FieldHead(f, false), ValueBytes(f.value) + Tail(FieldSections(f), 0));
      LiesSplit(file, id + |FieldHead(f, false)|, ValueBytes(f.value), Tail(FieldSections(f), 0));
    }
    LiesSplit(file, id, Le(f.cls, 2), Le(f.typ, 2) + (Le(f.name, 4) + flags));
    LiesSplit(file, id + 2, Le(f.typ, 2), Le(f.name, 4) + flags);
    LiesSplit(file, id + 4, Le(f.name, 4), flags);
    ReadLeBack(file, id, f.cls, 2);
    ReadLeBack(file, id + 2, f.typ, 2);
    ReadLeBack(file, id + 4, f.name, 4);
    if !foreign {
      ReadUlebBack(file, id + 8, f.flags);
    }
  }

  datatype FieldCall = GetValue | GetRuntimeAnnotations | GetAnnotations | GetFieldSize

  function FieldAnswer(file: seq<byte>, f: FieldItem, foreign: bool, wide: bool, call: FieldCall): Answer {
    match call
    case GetValue => Value(if foreign then None else ValueOf(file, f.value, wide))
    case GetRuntimeAnnotations => Values(if foreign then [] else f.runtimeAnnotations)
    case GetAnnotations => Values(if foreign then [] else f.annotations)
    case GetFieldSize => Number(CalculateFieldSize(f, foreign))
  }

  class FieldDataAccessor {
    const file: seq<byte>
    const id: nat
    const external: bool
    // which type indexes stand for types with 64-bit values
    const isWide: nat -> bool
    ghost const item: FieldItem

    const classIdx: nat
    const typeIdx: nat
    const nameOff: nat
    const accessFlags: nat
    const taggedValues: nat

    var runtimeAnnotations: Option<nat>
    var annotations: Option<nat>
    var size: nat

    ghost function Sections(): nat {
      taggedValues + |ValueBytes(item.value)|
    }

    ghost predicate Constant() {
      && ValidField(item)
      && Lies(file, id, FieldBytes(item, external))
      && classIdx == item.cls && typeIdx == item.typ && nameOff == item.name
      && accessFlags == (if external then 0 else item.flags)
      && (!external ==>
            && taggedValues == id + |FieldHead(item, false)|
            && Lies(file, taggedValues, ValueBytes(item.value) + Tail(FieldSections(item), 0))
            && Lies(file, Sections(), Tail(FieldSections(item), 0)))
    }

    ghost predicate Valid()
      reads this
    {
      && Constant()
      && CursorAt(runtimeAnnotations, Sections(), FieldSections(item), 0)
      && CursorAt(annotations, Sections(), FieldSections(item), 1)
      && (size == CalculateFieldSize(item, external) || (size == 0 && !external))
    }

    constructor (file: seq<byte>, id: nat, external: bool, isWide: nat -> bool, ghost item: FieldItem)
      requires ValidField(item) && Lies(file, id, FieldBytes(item, external))
      ensures Valid() && this.file == file && this.id == id && this.external == external && this.isWide == isWide
      ensures this.item == item
    {
      hide Lies, Tail, FieldHead, ReadLe, ReadUlebAt, UnsignedEncodingSize, ValidField, Place, FieldSections,
        ValueBytes, FieldBytes;
      FieldHeadRead(file, id, item, external);
      FieldSizeExact(item, external);
      this.file, this.id, this.external, this.isWide, this.item := file, id, external, isWide, item;
      classIdx := ReadLe(file, id, 2);
      typeIdx := ReadLe(file, id + 2, 2);
      nameOff := ReadLe(file, id + 4, 4);
      if external {
        accessFlags, taggedValues, size := 0, 0, 8;
      } else {
        var (flags, next) := ReadUlebAt(file, id + 8);
        accessFlags, taggedValues, size := flags, next, 0;
      }
      runtimeAnnotations, annotations := None, None;
    }

    method GetValueInternal() returns (v: Option<nat>)
      requires Valid() && !external
      modifies this
      ensures Valid() && v == ValueOf(file, item.value, isWide(item.typ))
      ensures runtimeAnnotations.Some?
    {
      hide Lies, Tail, Place, ReadValue, FieldSections, CalculateFieldSize, ValueBytes, FieldBytes, ValueOf;
      ValueRead(file, taggedValues, item, isWide(item.typ));
      NextPlace(FieldSections(item), 0);
      var (r, next) := ReadValue(file, taggedValues, isWide(typeIdx));
      runtimeAnnotations := Some(next);
      return r;
    }

    method GetFieldValue() returns (v: Option<nat>)
      requires Valid()
      modifies this
      ensures Valid() && Value(v) == FieldAnswer(file, item, external, isWide(item.typ), GetValue)
    {
      hide Valid, ValueOf;
      if external {
        return None;
      }
      v := GetValueInternal();
    }

    /** What reading section k gives. */
    lemma {:induction false} Reads(k: nat)
      requires Constant() && !external && k < 2
      ensures
        var s := FieldSections(item)[k];
        var p, next := Sections() + Place(FieldSections(item), k), Sections() + Place(FieldSections(item), k + 1);
        s.tag == k + 3 && TaggedValues(file, p, s.tag, s.width) == (s.values, next)
    {
      hide Tail, Place, TaggedValues, GetOptionalTaggedValue, Lies, FieldSections, Tagged, Sections;
      FieldTagged(item);
      SectionRead(file, Sections(), FieldSections(item), k);
    }

    /** The position after the last section, and the zero tag, make the size. */
    lemma {:induction false} EndIsSize()
      requires Constant() && !external
      ensures id <= Sections()
      ensures Sections() + Place(FieldSections(item), 2) - id + 1 == CalculateFieldSize(item, external)
    {
      hide Place, Tail, Lies, FieldSections, CalculateFieldSize, FieldHead, ValueBytes;
      FieldSizeExact(item, external);
      TailLength(FieldSections(item), 0);
      NextPlace(FieldSections(item), 0);
    }

    method EnumerateRuntimeAnnotations() returns (vs: seq<nat>)
      requires Valid()
      modifies this
      ensures Valid() && Values(vs) == FieldAnswer(file, item, external, isWide(item.typ), GetRuntimeAnnotations)
      ensures !external ==> annotations.Some?
    {
      hide Constant, Place, TaggedValues, CalculateFieldSize, Sections, ValueOf;
      if external {
        return [];
      }
      if runtimeAnnotations.None? {
        var _ := GetValueInternal();
      }
      Reads(0);
      var next;
      vs, next := EnumerateTaggedValues(file, runtimeAnnotations.value, 3, 4);
      annotations := Some(next);
    }

    method EnumerateAnnotations() returns (vs: seq<nat>)
      requires Valid()
      modifies this
      ensures Valid() && Values(vs) == FieldAnswer(file, item, external, isWide(item.typ), GetAnnotations)
      ensures size == CalculateFieldSize(item, external)
    {
      hide Constant, Place, TaggedValues, CalculateFieldSize, Sections, ValueOf;
      if external {
        return [];
      }
      if annotations.None? {
        var _ := EnumerateRuntimeAnnotations();
      }
      Reads(1);
      EndIsSize();
      var next;
      vs, next := EnumerateTaggedValues(file, annotations.value, 4, 4);
      size := next - id + 1;
    }

    method GetSize() returns (n: nat)
      requires Valid()
      modifies this
      ensures Valid() && Number(n) == FieldAnswer(file, item, external, isWide(item.typ), GetFieldSize)
    {
      hide Constant, Place, CalculateFieldSize, ValueOf;
      if size == 0 {
        var _ := EnumerateAnnotations();
      }
      return size;
    }

    method Ask(call: FieldCall) returns (a: Answer)
      requires Valid()
      modifies this
      ensures Valid() && a == FieldAnswer(file, item, external, isWide(item.typ), call)
    {
      hide Valid, FieldAnswer;
      match call
      case GetValue => var v := GetFieldValue(); return Value(v);
      case GetRuntimeAnnotations => var vs := EnumerateRuntimeAnnotations(); return Values(vs);
      case GetAnnotations => var vs := EnumerateAnnotations(); return Values(vs);
      case GetFieldSize => var n := GetSize(); return Number(n);
    }

    /** Any run of calls gets, call by call, what was written. */
    method Run(calls: seq<FieldCall>) returns (answers: seq<Answer>)
      requires Valid()
      modifies this
      ensures Valid() && |answers| == |calls|
      ensures forall i :: 0 <= i < |calls| ==>
        answers[i] == FieldAnswer(file, item, external, isWide(item.typ), calls[i])
    {
      hide Valid, FieldAnswer;
      answers := [];
      for i := 0 to |calls|
        invariant Valid() && |answers| == i
        invariant forall j :: 0 <= j < i ==> answers[j] == FieldAnswer(file, item, external, isWide(item.typ), calls[j])
      {
        var a := Ask(calls[i]);
        answers := answers + [a];
      }
    }
  }
}
