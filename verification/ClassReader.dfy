/** The class accessor: memoised cursors that give the same answers in any order of calls. */
module ClassReader {
  import opened Bytes
  import opened Leb128
  import opened FileBytes
  import opened Isa
  import opened TaggedData
  import opened MethodAccessor
  import opened FieldAccessor
  import opened ClassAccessor

  /** What a callback saw of one field or method: where it lies, and the answers to the questions asked of it. */
  datatype Element = Element(id: nat, answers: seq<Answer>)

  datatype ClassCall =
    | GetInterfaces | GetInterface(i: nat) | GetLang | GetClassRuntimeAnnotations | GetClassAnnotations | GetSourceFile
    | GetFields(ofField: seq<FieldCall>) | GetMethods(ofMethod: seq<MethodCall>) | GetClassSize

  datatype ClassAnswer = Plain(a: Answer) | Elements(es: seq<Element>)

  ghost predicate FieldAnswered(
    file: seq<byte>, f: FieldItem, wide: bool, calls: seq<FieldCall>, answers: seq<Answer>)
  {
    && |answers| == |calls|
    && forall i :: 0 <= i < |calls| ==> answers[i] == FieldAnswer(file, f, false, wide, calls[i])
  }

  ghost predicate MethodAnswered(m: MethodItem, calls: seq<MethodCall>, answers: seq<Answer>) {
    && |answers| == |calls|
    && forall i :: 0 <= i < |calls| ==> answers[i] == MethodAnswer(m, false, calls[i])
  }

  /** The n first fields were visited in order, each at its own offset. */
  ghost predicate FieldsAnswered(
    file: seq<byte>, c: ClassItem, start: nat, isWide: nat -> bool, calls: seq<FieldCall>, es: seq<Element>, n: nat)
  {
    |es| == n <= |c.fields| && forall i :: 0 <= i < n ==> FieldSeen(file, c, start, isWide, calls, es[i], i)
  }

  ghost predicate FieldSeen(
    file: seq<byte>, c: ClassItem, start: nat, isWide: nat -> bool, calls: seq<FieldCall>, e: Element, i: nat)
    requires i < |c.fields|
  {
    && e.id == start + FieldsSize(c.fields, i)
    && FieldAnswered(file, c.fields[i], isWide(c.fields[i].typ), calls, e.answers)
  }

  ghost predicate MethodsAnswered(c: ClassItem, start: nat, calls: seq<MethodCall>, es: seq<Element>, n: nat) {
    |es| == n <= |c.methods| && forall i :: 0 <= i < n ==> MethodSeen(c, start, calls, es[i], i)
  }

  ghost predicate MethodSeen(c: ClassItem, start: nat, calls: seq<MethodCall>, e: Element, i: nat)
    requires i < |c.methods|
  {
    e.id == start + MethodsSize(c.methods, i) && MethodAnswered(c.methods[i], calls, e.answers)
  }

  lemma {:induction false} NextField(
    file: seq<byte>, c: ClassItem, start: nat, isWide: nat -> bool, calls: seq<FieldCall>, es: seq<Element>, n: nat,
    answers: seq<Answer>)
    requires FieldsAnswered(file, c, start, isWide, calls, es, n) && n < |c.fields|
    requires FieldAnswered(file, c.fields[n], isWide(c.fields[n].typ), calls, answers)
    ensures FieldsAnswered(file, c, start, isWide, calls, es + [Element(start + FieldsSize(c.fields, n), answers)],
                           n + 1)
    ensures FieldsSize(c.fields, n + 1) == FieldsSize(c.fields, n) + CalculateFieldSize(c.fields[n], false)
  {
    hide FieldAnswered, CalculateFieldSize;
    assert FieldSeen(file, c, start, isWide, calls, Element(start + FieldsSize(c.fields, n), answers), n);
    hide FieldSeen;
  }

  lemma {:induction false} NextMethod(
    c: ClassItem, start: nat, calls: seq<MethodCall>, es: seq<Element>, n: nat, answers: seq<Answer>)
    requires MethodsAnswered(c, start, calls, es, n) && n < |c.methods| && MethodAnswered(c.methods[n], calls, answers)
    ensures MethodsAnswered(c, start, calls, es + [Element(start + MethodsSize(c.methods, n), answers)], n + 1)
    ensures MethodsSize(c.methods, n + 1) == MethodsSize(c.methods, n) + CalculateMethodSize(c.methods[n], false)
  {
    hide MethodAnswered, CalculateMethodSize;
    assert MethodSeen(c, start, calls, Element(start + MethodsSize(c.methods, n), answers), n);
    hide MethodSeen;
  }

  lemma {:induction false} NoneYet(
    file: seq<byte>, c: ClassItem, start: nat, isWide: nat -> bool, ofField: seq<FieldCall>, ofMethod: seq<MethodCall>)
    ensures FieldsAnswered(file, c, start, isWide, ofField, [], 0) && FieldsSize(c.fields, 0) == 0
    ensures MethodsAnswered(c, start, ofMethod, [], 0) && MethodsSize(c.methods, 0) == 0
  {
  }

  /** Where the fields and the methods of a class at `id` start. */
  function FieldsStart(id: nat, c: ClassItem): nat {
    id + CalculateSizeWithoutFieldsAndMethods(c)
  }

  function MethodsStart(id: nat, c: ClassItem): nat {
    FieldsStart(id, c) + FieldsSize(c.fields, |c.fields|)
  }

  /** The right answer to a question about class c at `id`. */
  ghost predicate Answered(
    file: seq<byte>, id: nat, c: ClassItem, isWide: nat -> bool, call: ClassCall, a: ClassAnswer)
  {
    match call
    case GetInterfaces => a == Plain(Values(c.ifaces))
    case GetInterface(i) => i < |c.ifaces| ==> a == Plain(Number(c.ifaces[i]))
    case GetLang => a == Plain(Value(AsOption(Language(c.lang))))
    case GetClassRuntimeAnnotations => a == Plain(Values(c.runtimeAnnotations))
    case GetClassAnnotations => a == Plain(Values(c.annotations))
    case GetSourceFile => a == Plain(Value(c.sourceFile))
    case GetFields(calls) => a.Elements? && FieldsAnswered(file, c, FieldsStart(id, c), isWide, calls, a.es, |c.fields|)
    case GetMethods(calls) => a.Elements? && MethodsAnswered(c, MethodsStart(id, c), calls, a.es, |c.methods|)
    case GetClassSize => a == Plain(Number(CalculateClassSize(c)))
  }

  lemma {:induction false} IndexRead(file: seq<byte>, p: nat, ifaces: seq<nat>, i: nat)
    requires Lies(file, p, IndexBytes(ifaces)) && i < |ifaces| && forall j :: 0 <= j < |ifaces| ==> ifaces[j] < Base(2)
    ensures ReadLe(file, p + 2 * i, 2) == ifaces[i]
    decreases i
  {
    hide Le, ReadLe, Lies, Base;
    LiesSplit(file, p, Le(ifaces[0], 2), IndexBytes(ifaces[1..]));
    if i == 0 {
      ReadLeBack(file, p, ifaces[0], 2);
    } else {
      IndexRead(file, p + 2, ifaces[1..], i - 1);
    }
  }

  lemma {:induction false} FirstTag(secs: seq<Section>, k: nat)
    requires k < |secs|
    ensures secs[k].values != [] ==> Tail(secs, k)[0] == secs[k].tag
  {
    var s := SectionBytes(secs[k].tag, secs[k].width, secs[k].values);
    assert secs[k].values != [] ==> s[0] == secs[k].tag;
  }

  /** If the first tag is the closing one, all sections are empty. */
  lemma {:induction false} NoSections(secs: seq<Section>, k: nat, n: nat)
    requires Tagged(secs) && k <= n <= |secs| && Tail(secs, k)[0] == 0
    ensures Place(secs, n) == Place(secs, k)
    decreases n - k
  {
    if k < n {
      assert ValidSection(secs[k]);
      FirstTag(secs, k);
      assert Tail(secs, k) == Tail(secs, k + 1);
      OptionalSize(secs[k]);
      NoSections(secs, k + 1, n);
    }
  }

  /** All parts of a class lie one after the other. */
  lemma {:induction false} PartsLie(file: seq<byte>, id: nat, c: ClassItem)
    requires Lies(file, id, ClassBytes(c))
    ensures Lies(file, id, ClassHead(c))
    ensures Lies(file, id + |ClassHead(c)|, IfacesBytes(c.ifaces) + Tail(ClassSections(c), 0))
    ensures Lies(file, id + |ClassHead(c)| + |IfacesBytes(c.ifaces)|, Tail(ClassSections(c), 0))
    ensures Lies(file, FieldsStart(id, c), FieldsBytes(c.fields) + MethodsBytes(c.methods))
    ensures Lies(file, MethodsStart(id, c), MethodsBytes(c.methods))
    ensures FieldsStart(id, c) == id + |ClassHead(c)| + |IfacesBytes(c.ifaces)| + Place(ClassSections(c), 4) + 1
    ensures MethodsStart(id, c) + MethodsSize(c.methods, |c.methods|) == id + CalculateClassSize(c)
  {
    hide ClassHead, IfacesBytes, Tail, ClassSections, FieldsBytes, MethodsBytes, Lies, Place,
      CalculateSizeWithoutFieldsAndMethods, FieldsSize, MethodsSize;
    var head, ifaces, tail := ClassHead(c), IfacesBytes(c.ifaces), Tail(ClassSections(c), 0);
    var members := FieldsBytes(c.fields) + MethodsBytes(c.methods);
    ClassSizeExact(c);
    FieldsLength(c.fields);
    LiesSplit(file, id, head, ifaces + (tail + members));
    LiesSplit(file, id + |head|, ifaces, tail + members);
    LiesSplit(file, id + |head| + |ifaces|, tail, members);
    LiesSplit(file, id + |head|, ifaces, tail);
    LiesSplit(file, FieldsStart(id, c), FieldsBytes(c.fields), MethodsBytes(c.methods));
  }

  /** Position after the fixed part of a class head. */
  lemma {:induction false} HeadEnd(c: ClassItem)
    ensures |ClassHead(c)|
      == |Uleb(c.nameLength)| + |c.name| + 1 + 4 + |Uleb(c.flags)| + |Uleb(|c.fields|)| + |Uleb(|c.methods|)|
  {
  }

  class ClassDataAccessor {
    const file: seq<byte>
    const id: nat
    const isWide: nat -> bool
    ghost const item: ClassItem

    const nameLength: nat
    const nameAt: nat
    const superClassOff: nat
    const accessFlags: nat
    const numFields: nat
    const numMethods: nat
    const numIfaces: nat
    const ifacesOffsets: nat
    const sourceLang: nat

    var runtimeAnnotations: Option<nat>
    var annotations: Option<nat>
    var sourceFile: Option<nat>
    var fields: Option<nat>
    var methods: Option<nat>
    var size: nat

    ghost predicate Constant() {
      && ValidClass(item)
      && Lies(file, id, ClassBytes(item))
      && nameLength == item.nameLength && Lies(file, nameAt, item.name + [0])
      && superClassOff == item.super && accessFlags == item.flags
      && numFields == |item.fields| && numMethods == |item.methods| && numIfaces == |item.ifaces|
      && Lies(file, ifacesOffsets, IndexBytes(item.ifaces))
      && sourceLang == id + |ClassHead(item)| + |IfacesBytes(item.ifaces)|
      && Lies(file, sourceLang, Tail(ClassSections(item), 0))
    }

    ghost predicate Valid()
      reads this
    {
      var secs := ClassSections(item);
      && Constant()
      && CursorAt(runtimeAnnotations, sourceLang, secs, 1)
      && CursorAt(annotations, sourceLang, secs, 2)
      && CursorAt(sourceFile, sourceLang, secs, 3)
      && (fields.Some? ==> fields.value == FieldsStart(id, item))
      && (methods.Some? ==> methods.value == MethodsStart(id, item))
      && (size == 0 || size == CalculateClassSize(item))
    }

    constructor (file: seq<byte>, id: nat, isWide: nat -> bool, ghost item: ClassItem)
      requires ValidClass(item) && Lies(file, id, ClassBytes(item))
      ensures Valid() && this.file == file && this.id == id && this.isWide == isWide && this.item == item
    {
      hide ClassHead, IfacesBytes, Tail, ClassSections, FieldsBytes, MethodsBytes, Lies, Place, ValidClass, Uleb,
        Le, ReadUlebAt, ReadLe, FieldsStart, MethodsStart, ClassBytes, IndexBytes, CalculateClassSize;
      PartsLie(file, id, item);
      NameRead(file, id, item);
      var (length, p) := ReadUlebAt(file, id);
      NamePlain(item);
      var n := Mutf8Size(file, p, item.name);
      var q := p + n + 1;
      NumbersRead(file, q, item);
      HeadEnd(item);
      var (flags, q1) := ReadUlebAt(file, q + 4);
      var (nf, q2) := ReadUlebAt(file, q1);
      var (nm, q3) := ReadUlebAt(file, q2);
      var ni, at, next := ReadInterfaces(file, q3, item);
      this.file, this.id, this.isWide, this.item := file, id, isWide, item;
      nameLength, nameAt, superClassOff, accessFlags := length, p, ReadLe(file, q, 4), flags;
      numFields, numMethods, numIfaces, ifacesOffsets := nf, nm, ni, at;
      sourceLang := next;
      runtimeAnnotations, methods, size := None, None, 0;
      if ByteAt(file, next) == 0 {
        AllEmpty(file, next, item);
        annotations, sourceFile, fields := Some(next), Some(next), Some(next + 1);
      } else {
        annotations, sourceFile, fields := None, None, None;
      }
    }

    method EnumerateInterfaces() returns (vs: seq<nat>)
      requires Valid()
      ensures vs == item.ifaces
    {
      hide Lies, ClassBytes, ClassHead, IfacesBytes, Tail, IndexBytes, FieldsStart, MethodsStart, Place,
        CalculateClassSize;
      vs := [];
      for i := 0 to numIfaces
        invariant vs == item.ifaces[..i]
      {
        IndexRead(file, ifacesOffsets, item.ifaces, i);
        vs := vs + [ReadLe(file, ifacesOffsets + 2 * i, 2)];
      }
    }

    method GetInterfaceId(i: nat) returns (v: nat)
      requires Valid()
      ensures i < |item.ifaces| ==> v == item.ifaces[i]
    {
      hide Lies, ClassBytes, ClassHead, IfacesBytes, Tail, IndexBytes, FieldsStart, MethodsStart, Place,
        CalculateClassSize;
      if i < |item.ifaces| {
        IndexRead(file, ifacesOffsets, item.ifaces, i);
      }
      return ReadLe(file, ifacesOffsets + 2 * i, 2);
    }

    /** What reading section k gives. */
    lemma {:induction false} Reads(k: nat)
      requires Constant() && k < 4
      ensures
        var s := ClassSections(item)[k];
        var p, next := sourceLang + Place(ClassSections(item), k), sourceLang + Place(ClassSections(item), k + 1);
        && s.tag == k + 2
        && TaggedValues(file, p, s.tag, s.width) == (s.values, next)
        && (|s.values| <= 1 ==> GetOptionalTaggedValue(file, p, s.tag, s.width) == (AsOption(s.values), next))
      ensures k == 0 ==> Place(ClassSections(item), k) == 0
    {
      hide Tail, Place, TaggedValues, GetOptionalTaggedValue, Lies, ClassSections, Tagged, ClassBytes, IndexBytes,
        ValidClass, ClassHead, IfacesBytes;
      ClassTagged(item);
      SectionRead(file, sourceLang, ClassSections(item), k);
      NextPlace(ClassSections(item), k);
    }

    method GetSourceLang() returns (v: Option<nat>)
      requires Valid()
      modifies this
      ensures Valid() && v == AsOption(Language(item.lang))
      ensures runtimeAnnotations.Some?
    {
      hide Constant, Place, GetOptionalTaggedValue, FieldsStart, MethodsStart, CalculateClassSize;
      Reads(0);
      var (r, next) := GetOptionalTaggedValue(file, sourceLang, 2, 1);
      runtimeAnnotations := Some(next);
      return r;
    }

    method EnumerateRuntimeAnnotations() returns (vs: seq<nat>)
      requires Valid()
      modifies this
      ensures Valid() && vs == item.runtimeAnnotations
      ensures annotations.Some?
    {
      hide Constant, Place, TaggedValues, FieldsStart, MethodsStart, CalculateClassSize;
      if runtimeAnnotations.None? {
        var _ := GetSourceLang();
      }
      Reads(1);
      var next;
      vs, next := EnumerateTaggedValues(file, runtimeAnnotations.value, 3, 4);
      annotations := Some(next);
    }

    method EnumerateAnnotations() returns (vs: seq<nat>)
      requires Valid()
      modifies this
      ensures Valid() && vs == item.annotations
      ensures sourceFile.Some?
    {
      hide Constant, Place, TaggedValues, FieldsStart, MethodsStart, CalculateClassSize;
      if annotations.None? {
        var _ := EnumerateRuntimeAnnotations();
      }
      Reads(2);
      var next;
      vs, next := EnumerateTaggedValues(file, annotations.value, 4, 4);
      sourceFile := Some(next);
    }

    lemma {:induction false} FieldsFollow()
      requires Constant()
      ensures sourceLang + Place(ClassSections(item), 4) + 1 == FieldsStart(id, item)
      ensures Lies(file, FieldsStart(id, item), FieldsBytes(item.fields) + MethodsBytes(item.methods))
      ensures Lies(file, MethodsStart(id, item), MethodsBytes(item.methods))
      ensures MethodsStart(id, item) + MethodsSize(item.methods, |item.methods|) == id + CalculateClassSize(item)
    {
      hide Tail, Place, Lies, ClassSections, ClassBytes, IndexBytes, ValidClass, ClassHead, IfacesBytes,
        FieldsStart, MethodsStart, FieldsBytes, MethodsBytes, CalculateClassSize;
      PartsLie(file, id, item);
    }

    lemma {:induction false} SourceFileRead()
      requires Constant()
      ensures
        var r := GetOptionalTaggedValue(file, sourceLang + Place(ClassSections(item), 3), 5, 4);
        r.0 == item.sourceFile && r.1 + 1 == FieldsStart(id, item)
    {
      hide Constant, Place, GetOptionalTaggedValue, FieldsStart, MethodsStart, CalculateClassSize, TaggedValues,
        Lies, FieldsBytes, MethodsBytes, MethodsSize;
      Reads(3);
      FieldsFollow();
    }

    method GetSourceFileId() returns (v: Option<nat>)
      requires Valid()
      modifies this
      ensures Valid() && v == item.sourceFile
      ensures fields.Some?
    {
      hide Constant, Place, GetOptionalTaggedValue, FieldsStart, MethodsStart, CalculateClassSize, ClassSections;
      if sourceFile.None? {
        var _ := EnumerateAnnotations();
      }
      SourceFileRead();
      var (r, next) := GetOptionalTaggedValue(file, sourceFile.value, 5, 4);
      fields := Some(next + 1);
      return r;
    }

    lemma {:induction false} FieldsHold()
      requires Constant()
      ensures numFields == |item.fields| && numMethods == |item.methods|
      ensures forall i :: 0 <= i < |item.fields| ==> ValidField(item.fields[i])
      ensures forall i :: 0 <= i < |item.methods| ==> ValidMethod(item.methods[i])
    {
      hide Lies, ClassBytes, ClassHead, IfacesBytes, Tail, IndexBytes;
    }

    method ReadField(p: nat, i: nat, calls: seq<FieldCall>) returns (answers: seq<Answer>, n: nat)
      requires i < |item.fields| && ValidField(item.fields[i]) && Lies(file, p, FieldBytes(item.fields[i], false))
      ensures FieldAnswered(file, item.fields[i], isWide(item.fields[i].typ), calls, answers)
      ensures n == CalculateFieldSize(item.fields[i], false)
    {
      hide Lies, FieldBytes, ValidField, CalculateFieldSize, FieldDataAccessor.Valid;
      var a := new FieldDataAccessor(file, p, false, isWide, item.fields[i]);
      answers := a.Run(calls);
      n := a.GetSize();
    }

    /** A run over the fields from position p; the callback asks the same questions of every field. */
    method ReadFields(p: nat, calls: seq<FieldCall>) returns (es: seq<Element>, next: nat)
      requires Lies(file, p, FieldsBytes(item.fields) + MethodsBytes(item.methods)) && numFields == |item.fields|
      requires forall i :: 0 <= i < |item.fields| ==> ValidField(item.fields[i])
      ensures FieldsAnswered(file, item, p, isWide, calls, es, |item.fields|)
      ensures next == p + FieldsSize(item.fields, |item.fields|)
    {
      hide Lies, FieldsBytes, MethodsBytes, FieldBytes, ValidField, CalculateFieldSize, FieldAnswered,
        FieldsAnswered, FieldsSize;
      NoneYet(file, item, p, isWide, calls, []);
      es, next := [], p;
      for i := 0 to numFields
        invariant next == p + FieldsSize(item.fields, i) && FieldsAnswered(file, item, p, isWide, calls, es, i)
      {
        FieldLies(file, p, item.fields, MethodsBytes(item.methods), i);
        var answers, n := ReadField(next, i, calls);
        NextField(file, item, p, isWide, calls, es, i, answers);
        es := es + [Element(next, answers)];
        next := next + n;
      }
    }

    method ReadMethod(p: nat, i: nat, calls: seq<MethodCall>) returns (answers: seq<Answer>, n: nat)
      requires i < |item.methods| && ValidMethod(item.methods[i]) && Lies(file, p, MethodBytes(item.methods[i], false))
      ensures MethodAnswered(item.methods[i], calls, answers)
      ensures n == CalculateMethodSize(item.methods[i], false)
    {
      hide Lies, MethodBytes, ValidMethod, CalculateMethodSize, MethodDataAccessor.Valid;
      var a := new MethodDataAccessor(file, p, false, item.methods[i]);
      answers := a.Run(calls);
      n := a.GetSize();
    }

    method ReadMethods(p: nat, calls: seq<MethodCall>) returns (es: seq<Element>, next: nat)
      requires Lies(file, p, MethodsBytes(item.methods)) && numMethods == |item.methods|
      requires forall i :: 0 <= i < |item.methods| ==> ValidMethod(item.methods[i])
      ensures MethodsAnswered(item, p, calls, es, |item.methods|)
      ensures next == p + MethodsSize(item.methods, |item.methods|)
    {
      hide Lies, MethodsBytes, MethodBytes, ValidMethod, CalculateMethodSize, MethodAnswered, MethodsAnswered,
        MethodsSize;
      NoneYet(file, item, p, isWide, [], calls);
      es, next := [], p;
      for i := 0 to numMethods
        invariant next == p + MethodsSize(item.methods, i) && MethodsAnswered(item, p, calls, es, i)
      {
        MethodLies(file, p, item.methods, i);
        var answers, n := ReadMethod(next, i, calls);
        NextMethod(item, p, calls, es, i, answers);
        es := es + [Element(next, answers)];
        next := next + n;
      }
    }

    /** The callback asks the same questions of every field. */
    method EnumerateFields(calls: seq<FieldCall>) returns (es: seq<Element>)
      requires Valid()
      modifies this
      ensures Valid() && FieldsAnswered(file, item, FieldsStart(id, item), isWide, calls, es, |item.fields|)
      ensures methods.Some?
    {
      hide Constant, Place, Lies, FieldsStart, CalculateClassSize, FieldsAnswered, FieldsBytes, MethodsBytes,
        FieldsSize;
      if fields.None? {
        var _ := GetSourceFileId();
      }
      var p := fields.value;
      FieldsFollow();
      FieldsHold();
      var next;
      es, next := ReadFields(p, calls);
      methods := Some(next);
    }

    method EnumerateMethods(calls: seq<MethodCall>) returns (es: seq<Element>)
      requires Valid()
      modifies this
      ensures Valid() && MethodsAnswered(item, MethodsStart(id, item), calls, es, |item.methods|)
      ensures size == CalculateClassSize(item)
    {
      hide Constant, Place, Lies, FieldsStart, MethodsStart, CalculateClassSize, MethodAnswer, FieldsBytes,
        MethodsBytes, MethodsSize;
      if methods.None? {
        var _ := EnumerateFields([]);
      }
      var p := methods.value;
      FieldsFollow();
      FieldsHold();
      var end;
      es, end := ReadMethods(p, calls);
      size := end - id;
    }

    method GetSize() returns (n: nat)
      requires Valid()
      modifies this
      ensures Valid() && n == CalculateClassSize(item)
    {
      hide Constant, FieldsStart, MethodsStart, CalculateClassSize;
      if size == 0 {
        var _ := EnumerateMethods([]);
      }
      return size;
    }

    method Ask(call: ClassCall) returns (a: ClassAnswer)
      requires Valid()
      modifies this
      ensures Valid() && Answered(file, id, item, isWide, call, a)
    {
      hide Valid, FieldsStart, MethodsStart, CalculateClassSize, FieldsAnswered, MethodsAnswered, AsOption, Language;
      match call
      case GetInterfaces => var vs := EnumerateInterfaces(); return Plain(Values(vs));
      case GetInterface(i) => var v := GetInterfaceId(i); return Plain(Number(v));
      case GetLang => var v := GetSourceLang(); return Plain(Value(v));
      case GetClassRuntimeAnnotations => var vs := EnumerateRuntimeAnnotations(); return Plain(Values(vs));
      case GetClassAnnotations => var vs := EnumerateAnnotations(); return Plain(Values(vs));
      case GetSourceFile => var v := GetSourceFileId(); return Plain(Value(v));
      case GetFields(calls) => var es := EnumerateFields(calls); return Elements(es);
      case GetMethods(calls) => var es := EnumerateMethods(calls); return Elements(es);
      case GetClassSize => var n := GetSize(); return Plain(Number(n));
    }

    /** Any run of calls gets, call by call, what was written. */
    method Run(calls: seq<ClassCall>) returns (answers: seq<ClassAnswer>)
      requires Valid()
      modifies this
      ensures Valid() && |answers| == |calls|
      ensures forall i :: 0 <= i < |calls| ==> Answered(file, id, item, isWide, calls[i], answers[i])
    {
      hide Valid, Answered;
      answers := [];
      for i := 0 to |calls|
        invariant Valid() && |answers| == i
        invariant forall j :: 0 <= j < i ==> Answered(file, id, item, isWide, calls[j], answers[j])
      {
        var a := Ask(calls[i]);
        answers := answers + [a];
      }
    }
  }

  lemma {:induction false} NamePlain(c: ClassItem)
    requires ValidClass(c)
    ensures forall i :: 0 <= i < |c.name| ==> c.name[i] != 0
  {
  }

  /** A closing tag right after the interfaces: all cursors can be set at once. */
  lemma {:induction false} AllEmpty(file: seq<byte>, p: nat, c: ClassItem)
    requires ValidClass(c) && Lies(file, p, Tail(ClassSections(c), 0)) && ByteAt(file, p) == 0
    ensures Place(ClassSections(c), 2) == 0 && Place(ClassSections(c), 3) == 0 && Place(ClassSections(c), 4) == 0
  {
    hide Tail, Place, ClassSections, Tagged, Lies;
    ClassTagged(c);
    LiesByte(file, p, Tail(ClassSections(c), 0));
    NextPlace(ClassSections(c), 0);
    NoSections(ClassSections(c), 0, 2);
    NoSections(ClassSections(c), 0, 3);
    NoSections(ClassSections(c), 0, 4);
  }
}
