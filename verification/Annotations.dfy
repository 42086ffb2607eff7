/**
  Annotations of an assembly item arrive as a run of attributes. Builders collect one annotation and
  one element at a time and hand them over when the next one starts.
 */
module Annotations {
  import opened Isa

  datatype ValueType = ArrayType | AnnotationType | PlainType(kind: nat)

  /** A value: text of some type, or an annotation that was given an id before. */
  datatype Scalar = PlainValue(typ: ValueType, text: string) | Nested(d: Data)

  datatype Element = Element(name: string, typ: Option<ValueType>, component: Option<ValueType>, values: seq<Scalar>)
  datatype Data = Data(name: string, elements: seq<Element>)
  datatype Annotation = Annotation(id: Option<string>, data: Data)

  /** Attributes with a value, and any other attribute. */
  datatype Attribute =
    | Record(name: string) | Id(id: string) | ElementName(name: string) | ElementType(typ: ValueType)
    | ComponentType(typ: ValueType) | ElementValue(text: string) | Other

  predicate Completed(e: Element) {
    && e.typ.Some?
    && (e.typ.value == ArrayType ==> e.component.Some?)
    && (e.typ.value != ArrayType ==> e.values != [])
  }

  // ---------- what a run of attributes says ----------

  /** All annotations opened so far, as far as they are given, and whether the last one is still open. */
  datatype Doc = Doc(anns: seq<Annotation>, open: bool)

  function Unnamed(anns: seq<Annotation>): seq<Data> {
    if anns == [] then []
    else
      var last := anns[|anns| - 1];
      Unnamed(anns[..|anns| - 1]) + if last.id.None? then [last.data] else []
  }

  /** Annotations by id; the first one with an id keeps it. */
  function ById(anns: seq<Annotation>): map<string, Data> {
    if anns == [] then map[]
    else
      var before, last := ById(anns[..|anns| - 1]), anns[|anns| - 1];
      if last.id.Some? && last.id.value !in before then before[last.id.value := last.data] else before
  }

  function Closed(doc: Doc): seq<Annotation> {
    if doc.open && doc.anns != [] then doc.anns[..|doc.anns| - 1] else doc.anns
  }

  predicate Open(doc: Doc) {
    doc.open && doc.anns != []
  }

  function Last(doc: Doc): Annotation
    requires Open(doc)
  {
    doc.anns[|doc.anns| - 1]
  }

  predicate InElement(doc: Doc) {
    Open(doc) && Last(doc).data.elements != []
  }

  function LastElement(doc: Doc): Element
    requires InElement(doc)
  {
    Last(doc).data.elements[|Last(doc).data.elements| - 1]
  }

  function WithLast(doc: Doc, a: Annotation): Doc
    requires Open(doc)
  {
    doc.(anns := doc.anns[|doc.anns| - 1 := a])
  }

  function WithElement(doc: Doc, e: Element): Doc
    requires InElement(doc)
  {
    var a := Last(doc);
    var es := a.data.elements;
    WithLast(doc, a.(data := a.data.(elements := es[|es| - 1 := e])))
  }

  /** The value a text stands for, if it is right for the type. */
  function CreateValue(
    parses: (ValueType, string) -> bool, t: ValueType, text: string, ids: map<string, Data>): Option<Scalar>
  {
    match t
    case AnnotationType => if text in ids then Some(Nested(ids[text])) else None
    case ArrayType => None
    case PlainType(_) => if parses(t, text) then Some(PlainValue(t, text)) else None
  }

  /** The type of one value of an element. */
  function ItemType(e: Element): Option<ValueType> {
    if e.typ == Some(ArrayType) then e.component else e.typ
  }

  predicate Incomplete(doc: Doc) {
    InElement(doc) && !Completed(LastElement(doc))
  }

  /** Which attribute may come next. */
  predicate Accepts(parses: (ValueType, string) -> bool, doc: Doc, a: Attribute) {
    match a
    case Record(_) => !Incomplete(doc)
    case Id(_) => Open(doc) && !InElement(doc) && Last(doc).id.None?
    case ElementName(_) => Open(doc) && !Incomplete(doc)
    case ElementType(_) => InElement(doc) && LastElement(doc).typ.None?
    case ComponentType(t) =>
      InElement(doc) && LastElement(doc).typ == Some(ArrayType) && LastElement(doc).component.None? && t != ArrayType
    case ElementValue(text) =>
      && InElement(doc) && ItemType(LastElement(doc)).Some?
      && (LastElement(doc).typ != Some(ArrayType) ==> LastElement(doc).values == [])
      && CreateValue(parses, ItemType(LastElement(doc)).value, text, ById(Closed(doc))).Some?
    case Other => !Incomplete(doc)
  }

  /** What the next attribute adds. */
  function Apply(parses: (ValueType, string) -> bool, doc: Doc, a: Attribute): Doc
    requires Accepts(parses, doc, a)
  {
    match a
    case Record(name) => Doc(doc.anns + [Annotation(None, Data(name, []))], true)
    case Id(id) => WithLast(doc, Last(doc).(id := Some(id)))
    case ElementName(name) =>
      var ann := Last(doc);
      WithLast(doc, ann.(data := ann.data.(elements := ann.data.elements + [Element(name, None, None, [])])))
    case ElementType(t) => WithElement(doc, LastElement(doc).(typ := Some(t)))
    case ComponentType(t) => WithElement(doc, LastElement(doc).(component := Some(t)))
    case ElementValue(text) =>
      var e := LastElement(doc);
      var v := CreateValue(parses, ItemType(e).value, text, ById(Closed(doc))).value;
      WithElement(doc, e.(values := e.values + [v]))
    case Other => doc.(open := false)
  }

  // ---------- the builders ----------

  datatype ElementBuilder = ElementBuilder(open: bool, e: Element)
  datatype AnnotationBuilder = AnnotationBuilder(open: bool, name: string, id: Option<string>, elements: seq<Element>)

  const NO_ELEMENT := ElementBuilder(false, Element("", None, None, []))
  const NO_ANNOTATION := AnnotationBuilder(false, "", None, [])

  /** The annotation under way, with the element under way. */
  function Current(ab: AnnotationBuilder, eb: ElementBuilder): Annotation {
    Annotation(ab.id, Data(ab.name, ab.elements + if eb.open then [eb.e] else []))
  }

  /** An open element is part of an open annotation, and nothing is left over in a closed builder. */
  predicate Fits(ab: AnnotationBuilder, eb: ElementBuilder) {
    && (eb.open ==> ab.open)
    && (!eb.open ==> eb == NO_ELEMENT && ab.elements == [])
    && (!ab.open ==> ab == NO_ANNOTATION)
    && ItemsFit(eb.e)
  }

  /** Only arrays have a component type or several values, and values come after the type. */
  predicate ItemsFit(e: Element) {
    && (e.typ != Some(ArrayType) ==> e.component.None? && |e.values| <= 1)
    && (ItemType(e).None? ==> e.values == [])
  }

  /** What builders and what was handed over stand for together. */
  function DocOf(closed: seq<Annotation>, ab: AnnotationBuilder, eb: ElementBuilder): Doc {
    Doc(closed + (if ab.open then [Current(ab, eb)] else []), ab.open)
  }

  lemma {:induction false} DocParts(closed: seq<Annotation>, ab: AnnotationBuilder, eb: ElementBuilder)
    requires Fits(ab, eb)
    ensures
      var doc := DocOf(closed, ab, eb);
      && (Open(doc) <==> ab.open)
      && (ab.open ==> Last(doc) == Current(ab, eb) && Closed(doc) == closed)
      && (!ab.open ==> doc.anns == closed)
      && (InElement(doc) <==> eb.open)
      && (eb.open ==> LastElement(doc) == eb.e)
      && (Incomplete(doc) <==> eb.open && !Completed(eb.e))
  {
  }

  lemma {:induction false} ElementChanged(
    closed: seq<Annotation>, ab: AnnotationBuilder, eb: ElementBuilder, e: Element)
    requires Fits(ab, eb) && eb.open
    ensures InElement(DocOf(closed, ab, eb))
    ensures DocOf(closed, ab, eb.(e := e)) == WithElement(DocOf(closed, ab, eb), e)
  {
    DocParts(closed, ab, eb);
    var doc := DocOf(closed, ab, eb);
    var es := ab.elements + [eb.e];
    assert es[|es| - 1 := e] == ab.elements + [e];
    assert doc.anns[|doc.anns| - 1 := Current(ab, eb.(e := e))] == closed + [Current(ab, eb.(e := e))];
  }

  /** Handing the element over to the annotation changes nothing but where it is kept. */
  lemma {:induction false} ElementHandedOver(ab: AnnotationBuilder, eb: ElementBuilder)
    requires eb.open
    ensures Current(ab.(elements := ab.elements + [eb.e]), NO_ELEMENT) == Current(ab, eb)
  {
  }

  lemma {:induction false} NextElement(closed: seq<Annotation>, ab: AnnotationBuilder, eb: ElementBuilder, name: string)
    requires Fits(ab, eb) && ab.open
    ensures
      var doc, next := DocOf(closed, ab, eb), ElementBuilder(true, Element(name, None, None, []));
      var more := if eb.open then ab.(elements := ab.elements + [eb.e]) else ab;
      && Open(doc) && Fits(more, next)
      && DocOf(closed, more, next)
         == WithLast(doc,
           Last(doc).(data := Last(doc).data.(elements := Last(doc).data.elements + [Element(name, None, None, [])])))
  {
    DocParts(closed, ab, eb);
    var doc, eb' := DocOf(closed, ab, eb), ElementBuilder(true, Element(name, None, None, []));
    var more := if eb.open then ab.(elements := ab.elements + [eb.e]) else ab;
    assert Current(more, eb').data.elements == Current(ab, eb).data.elements + [eb'.e];
    assert doc.anns[|doc.anns| - 1 := Current(more, eb')] == closed + [Current(more, eb')];
  }

  lemma {:induction false} IdSet(closed: seq<Annotation>, ab: AnnotationBuilder, eb: ElementBuilder, id: string)
    requires Fits(ab, eb) && ab.open
    ensures
      var doc := DocOf(closed, ab, eb);
      Open(doc) && DocOf(closed, ab.(id := Some(id)), eb) == WithLast(doc, Last(doc).(id := Some(id)))
  {
    DocParts(closed, ab, eb);
    var doc := DocOf(closed, ab, eb);
    assert doc.anns[|doc.anns| - 1 := Current(ab.(id := Some(id)), eb)] == closed + [Current(ab.(id := Some(id)), eb)];
  }

  lemma {:induction false} CloseOne(closed: seq<Annotation>, a: Annotation)
    ensures Unnamed(closed + [a]) == Unnamed(closed) + if a.id.None? then [a.data] else []
    ensures ById(closed + [a]) ==
      if a.id.Some? && a.id.value !in ById(closed) then ById(closed)[a.id.value := a.data] else ById(closed)
  {
    assert (closed + [a])[..|closed|] == closed;
  }

  class AnnotationMetadata {
    var annotationBuilder: AnnotationBuilder
    var elementBuilder: ElementBuilder
    var annotations: seq<Data>
    var idMap: map<string, Data>
    ghost var closed: seq<Annotation>

    ghost function Said(): Doc
      reads this
    {
      DocOf(closed, annotationBuilder, elementBuilder)
    }

    ghost predicate Valid()
      reads this
    {
      Fits(annotationBuilder, elementBuilder) && annotations == Unnamed(closed) && idMap == ById(closed)
    }

    constructor ()
      ensures Valid() && Said() == Doc([], false)
    {
      annotationBuilder, elementBuilder := NO_ANNOTATION, NO_ELEMENT;
      annotations, idMap, closed := [], map[], [];
    }

    predicate Unfinished()
      reads this
    {
      elementBuilder.open && !Completed(elementBuilder.e)
    }

    /** Hands the element over to the annotation: what has been said stays the same, and another one can begin. */
    method ResetElement()
      requires elementBuilder.open && Completed(elementBuilder.e)
      modifies `annotationBuilder, `elementBuilder
      ensures Said() == old(Said()) && elementBuilder == NO_ELEMENT
      ensures annotationBuilder
        == old(annotationBuilder).(elements := old(annotationBuilder).elements + [old(elementBuilder).e])
    {
      ElementHandedOver(annotationBuilder, elementBuilder);
      annotationBuilder := annotationBuilder.(elements := annotationBuilder.elements + [elementBuilder.e]);
      elementBuilder := NO_ELEMENT;
    }

    /** Hands the annotation over, by its id or in order. */
    method ResetAnnotation()
      requires Valid() && annotationBuilder.open && !Unfinished()
      modifies this
      ensures Valid() && !annotationBuilder.open && Said() == old(Said()).(open := false)
    {
      hide Completed, Unnamed, ById;
      ghost var a := Current(annotationBuilder, elementBuilder);
      CloseOne(closed, a);
      if elementBuilder.open && Completed(elementBuilder.e) {
        ElementHandedOver(annotationBuilder, elementBuilder);
        ResetElement();
      }
      var data := Data(annotationBuilder.name, annotationBuilder.elements);
      assert a == Annotation(annotationBuilder.id, data);
      if annotationBuilder.id.Some? {
        var id := annotationBuilder.id.value;
        if id !in idMap {
          idMap := idMap[id := data];
        }
      } else {
        annotations := annotations + [data];
      }
      closed := closed + [a];
      annotationBuilder := NO_ANNOTATION;
    }

    method MeetRecord(value: string) returns (ok: bool)
      requires Valid()
      modifies this
      ensures Valid() && (ok <==> !Incomplete(old(Said())))
      ensures Said() == if ok then Doc(old(Said()).anns + [Annotation(None, Data(value, []))], true) else old(Said())
    {
      hide Completed, Unnamed, ById;
      DocParts(closed, annotationBuilder, elementBuilder);
      if Unfinished() {
        return false;
      }
      if annotationBuilder.open {
        ResetAnnotation();
      }
      DocParts(closed, annotationBuilder, elementBuilder);
      annotationBuilder := annotationBuilder.(open := true, name := value);
      assert Current(annotationBuilder, elementBuilder) == Annotation(None, Data(value, []));
      return true;
    }

    method MeetId(value: string) returns (ok: bool)
      requires Valid()
      modifies this
      ensures Valid()
      ensures ok <==> Open(old(Said())) && !InElement(old(Said())) && Last(old(Said())).id.None?
      ensures Said() == if ok then WithLast(old(Said()), Last(old(Said())).(id := Some(value))) else old(Said())
    {
      hide Completed, Unnamed, ById, WithLast;
      DocParts(closed, annotationBuilder, elementBuilder);
      if !annotationBuilder.open || elementBuilder.open || annotationBuilder.id.Some? {
        return false;
      }
      IdSet(closed, annotationBuilder, elementBuilder, value);
      annotationBuilder := annotationBuilder.(id := Some(value));
      return true;
    }

    method MeetElementName(value: string) returns (ok: bool)
      requires Valid()
      modifies this
      ensures Valid() && (ok <==> Open(old(Said())) && !Incomplete(old(Said())))
      ensures !ok ==> Said() == old(Said())
      ensures ok ==>
        var a := Last(old(Said()));
        Said() == WithLast(old(Said()),
          a.(data := a.data.(elements := a.data.elements + [Element(value, None, None, [])])))
    {
      hide Completed, Unnamed, ById, WithLast, Current;
      DocParts(closed, annotationBuilder, elementBuilder);
      if !annotationBuilder.open || Unfinished() {
        return false;
      }
      NextElement(closed, annotationBuilder, elementBuilder, value);
      if elementBuilder.open && Completed(elementBuilder.e) {
        ResetElement();
      }
      elementBuilder := elementBuilder.(open := true, e := elementBuilder.e.(name := value));
      return true;
    }

    /** An element under way with another value of one of its fields. */
    method SetElement(e: Element)
      requires Valid() && elementBuilder.open && ItemsFit(e)
      modifies this
      ensures Valid() && InElement(old(Said())) && Said() == WithElement(old(Said()), e)
    {
      hide Unnamed, ById, WithElement, DocOf;
      ElementChanged(closed, annotationBuilder, elementBuilder, e);
      elementBuilder := elementBuilder.(e := e);
    }

    method MeetElementType(t: ValueType) returns (ok: bool)
      requires Valid()
      modifies this
      ensures Valid() && (ok <==> InElement(old(Said())) && LastElement(old(Said())).typ.None?)
      ensures Said() == if ok then WithElement(old(Said()), LastElement(old(Said())).(typ := Some(t))) else old(Said())
    {
      hide Completed, Unnamed, ById, WithElement, DocOf;
      DocParts(closed, annotationBuilder, elementBuilder);
      if !elementBuilder.open || elementBuilder.e.typ.Some? {
        return false;
      }
      SetElement(elementBuilder.e.(typ := Some(t)));
      return true;
    }

    method MeetComponentType(t: ValueType) returns (ok: bool)
      requires Valid()
      modifies this
      ensures Valid()
      ensures ok <==>
        && InElement(old(Said())) && LastElement(old(Said())).typ == Some(ArrayType)
        && LastElement(old(Said())).component.None? && t != ArrayType
      ensures Said() ==
        if ok then WithElement(old(Said()), LastElement(old(Said())).(component := Some(t))) else old(Said())
    {
      hide Completed, Unnamed, ById, WithElement, DocOf;
      DocParts(closed, annotationBuilder, elementBuilder);
      if !elementBuilder.open || elementBuilder.e.typ != Some(ArrayType) || elementBuilder.e.component.Some?
        || t == ArrayType {
        return false;
      }
      SetElement(elementBuilder.e.(component := Some(t)));
      return true;
    }

    method MeetElementValue(parses: (ValueType, string) -> bool, text: string) returns (ok: bool)
      requires Valid()
      modifies this
      ensures Valid() && (ok <==> Accepts(parses, old(Said()), ElementValue(text)))
      ensures Said() == if ok then Apply(parses, old(Said()), ElementValue(text)) else old(Said())
    {
      hide Unnamed, ById, WithElement, DocOf, CreateValue;
      DocParts(closed, annotationBuilder, elementBuilder);
      var e := elementBuilder.e;
      if !elementBuilder.open || e.typ.None? || (e.typ == Some(ArrayType) && e.component.None?) {
        return false;
      }
      if e.typ != Some(ArrayType) && Completed(e) {
        return false;
      }
      var v := CreateValue(parses, ItemType(e).value, text, idMap);
      if v.None? {
        return false;
      }
      SetElement(e.(values := e.values + [v.value]));
      return true;
    }

    /** Any other attribute, and the end of the run, closes what is open. */
    method Close() returns (ok: bool)
      requires Valid()
      modifies this
      ensures Valid() && (ok <==> !Incomplete(old(Said())))
      ensures Said() == if ok then old(Said()).(open := false) else old(Said())
    {
      hide Completed, Unnamed, ById;
      DocParts(closed, annotationBuilder, elementBuilder);
      if Unfinished() {
        return false;
      }
      if annotationBuilder.open {
        ResetAnnotation();
      }
      return true;
    }

    /** One attribute: it is accepted exactly if it may come next, and adds just what it says. */
    method StoreValue(parses: (ValueType, string) -> bool, a: Attribute) returns (ok: bool)
      requires Valid()
      modifies this
      ensures Valid() && (ok <==> Accepts(parses, old(Said()), a))
      ensures Said() == if ok then Apply(parses, old(Said()), a) else old(Said())
    {
      hide Valid, AnnotationMetadata.Said, Completed, WithElement, WithLast, CreateValue, ById;
      match a
      case Record(v) => ok := MeetRecord(v);
      case Id(v) => ok := MeetId(v);
      case ElementName(v) => ok := MeetElementName(v);
      case ElementType(t) => ok := MeetElementType(t);
      case ComponentType(t) => ok := MeetComponentType(t);
      case ElementValue(v) => ok := MeetElementValue(parses, v);
      case Other => ok := Close();
    }

    /**
      A whole run and its validation. The run is accepted exactly if every attribute may come where it
      does and no element is left incomplete; then all annotations opened are there, those without an
      id in order, the others by their ids.
     */
    method Run(parses: (ValueType, string) -> bool, attributes: seq<Attribute>) returns (ok: bool)
      requires Valid() && Said() == Doc([], false)
      modifies this
      ensures Valid()
      ensures ok <==> Says(parses, attributes).Some? && !Incomplete(Says(parses, attributes).value)
      ensures ok ==>
        var said := Says(parses, attributes).value.anns;
        annotations == Unnamed(said) && idMap == ById(said)
    {
      hide Completed, Accepts, Apply, DocOf, Unnamed, ById, Fits;
      assert attributes[..0] == [];
      for i := 0 to |attributes|
        invariant Valid() && Says(parses, attributes[..i]) == Some(Said())
      {
        ghost var before := Said();
        SaysNext(parses, attributes, i);
        ok := StoreValue(parses, attributes[i]);
        if !ok {
          SaysNothing(parses, attributes, i + 1);
          return;
        }
      }
      assert attributes[..|attributes|] == attributes;
      ghost var said := Said();
      ok := Close();
      if ok {
        AllClosed();
      }
    }

    lemma {:induction false} AllClosed()
      requires Valid() && !Said().open
      ensures annotations == Unnamed(Said().anns) && idMap == ById(Said().anns)
    {
      DocParts(closed, annotationBuilder, elementBuilder);
    }
  }

  /** What a run of attributes says, if each may come where it does. */
  function Says(parses: (ValueType, string) -> bool, attributes: seq<Attribute>): Option<Doc> {
    if attributes == [] then Some(Doc([], false))
    else
      var n := |attributes| - 1;
      var before := Says(parses, attributes[..n]);
      if before.Some? && Accepts(parses, before.value, attributes[n])
      then Some(Apply(parses, before.value, attributes[n]))
      else None
  }

  lemma {:induction false} SaysNext(parses: (ValueType, string) -> bool, attributes: seq<Attribute>, i: nat)
    requires i < |attributes|
    ensures
      var before, after := Says(parses, attributes[..i]), Says(parses, attributes[..i + 1]);
      after == if before.Some? && Accepts(parses, before.value, attributes[i])
               then Some(Apply(parses, before.value, attributes[i])) else None
  {
    assert attributes[..i + 1][..i] == attributes[..i];
  }

  lemma {:induction false} SaysNothing(parses: (ValueType, string) -> bool, attributes: seq<Attribute>, i: nat)
    requires i <= |attributes| && Says(parses, attributes[..i]).None?
    ensures Says(parses, attributes).None?
    decreases |attributes| - i
  {
    if i < |attributes| {
      SaysNext(parses, attributes, i);
      SaysNothing(parses, attributes, i + 1);
    } else {
      assert attributes[..i] == attributes;
    }
  }

  // ---------- nothing is lost ----------

  ghost predicate DistinctIds(anns: seq<Annotation>) {
    forall i, j :: 0 <= i < j < |anns| && anns[i].id.Some? ==> anns[i].id != anns[j].id
  }

  /** Annotation i can be found: in order, or by its id. */
  ghost predicate Found(anns: seq<Annotation>, i: nat)
    requires i < |anns|
  {
    match anns[i].id
    case None => anns[i].data in Unnamed(anns)
    case Some(id) => id in ById(anns) && ById(anns)[id] == anns[i].data
  }

  lemma {:induction false} ByIdFirst(anns: seq<Annotation>, i: nat)
    requires i < |anns| && anns[i].id.Some?
    ensures anns[i].id.value in ById(anns)
    ensures (forall j :: 0 <= j < i ==> anns[j].id != anns[i].id) ==> ById(anns)[anns[i].id.value] == anns[i].data
  {
    var n := |anns| - 1;
    if i < n {
      ByIdFirst(anns[..n], i);
    } else {
      ByIdOnly(anns[..n], anns[i].id.value);
    }
  }

  lemma {:induction false} ByIdOnly(anns: seq<Annotation>, id: string)
    ensures id in ById(anns) ==> exists j :: 0 <= j < |anns| && anns[j].id == Some(id)
  {
    if anns != [] {
      var n := |anns| - 1;
      ByIdOnly(anns[..n], id);
      if id in ById(anns[..n]) {
        var j :| 0 <= j < n && anns[..n][j].id == Some(id);
        assert anns[j].id == Some(id);
      } else if id in ById(anns) {
        assert anns[n].id == Some(id);
      }
    }
  }

  lemma {:induction false} UnnamedHas(anns: seq<Annotation>, i: nat)
    requires i < |anns| && anns[i].id.None?
    ensures anns[i].data in Unnamed(anns)
  {
    if i < |anns| - 1 {
      UnnamedHas(anns[..|anns| - 1], i);
    }
  }

  /** Where ids are distinct, no annotation is lost. */
  lemma {:induction false} NothingLost(anns: seq<Annotation>, i: nat)
    requires DistinctIds(anns) && i < |anns|
    ensures Found(anns, i)
  {
    if anns[i].id.None? {
      UnnamedHas(anns, i);
    } else {
      ByIdFirst(anns, i);
    }
  }

  /** An annotation is found by its id if and only if it is, or says the same as, the first one with that id. */
  lemma {:induction false} FoundExactly(anns: seq<Annotation>, first: nat, i: nat)
    requires first <= i < |anns| && anns[i].id.Some? && anns[first].id == anns[i].id
    requires forall j :: 0 <= j < first ==> anns[j].id != anns[i].id
    ensures Found(anns, i) <==> anns[i].data == anns[first].data
  {
    ByIdFirst(anns, first);
  }

  /** Two annotations that are given one id. */
  function Twice(id: string, a: string, b: string): seq<Attribute> {
    [Record(a), Id(id), Record(b), Id(id)]
  }

  lemma {:induction false} TwiceSays(parses: (ValueType, string) -> bool, id: string, a: string, b: string)
    ensures Says(parses, Twice(id, a, b))
      == Some(Doc([Annotation(Some(id), Data(a, [])), Annotation(Some(id), Data(b, []))], true))
  {
    hide Says;
    var run := Twice(id, a, b);
    assert Says(parses, run[..0]) == Some(Doc([], false)) by {
      NothingSaid(parses, run[..0]);
    }
    var first, second := Annotation(Some(id), Data(a, [])), Annotation(Some(id), Data(b, []));
    var plain, other := first.(id := None), second.(id := None);
    assert [] + [plain] == [plain] && [plain][0 := first] == [first];
    assert [first] + [other] == [first, other] && [first, other][1 := second] == [first, second];
    SaysNext(parses, run, 0);
    assert Says(parses, run[..1]) == Some(Doc([plain], true));
    SaysNext(parses, run, 1);
    assert Says(parses, run[..2]) == Some(Doc([first], true));
    SaysNext(parses, run, 2);
    assert Says(parses, run[..3]) == Some(Doc([first, other], true));
    SaysNext(parses, run, 3);
    assert run[..4] == run;
  }

  lemma {:induction false} NothingSaid(parses: (ValueType, string) -> bool, attributes: seq<Attribute>)
    requires |attributes| == 0
    ensures Says(parses, attributes) == Some(Doc([], false))
  {
  }

  /** The run is accepted, both annotations are said, and the second one is lost. */
  lemma {:induction false} SecondIsLost(parses: (ValueType, string) -> bool, id: string, a: string, b: string)
    requires a != b
    ensures Says(parses, Twice(id, a, b)).Some? && !Incomplete(Says(parses, Twice(id, a, b)).value)
    ensures
      var anns := Says(parses, Twice(id, a, b)).value.anns;
      |anns| == 2 && Found(anns, 0) && !Found(anns, 1)
  {
    hide Found, Says;
    TwiceSays(parses, id, a, b);
    var anns := [Annotation(Some(id), Data(a, [])), Annotation(Some(id), Data(b, []))];
    FoundExactly(anns, 0, 0);
    FoundExactly(anns, 0, 1);
  }

  /** What the builders keep of such a run: the first annotation, and no trace of the second. */
  method KeepFirst(parses: (ValueType, string) -> bool, id: string, a: string, b: string)
    returns (ok: bool, annotations: seq<Data>, idMap: map<string, Data>)
    ensures ok && annotations == [] && idMap == map[id := Data(a, [])]
  {
    TwiceSays(parses, id, a, b);
    ghost var anns := [Annotation(Some(id), Data(a, [])), Annotation(Some(id), Data(b, []))];
    CloseOne([], anns[0]);
    CloseOne([anns[0]], anns[1]);
    assert [] + [anns[0]] == [anns[0]] && [anns[0]] + [anns[1]] == anns;
    var metadata := new AnnotationMetadata();
    ok := metadata.Run(parses, Twice(id, a, b));
    annotations, idMap := metadata.annotations, metadata.idMap;
  }
}
