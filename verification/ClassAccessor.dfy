/** Classes in a file: how they are written, and the accessor that reads them back lazily. */
module ClassAccessor {
  import opened Bytes
  import opened Leb128
  import opened FileBytes
  import opened Isa
  import opened TaggedData
  import opened MethodAccessor
  import opened FieldAccessor

  /** The name is a zero-terminated string, stored after its length in UTF-16 units and an ASCII flag. */
  datatype ClassItem = ClassItem(
    nameLength: nat, name: seq<byte>, super: nat, flags: nat, ifaces: seq<nat>, lang: nat,
    runtimeAnnotations: seq<nat>, annotations: seq<nat>, sourceFile: Option<nat>,
    fields: seq<FieldItem>, methods: seq<MethodItem>)

  predicate ValidClass(c: ClassItem) {
    && (forall i :: 0 <= i < |c.name| ==> c.name[i] != 0)
    && Id(c.super) && c.lang < Base(1)
    && (forall i :: 0 <= i < |c.ifaces| ==> c.ifaces[i] < Base(2))
    && Ids(c.runtimeAnnotations) && Ids(c.annotations) && OptionalId(c.sourceFile)
    && (forall i :: 0 <= i < |c.fields| ==> ValidField(c.fields[i]))
    && (forall i :: 0 <= i < |c.methods| ==> ValidMethod(c.methods[i]))
  }

  const INTERFACES: byte := 1

  function IndexBytes(ifaces: seq<nat>): seq<byte> {
    if ifaces == [] then [] else Le(ifaces[0], 2) + IndexBytes(ifaces[1..])
  }

  function IfacesBytes(ifaces: seq<nat>): seq<byte> {
    if ifaces == [] then [] else [INTERFACES] + (Uleb(|ifaces|) + IndexBytes(ifaces))
  }

  function ClassHead(c: ClassItem): seq<byte> {
    Uleb(c.nameLength) + (c.name + ([0] + (Le(c.super, 4) + (Uleb(c.flags) + (Uleb(|c.fields|) + Uleb(|c.methods|))))))
  }

  /** The tagged sections after the interfaces; section k has tag k + 2. */
  function ClassSections(c: ClassItem): (secs: seq<Section>)
    ensures |secs| == 4
  {
    [Section(2, 1, Language(c.lang)),
     Section(3, 4, c.runtimeAnnotations),
     Section(4, 4, c.annotations),
     Section(5, 4, FromOption(c.sourceFile))]
  }

  function FieldsBytes(fields: seq<FieldItem>): seq<byte> {
    if fields == [] then [] else FieldBytes(fields[0], false) + FieldsBytes(fields[1..])
  }

  function MethodsBytes(methods: seq<MethodItem>): seq<byte> {
    if methods == [] then [] else MethodBytes(methods[0], false) + MethodsBytes(methods[1..])
  }

  function ClassBytes(c: ClassItem): seq<byte> {
    ClassHead(c)
      + (IfacesBytes(c.ifaces) + (Tail(ClassSections(c), 0) + (FieldsBytes(c.fields) + MethodsBytes(c.methods))))
  }

  // ---------- sizes ----------

  function FieldsSize(fields: seq<FieldItem>, n: nat): nat
    requires n <= |fields|
  {
    if n == 0 then 0 else FieldsSize(fields, n - 1) + CalculateFieldSize(fields[n - 1], false)
  }

  function MethodsSize(methods: seq<MethodItem>, n: nat): nat
    requires n <= |methods|
  {
    if n == 0 then 0 else MethodsSize(methods, n - 1) + CalculateMethodSize(methods[n - 1], false)
  }

  function CalculateSizeWithoutFieldsAndMethods(c: ClassItem): nat {
    UnsignedEncodingSize(c.nameLength) + |c.name| + 1 + 4 + UnsignedEncodingSize(c.flags)
    + UnsignedEncodingSize(|c.fields|) + UnsignedEncodingSize(|c.methods|)
    + (if c.ifaces != [] then 1 + UnsignedEncodingSize(|c.ifaces|) + 2 * |c.ifaces| else 0)
    + (if c.lang != PANDA_ASSEMBLY then 2 else 0)
    + 5 * |c.runtimeAnnotations| + 5 * |c.annotations|
    + (if c.sourceFile.Some? then 5 else 0)
    + 1
  }

  function CalculateClassSize(c: ClassItem): nat {
    CalculateSizeWithoutFieldsAndMethods(c) + FieldsSize(c.fields, |c.fields|) + MethodsSize(c.methods, |c.methods|)
  }

  /** The first n fields lie before the others, and field n where its size says. */
  lemma {:induction false} FieldLies(file: seq<byte>, p: nat, fields: seq<FieldItem>, rest: seq<byte>, n: nat)
    requires n <= |fields| && Lies(file, p, FieldsBytes(fields) + rest)
    ensures Lies(file, p + FieldsSize(fields, n), FieldsBytes(fields[n..]) + rest)
    ensures n < |fields| ==> Lies(file, p + FieldsSize(fields, n), FieldBytes(fields[n], false))
  {
    hide FieldBytes, CalculateFieldSize, Lies;
    if n == 0 {
      assert fields[0..] == fields;
    } else {
      FieldLies(file, p, fields, rest, n - 1);
      var q, f := p + FieldsSize(fields, n - 1), fields[n - 1];
      assert fields[n - 1..][1..] == fields[n..];
      assert FieldsBytes(fields[n - 1..]) + rest == FieldBytes(f, false) + (FieldsBytes(fields[n..]) + rest);
      LiesSplit(file, q, FieldBytes(f, false), FieldsBytes(fields[n..]) + rest);
      FieldSizeExact(f, false);
    }
    if n < |fields| {
      var q, f := p + FieldsSize(fields, n), fields[n];
      assert FieldsBytes(fields[n..]) + rest == FieldBytes(f, false) + (FieldsBytes(fields[n..][1..]) + rest);
      LiesSplit(file, q, FieldBytes(f, false), FieldsBytes(fields[n..][1..]) + rest);
    }
  }

  lemma {:induction false} MethodLies(file: seq<byte>, p: nat, methods: seq<MethodItem>, n: nat)
    requires n <= |methods| && Lies(file, p, MethodsBytes(methods))
    ensures Lies(file, p + MethodsSize(methods, n), MethodsBytes(methods[n..]))
    ensures n < |methods| ==> Lies(file, p + MethodsSize(methods, n), MethodBytes(methods[n], false))
  {
    hide MethodBytes, CalculateMethodSize, Lies;
    if n == 0 {
      assert methods[0..] == methods;
    } else {
      MethodLies(file, p, methods, n - 1);
      var q, m := p + MethodsSize(methods, n - 1), methods[n - 1];
      assert methods[n - 1..][1..] == methods[n..];
      LiesSplit(file, q, MethodBytes(m, false), MethodsBytes(methods[n..]));
      MethodSizeExact(m, false);
    }
    if n < |methods| {
      LiesSplit(file, p + MethodsSize(methods, n), MethodBytes(methods[n], false), MethodsBytes(methods[n..][1..]));
    }
  }

  lemma {:induction false} FieldsLength(fields: seq<FieldItem>)
    ensures |FieldsBytes(fields)| == FieldsSize(fields, |fields|)
  {
    hide FieldBytes, CalculateFieldSize;
    if fields != [] {
      FieldsLength(fields[1..]);
      FieldSizeExact(fields[0], false);
      FieldsSizeShift(fields, |fields|);
    }
  }

  lemma {:induction false} FieldsSizeShift(fields: seq<FieldItem>, n: nat)
    requires 0 < n <= |fields|
    ensures FieldsSize(fields, n) == CalculateFieldSize(fields[0], false) + FieldsSize(fields[1..], n - 1)
  {
    hide CalculateFieldSize;
    if n > 1 {
      FieldsSizeShift(fields, n - 1);
    }
  }

  lemma {:induction false} MethodsLength(methods: seq<MethodItem>)
    ensures |MethodsBytes(methods)| == MethodsSize(methods, |methods|)
  {
    hide MethodBytes, CalculateMethodSize;
    if methods != [] {
      MethodsLength(methods[1..]);
      MethodSizeExact(methods[0], false);
      MethodsSizeShift(methods, |methods|);
    }
  }

  lemma {:induction false} MethodsSizeShift(methods: seq<MethodItem>, n: nat)
    requires 0 < n <= |methods|
    ensures MethodsSize(methods, n) == CalculateMethodSize(methods[0], false) + MethodsSize(methods[1..], n - 1)
  {
    hide CalculateMethodSize;
    if n > 1 {
      MethodsSizeShift(methods, n - 1);
    }
  }

  lemma {:induction false} IndexBytesLength(ifaces: seq<nat>)
    ensures |IndexBytes(ifaces)| == 2 * |ifaces|
  {
    if ifaces != [] {
      IndexBytesLength(ifaces[1..]);
    }
  }

  lemma {:induction false} ClassSectionsEnd(c: ClassItem)
    ensures Place(ClassSections(c), 4)
      == (if c.lang != PANDA_ASSEMBLY then 2 else 0) + 5 * |c.runtimeAnnotations| + 5 * |c.annotations|
         + (if c.sourceFile.Some? then 5 else 0)
  {
    hide SectionSize, Place;
    var secs := ClassSections(c);
    OptionalSize(secs[0]);
    ListSize(secs[1]);
    ListSize(secs[2]);
    OptionalSize(secs[3]);
    NextPlace(secs, 0);
    NextPlace(secs, 1);
    NextPlace(secs, 2);
    NextPlace(secs, 3);
  }

  lemma {:induction false} HeadLength(c: ClassItem)
    ensures |ClassHead(c)|
      == UnsignedEncodingSize(c.nameLength) + |c.name| + 1 + 4 + UnsignedEncodingSize(c.flags)
         + UnsignedEncodingSize(|c.fields|) + UnsignedEncodingSize(|c.methods|)
    ensures |IfacesBytes(c.ifaces)| ==
      if c.ifaces != [] then 1 + UnsignedEncodingSize(|c.ifaces|) + 2 * |c.ifaces| else 0
  {
    hide Uleb, UnsignedEncodingSize, Le, IndexBytes;
    UlebSize(c.nameLength);
    UlebSize(c.flags);
    UlebSize(|c.fields|);
    UlebSize(|c.methods|);
    UlebSize(|c.ifaces|);
    IndexBytesLength(c.ifaces);
  }

  /** The class takes exactly the bytes that were reserved for it; its fields start after the zero tag. */
  lemma {:induction false} ClassSizeExact(c: ClassItem)
    ensures |ClassBytes(c)| == CalculateClassSize(c)
    ensures |ClassHead(c)| + |IfacesBytes(c.ifaces)| + Place(ClassSections(c), 4) + 1
      == CalculateSizeWithoutFieldsAndMethods(c)
    ensures |Tail(ClassSections(c), 0)| == Place(ClassSections(c), 4) + 1
  {
    hide ClassHead, IfacesBytes, UnsignedEncodingSize, Tail, ClassSections, FieldsBytes, MethodsBytes, FieldsSize,
      MethodsSize, Place;
    HeadLength(c);
    ClassSectionsEnd(c);
    TailLength(ClassSections(c), 0);
    NextPlace(ClassSections(c), 0);
    FieldsLength(c.fields);
    MethodsLength(c.methods);
  }

  // ---------- reading the head ----------

  function ByteAt(file: seq<byte>, p: nat): byte {
    if p < |file| then file[p] else 0
  }

  /** Length of the zero-terminated string at p. */
  method Mutf8Size(file: seq<byte>, p: nat, ghost name: seq<byte>) returns (n: nat)
    requires Lies(file, p, name + [0]) && forall i :: 0 <= i < |name| ==> name[i] != 0
    ensures n == |name|
  {
    n := 0;
    while ByteAt(file, p + n) != 0
      invariant n <= |name|
      decreases |name| - n
    {
      StringByte(file, p, name, n);
      n := n + 1;
    }
    StringByte(file, p, name, n);
  }

  lemma {:induction false} StringByte(file: seq<byte>, p: nat, name: seq<byte>, n: nat)
    requires Lies(file, p, name + [0]) && n <= |name|
    ensures p + n < |file| && file[p + n] == (name + [0])[n]
  {
    assert file[p..p + |name + [0]|][n] == (name + [0])[n];
  }

  lemma {:induction false} NameRead(file: seq<byte>, id: nat, c: ClassItem)
    requires ValidClass(c) && Lies(file, id, ClassHead(c))
    ensures
      var p := id + |Uleb(c.nameLength)|;
      && ReadUlebAt(file, id) == (c.nameLength, p)
      && Lies(file, p, c.name + [0])
      && Lies(file, p + |c.name| + 1, Le(c.super, 4) + (Uleb(c.flags) + (Uleb(|c.fields|) + Uleb(|c.methods|))))
  {
    hide Uleb, Le, ReadUlebAt, Lies, ValidClass;
    var tail := Le(c.super, 4) + (Uleb(c.flags) + (Uleb(|c.fields|) + Uleb(|c.methods|)));
    var p := id + |Uleb(c.nameLength)|;
    LiesSplit(file, id, Uleb(c.nameLength), c.name + ([0] + tail));
    ReadUlebBack(file, id, c.nameLength);
    assert c.name + ([0] + tail) == (c.name + [0]) + tail;
    LiesSplit(file, p, c.name + [0], tail);
  }

  lemma {:induction false} NumbersRead(file: seq<byte>, p: nat, c: ClassItem)
    requires ValidClass(c) && Lies(file, p, Le(c.super, 4) + (Uleb(c.flags) + (Uleb(|c.fields|) + Uleb(|c.methods|))))
    ensures ReadLe(file, p, 4) == c.super
    ensures ReadUlebAt(file, p + 4) == (c.flags, p + 4 + |Uleb(c.flags)|)
    ensures ReadUlebAt(file, p + 4 + |Uleb(c.flags)|) == (|c.fields|, p + 4 + |Uleb(c.flags)| + |Uleb(|c.fields|)|)
    ensures
      var q := p + 4 + |Uleb(c.flags)| + |Uleb(|c.fields|)|;
      ReadUlebAt(file, q) == (|c.methods|, q + |Uleb(|c.methods|)|)
  {
    hide Uleb, Le, ReadUlebAt, ReadLe, Lies, Base;
    LiesSplit(file, p, Le(c.super, 4), Uleb(c.flags) + (Uleb(|c.fields|) + Uleb(|c.methods|)));
    LiesSplit(file, p + 4, Uleb(c.flags), Uleb(|c.fields|) + Uleb(|c.methods|));
    LiesSplit(file, p + 4 + |Uleb(c.flags)|, Uleb(|c.fields|), Uleb(|c.methods|));
    ReadLeBack(file, p, c.super, 4);
    ReadUlebBack(file, p + 4, c.flags);
    ReadUlebBack(file, p + 4 + |Uleb(c.flags)|, |c.fields|);
    ReadUlebBack(file, p + 4 + |Uleb(c.flags)| + |Uleb(|c.fields|)|, |c.methods|);
  }

  lemma {:induction false} ClassTagged(c: ClassItem)
    requires ValidClass(c)
    ensures Tagged(ClassSections(c)) && forall k :: 0 <= k < 4 ==> ClassSections(c)[k].tag == k + 2
  {
    forall k | 0 <= k < 4 ensures ClassSections(c)[k].tag == k + 2 && ValidSection(ClassSections(c)[k]) {
    }
  }

  /** The interface part: absent, or one tag with a count and the indexes. */
  lemma {:induction false} IfacesRead(file: seq<byte>, p: nat, c: ClassItem)
    requires ValidClass(c) && Lies(file, p, IfacesBytes(c.ifaces) + Tail(ClassSections(c), 0))
    ensures
      var next := p + |IfacesBytes(c.ifaces)|;
      && Lies(file, next, Tail(ClassSections(c), 0))
      && ByteAt(file, next) == Tail(ClassSections(c), 0)[0] != INTERFACES
      && (c.ifaces != [] ==>
          var q := p + 1 + |Uleb(|c.ifaces|)|;
          && ByteAt(file, p) == INTERFACES
          && ReadUlebAt(file, p + 1) == (|c.ifaces|, q)
          && Lies(file, q, IndexBytes(c.ifaces))
          && next == q + 2 * |c.ifaces|)
  {
    hide Uleb, Le, ReadUlebAt, Lies, IndexBytes, Tail, ClassSections, Tagged;
    var rest := Tail(ClassSections(c), 0);
    LiesSplit(file, p, IfacesBytes(c.ifaces), rest);
    LiesByte(file, p + |IfacesBytes(c.ifaces)|, rest);
    ClassTagged(c);
    NextTag(ClassSections(c), 0, INTERFACES);
    if c.ifaces != [] {
      LiesByte(file, p, IfacesBytes(c.ifaces));
      LiesSplit(file, p, [INTERFACES], Uleb(|c.ifaces|) + IndexBytes(c.ifaces));
      LiesSplit(file, p + 1, Uleb(|c.ifaces|), IndexBytes(c.ifaces));
      ReadUlebBack(file, p + 1, |c.ifaces|);
      IndexBytesLength(c.ifaces);
    }
  }

  /** Consumes tags up to the first one that is not about interfaces. */
  method ReadInterfaces(file: seq<byte>, p: nat, ghost c: ClassItem) returns (num: nat, at: nat, next: nat)
    requires ValidClass(c) && Lies(file, p, IfacesBytes(c.ifaces) + Tail(ClassSections(c), 0))
    ensures num == |c.ifaces| && Lies(file, at, IndexBytes(c.ifaces))
    ensures next == p + |IfacesBytes(c.ifaces)|
  {
    hide Uleb, ReadUlebAt, Lies, Tail, ClassSections, ValidClass, ByteAt, IndexBytes, IfacesBytes;
    IfacesRead(file, p, c);
    NoIfaces(file, p, c);
    num, at, next := 0, p, p;
    var tag := ByteAt(file, next);
    ghost var end := p + |IfacesBytes(c.ifaces)|;
    while tag != 0 && tag < 2
      invariant tag == ByteAt(file, next)
      invariant (next == p && num == 0 && at == p)
        || (next == end && num == |c.ifaces| && Lies(file, at, IndexBytes(c.ifaces)))
      invariant next <= end
      decreases end + 1 - next
    {
      next := next + 1;
      if tag == INTERFACES {
        num, at := ReadUlebAt(file, next).0, ReadUlebAt(file, next).1;
        next := at + 2 * num;
      }
      tag := ByteAt(file, next);
    }
  }

  lemma {:induction false} NoIfaces(file: seq<byte>, p: nat, c: ClassItem)
    requires Lies(file, p, IfacesBytes(c.ifaces) + Tail(ClassSections(c), 0))
    ensures c.ifaces == [] ==> Lies(file, p, IndexBytes(c.ifaces)) && IfacesBytes(c.ifaces) == []
  {
  }
}
