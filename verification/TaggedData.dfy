/**
  Tagged values: classes, methods and fields end in a list of sections in the order of their tags,
  each a run of tag bytes with values, closed by a zero tag.
 */
module TaggedData {
  import opened Bytes
  import opened Leb128
  import opened FileBytes
  import opened Isa

  /** All values under one tag, each stored in `width` bytes. */
  datatype Section = Section(tag: byte, width: nat, values: seq<nat>)

  predicate ValidSection(s: Section) {
    s.tag > 0 && forall i :: 0 <= i < |s.values| ==> s.values[i] < Base(s.width)
  }

  predicate Tagged(secs: seq<Section>) {
    && (forall i :: 0 <= i < |secs| ==> ValidSection(secs[i]))
    && (forall i, j :: 0 <= i < j < |secs| ==> secs[i].tag < secs[j].tag)
  }

  function SectionBytes(tag: byte, width: nat, values: seq<nat>): seq<byte> {
    if values == [] then [] else [tag] + Le(values[0], width) + SectionBytes(tag, width, values[1..])
  }

  /** Everything from section k on, with the closing zero tag. */
  function Tail(secs: seq<Section>, k: nat): (s: seq<byte>)
    requires k <= |secs|
    ensures |s| > 0
    decreases |secs| - k
  {
    if k == |secs| then [0] else SectionBytes(secs[k].tag, secs[k].width, secs[k].values) + Tail(secs, k + 1)
  }

  /** Where section k starts, from the first one. */
  function Place(secs: seq<Section>, k: nat): nat
    requires k <= |secs|
  {
    if k == 0 then 0 else Place(secs, k - 1) + SectionSize(secs[k - 1])
  }

  /** The size the writer reserves. */
  function SectionSize(s: Section): nat {
    (1 + s.width) * |s.values|
  }

  lemma {:induction false} NextPlace(secs: seq<Section>, k: nat)
    requires k < |secs|
    ensures Place(secs, k + 1) == Place(secs, k) + SectionSize(secs[k])
    ensures k == 0 ==> Place(secs, k) == 0
  {
  }

  lemma {:induction false} SectionLength(tag: byte, width: nat, values: seq<nat>)
    ensures |SectionBytes(tag, width, values)| == (1 + width) * |values|
  {
    if values != [] {
      SectionLength(tag, width, values[1..]);
      Distribute(1 + width, |values|);
    }
  }

  lemma {:induction false} SectionSizeExact(s: Section)
    ensures |SectionBytes(s.tag, s.width, s.values)| == SectionSize(s)
  {
    SectionLength(s.tag, s.width, s.values);
  }

  lemma {:induction false} Distribute(a: nat, n: nat)
    requires n > 0
    ensures a * n == a + a * (n - 1)
  {
  }

  /** All sections and the zero tag are as long as the writer reserved. */
  lemma {:induction false} TailLength(secs: seq<Section>, k: nat)
    requires k <= |secs|
    ensures Place(secs, k) + |Tail(secs, k)| == Place(secs, |secs|) + 1
    decreases |secs| - k
  {
    hide SectionBytes, SectionSize;
    if k < |secs| {
      TailLength(secs, k + 1);
      SectionSizeExact(secs[k]);
    }
  }

  /** A section is followed by another tag. */
  lemma {:induction false} NextTag(secs: seq<Section>, k: nat, tag: byte)
    requires Tagged(secs) && k <= |secs| && tag > 0 && forall i :: k <= i < |secs| ==> tag < secs[i].tag
    ensures Tail(secs, k)[0] != tag
    decreases |secs| - k
  {
    if k < |secs| {
      if secs[k].values == [] {
        NextTag(secs, k + 1, tag);
        assert Tail(secs, k) == Tail(secs, k + 1);
      } else {
        assert SectionBytes(secs[k].tag, secs[k].width, secs[k].values)[0] == secs[k].tag;
      }
    }
  }

  lemma {:induction false} TailLies(file: seq<byte>, start: nat, secs: seq<Section>, k: nat)
    requires k <= |secs| && Lies(file, start, Tail(secs, 0))
    ensures Lies(file, start + Place(secs, k), Tail(secs, k))
  {
    hide SectionBytes, SectionSize, Lies;
    if k > 0 {
      TailLies(file, start, secs, k - 1);
      var s := secs[k - 1];
      SectionSizeExact(s);
      LiesSplit(file, start + Place(secs, k - 1), SectionBytes(s.tag, s.width, s.values), Tail(secs, k));
    }
  }

  // ---------- reading ----------

  /** The value under a tag if it is there, and the position after it. */
  function GetOptionalTaggedValue(file: seq<byte>, p: nat, tag: byte, width: nat): (Option<nat>, nat) {
    if p < |file| && file[p] == tag then (Some(ReadLe(file, p + 1, width)), p + 1 + width) else (None, p)
  }

  function TaggedValues(file: seq<byte>, p: nat, tag: byte, width: nat): (seq<nat>, nat)
    decreases |file| - p
  {
    if p < |file| && file[p] == tag then
      var (rest, next) := TaggedValues(file, p + 1 + width, tag, width);
      ([ReadLe(file, p + 1, width)] + rest, next)
    else ([], p)
  }

  /** Values under a tag are read as long as the tag repeats. */
  method EnumerateTaggedValues(file: seq<byte>, p: nat, tag: byte, width: nat) returns (values: seq<nat>, next: nat)
    ensures (values, next) == TaggedValues(file, p, tag, width)
  {
    values, next := [], p;
    assert [] + TaggedValues(file, p, tag, width).0 == TaggedValues(file, p, tag, width).0;
    while next < |file| && file[next] == tag
      invariant
        var rest := TaggedValues(file, next, tag, width);
        TaggedValues(file, p, tag, width) == (values + rest.0, rest.1)
      decreases |file| - next
    {
      ghost var rest := TaggedValues(file, next + 1 + width, tag, width);
      values := values + [ReadLe(file, next + 1, width)];
      assert values + rest.0 == values[..|values| - 1] + ([values[|values| - 1]] + rest.0);
      next := next + 1 + width;
    }
    assert values + [] == values;
  }

  /** What an optional section gives: at most one value. */
  function AsOption(values: seq<nat>): Option<nat> {
    if values == [] then None else Some(values[0])
  }

  function FromOption(v: Option<nat>): seq<nat> {
    match v case None => [] case Some(x) => [x]
  }

  lemma {:induction false} FirstValue(file: seq<byte>, p: nat, tag: byte, width: nat, v: nat, more: seq<byte>)
    requires Lies(file, p, [tag] + (Le(v, width) + more)) && v < Base(width)
    ensures p < |file| && file[p] == tag && ReadLe(file, p + 1, width) == v && Lies(file, p + 1 + width, more)
  {
    hide Le, Base, ReadLe, Lies;
    LiesByte(file, p, [tag] + (Le(v, width) + more));
    LiesSplit(file, p, [tag], Le(v, width) + more);
    LiesSplit(file, p + 1, Le(v, width), more);
    ReadLeBack(file, p + 1, v, width);
  }

  lemma {:induction false} RunRead(file: seq<byte>, p: nat, tag: byte, width: nat, values: seq<nat>, rest: seq<byte>)
    requires Lies(file, p, SectionBytes(tag, width, values) + rest) && rest != [] && rest[0] != tag
    requires forall i :: 0 <= i < |values| ==> values[i] < Base(width)
    ensures TaggedValues(file, p, tag, width) == (values, p + (1 + width) * |values|)
    ensures |values| <= 1 ==>
      GetOptionalTaggedValue(file, p, tag, width) == (AsOption(values), p + (1 + width) * |values|)
    decreases |values|
  {
    hide Le, Base, ReadLe, Lies;
    if values == [] {
      assert SectionBytes(tag, width, values) + rest == rest;
      LiesByte(file, p, rest);
    } else {
      var more := SectionBytes(tag, width, values[1..]) + rest;
      assert SectionBytes(tag, width, values) + rest == [tag] + (Le(values[0], width) + more);
      FirstValue(file, p, tag, width, values[0], more);
      RunRead(file, p + 1 + width, tag, width, values[1..], rest);
      Distribute(1 + width, |values|);
      assert values == [values[0]] + values[1..];
    }
  }

  /** Reading section k from its start gives its values and ends at the start of the next one. */
  lemma {:induction false} SectionRead(file: seq<byte>, start: nat, secs: seq<Section>, k: nat)
    requires Tagged(secs) && k < |secs| && Lies(file, start, Tail(secs, 0))
    ensures
      var s, p := secs[k], start + Place(secs, k);
      var next := start + Place(secs, k + 1);
      && TaggedValues(file, p, s.tag, s.width) == (s.values, next)
      && (|s.values| <= 1 ==> GetOptionalTaggedValue(file, p, s.tag, s.width) == (AsOption(s.values), next))
  {
    hide SectionBytes, TaggedValues, GetOptionalTaggedValue, AsOption;
    TailLies(file, start, secs, k);
    NextTag(secs, k + 1, secs[k].tag);
    assert ValidSection(secs[k]);
    RunRead(file, start + Place(secs, k), secs[k].tag, secs[k].width, secs[k].values, Tail(secs, k + 1));
  }

  lemma {:induction false} OptionalSize(s: Section)
    requires |s.values| <= 1
    ensures SectionSize(s) == if s.values == [] then 0 else 1 + s.width
  {
  }

  lemma {:induction false} ListSize(s: Section)
    requires s.width == 4
    ensures SectionSize(s) == 5 * |s.values|
  {
  }

  // ---------- shared by the accessors ----------

  const PANDA_ASSEMBLY := 1

  /** The language is written only if it is not the default one. */
  function Language(lang: nat): seq<nat> {
    if lang == PANDA_ASSEMBLY then [] else [lang]
  }

  predicate Id(x: nat) { x < Base(4) }

  predicate OptionalId(x: Option<nat>) { x.Some? ==> Id(x.value) }

  predicate Ids(xs: seq<nat>) { forall i :: 0 <= i < |xs| ==> Id(xs[i]) }

  /** What an accessor answers. */
  datatype Answer = Value(value: Option<nat>) | Values(values: seq<nat>) | Number(n: nat)

  /** A cursor that was set stands at the start of its section. */
  ghost predicate CursorAt(cursor: Option<nat>, start: nat, secs: seq<Section>, k: nat)
    requires k <= |secs|
  {
    cursor.Some? ==> cursor.value == start + Place(secs, k)
  }
}
