/**
  Prototypes: the types of a method packed four to a word, and the three ways to unpack them.
 */
module Shorty {
  import opened Bytes
  import opened FileBytes
  import opened Isa
  import opened ClassAccessor
  import opened ClassReader

  /** 16 to the power of k, within a word. */
  function Pow16(k: nat): (p: nat)
    ensures p >= 1
  {
    if k == 0 then 1 else if k == 1 then 16 else if k == 2 then 256 else if k == 3 then 4096 else 65536
  }

  /** The k-th group of four bits. */
  function Nibble(v: nat, k: nat): nat {
    v / Pow16(k) % 16
  }

  /** Element i of a run of words with four elements each. */
  function TypeIn(words: seq<nat>, i: nat): nat {
    if i / 4 < |words| then Nibble(words[i / 4], i % 4) else 0
  }

  /** Types have non-zero encodings of four bits. */
  predicate Types(ts: seq<nat>) {
    forall i :: 0 <= i < |ts| ==> 0 < ts[i] < 16
  }

  /** The words hold the types and then zeros, at least one. */
  ghost predicate Packs(words: seq<nat>, ts: seq<nat>) {
    && |words| == |ts| / 4 + 1
    && (forall j :: 0 <= j < |words| ==> words[j] < Pow16(4))
    && (forall i :: 0 <= i < 4 * |words| ==> TypeIn(words, i) == if i < |ts| then ts[i] else 0)
  }

  // ---------- packing ----------

  /** Setting the bits of nibble k above a shorter number: or is addition there. */
  lemma {:induction false} SetNibble(v: nat, k: nat, t: nat, m: nat)
    requires k < 4 && m < 4 && v < Pow16(k) && t < 16
    ensures v + t * Pow16(k) < Pow16(k + 1)
    ensures Nibble(v + t * Pow16(k), m) == if m < k then Nibble(v, m) else if m == k then t else 0
  {
    if k == 1 {
      SetSecond(v, t);
    } else if k == 2 {
      SetThird(v, t);
    } else if k == 3 {
      SetFourth(v, t);
    }
  }

  lemma {:induction false} SetSecond(v: nat, t: nat)
    requires v < 16 && t < 16
    ensures var w := v + t * 16; w < 256 && w % 16 == v && w / 16 % 16 == t && w / 256 == 0 && w / 4096 == 0
  {
  }

  lemma {:induction false} SetThird(v: nat, t: nat)
    requires v < 256 && t < 16
    ensures
      var w := v + t * 256;
      w < 4096 && w % 16 == v % 16 && w / 16 % 16 == v / 16 % 16 && w / 256 % 16 == t && w / 4096 == 0
  {
    var a, b := v % 16, v / 16;
    assert v == a + 16 * b;
    assert v + t * 256 == a + 16 * (b + 16 * t);
  }

  lemma {:induction false} SetFourth(v: nat, t: nat)
    requires v < 4096 && t < 16
    ensures
      var w := v + t * 4096;
      && w < 65536 && w % 16 == v % 16 && w / 16 % 16 == v / 16 % 16 && w / 256 % 16 == v / 256 % 16
      && w / 4096 % 16 == t
  {
    var a, b, c := v % 16, v / 16 % 16, v / 256;
    assert v == a + 16 * (b + 16 * c);
    assert v + t * 4096 == a + 16 * (b + 16 * (c + 16 * t));
    assert (v + t * 4096) / 16 == b + 16 * (c + 16 * t);
    assert (v + t * 4096) / 256 == c + 16 * t;
  }

  /** Adding a type to the last word. */
  lemma {:induction false} AddedType(words: seq<nat>, ts: seq<nat>, t: nat)
    requires Packs(words, ts) && 0 < t < 16 && words[|words| - 1] < Pow16(|ts| % 4)
    ensures
      var last := |words| - 1;
      var more := words[last := words[last] + t * Pow16(|ts| % 4)];
      var full := (|ts| + 1) % 4 == 0;
      && Packs(if full then more + [0] else more, ts + [t])
      && (!full ==> more[last] < Pow16((|ts| + 1) % 4))
  {
    hide Pow16, Nibble;
    var last, n, k := |words| - 1, |ts|, |ts| % 4;
    var w := words[last] + t * Pow16(k);
    var more := words[last := w];
    var full := (n + 1) % 4 == 0;
    var r := if full then more + [0] else more;
    assert last == n / 4 && n == 4 * last + k;
    SetNibble(words[last], k, t, 0);
    PowGrows(k + 1);
    forall j | 0 <= j < |r| ensures r[j] < Pow16(4) {
    }
    forall i | 0 <= i < 4 * |r| ensures TypeIn(r, i) == if i < n + 1 then (ts + [t])[i] else 0 {
      if i / 4 == last {
        SetNibble(words[last], k, t, i % 4);
        assert TypeIn(words, i) == Nibble(words[last], i % 4);
      } else if i / 4 < last {
        assert TypeIn(words, i) == Nibble(words[i / 4], i % 4);
      } else {
        ZeroNibble(i % 4);
      }
    }
    assert |r| == (n + 1) / 4 + 1;
  }

  lemma {:induction false} PowGrows(k: nat)
    ensures Pow16(k) <= Pow16(4)
  {
  }

  lemma {:induction false} ZeroNibble(k: nat)
    ensures Nibble(0, k) == 0
  {
  }

  class ProtoItem {
    var shorty: seq<nat>
    var references: seq<nat>
    ghost var types: seq<nat>

    ghost predicate Valid()
      reads this
    {
      Packs(shorty, types) && shorty[|shorty| - 1] < Pow16(|types| % 4)
    }

    constructor ()
      ensures Valid() && types == [] && references == []
    {
      shorty, references, types := [0], [], [];
      new;
      ZeroNibble(0);
      ZeroNibble(1);
      ZeroNibble(2);
      ZeroNibble(3);
    }

    /** The n-th type; references also go to a list of their own, by index. There is always a zero after the types. */
    method AddType(t: nat, n: nat, reference: Option<nat>)
      requires Valid() && 0 < t < 16 && n == |types|
      modifies this
      ensures Valid() && types == old(types) + [t]
      ensures |types| < 4 * |shorty| && forall i :: 0 <= i < |types| ==> TypeIn(shorty, i) == types[i]
      ensures forall i :: |types| <= i < 4 * |shorty| ==> TypeIn(shorty, i) == 0
      ensures references == old(references) + match reference case None => [] case Some(r) => [r]
    {
      hide Pow16, Packs, TypeIn;
      Packed(shorty, types);
      AddedType(shorty, types, t);
      var last := |shorty| - 1;
      shorty := shorty[last := shorty[last] + t * Pow16(n % 4)];
      if reference.Some? {
        references := references + [reference.value];
      }
      types := types + [t];
      if (n + 1) % 4 == 0 {
        shorty := shorty + [0];
      }
      Packed(shorty, types);
    }
  }

  lemma {:induction false} Packed(words: seq<nat>, ts: seq<nat>)
    requires Packs(words, ts)
    ensures |words| == |ts| / 4 + 1 && |ts| < 4 * |words|
    ensures forall i :: 0 <= i < |ts| ==> TypeIn(words, i) == ts[i]
    ensures forall i :: |ts| <= i < 4 * |words| ==> TypeIn(words, i) == 0
  {
  }

  // ---------- reading ----------

  /** What is in the file: the words, then the indexes of reference types. */
  ghost predicate ProtoLies(file: seq<byte>, id: nat, words: seq<nat>, refs: seq<nat>) {
    && Lies(file, id, IndexBytes(words + refs))
    && (forall i :: 0 <= i < |words + refs| ==> (words + refs)[i] < Base(2))
  }

  lemma {:induction false} WordIs(file: seq<byte>, id: nat, words: seq<nat>, refs: seq<nat>, j: nat)
    requires ProtoLies(file, id, words, refs)
    ensures j < |words| ==> ReadLe(file, id + 2 * j, 2) == words[j]
    ensures j < |refs| ==> ReadLe(file, id + 2 * |words| + 2 * j, 2) == refs[j]
  {
    hide Lies, ReadLe, IndexBytes;
    if j < |words| {
      IndexRead(file, id, words + refs, j);
    }
    if j < |refs| {
      IndexRead(file, id, words + refs, |words| + j);
      assert id + 2 * (|words| + j) == id + 2 * |words| + 2 * j;
    }
  }

  /** A word whose nibble is not zero is not zero, and before the end no nibble is zero. */
  lemma {:induction false} ElementAt(words: seq<nat>, ts: seq<nat>, i: nat)
    requires Packs(words, ts) && Types(ts) && i <= |ts|
    ensures i / 4 < |words|
    ensures Nibble(words[i / 4], i % 4) == if i < |ts| then ts[i] else 0
    ensures i < |ts| ==> words[i / 4] != 0
  {
    assert TypeIn(words, i) == Nibble(words[i / 4], i % 4);
    ZeroNibble(i % 4);
  }

  function CountRefs(ts: seq<nat>, isRef: nat -> bool): nat {
    if ts == [] then 0 else CountRefs(ts[..|ts| - 1], isRef) + if isRef(ts[|ts| - 1]) then 1 else 0
  }

  /** The element count after some runs: the first one counts all types, each later one those it sees. */
  ghost predicate Counted(n: nat, runs: nat, e: nat) {
    e == if runs == 0 then 0 else n + (runs - 1) * (n - n % 4)
  }

  /** The place of an element in its word. */
  function Slot(e: nat): nat {
    e % 4
  }

  lemma {:induction false} SlotNext(e: nat)
    ensures Slot(e) < 4 && Slot(e + 1) == if Slot(e) == 3 then 0 else Slot(e) + 1
  {
  }

  /** What a pass has passed on: the types from r up to i, and how many of them are references. */
  ghost predicate Passed(ts: seq<nat>, r: nat, i: nat, isRef: nat -> bool, out: seq<nat>, numRef: nat) {
    r <= i <= |ts| && out == ts[r..i] && numRef == CountRefs(ts[r..i], isRef)
  }

  lemma {:induction false} PassedNone(ts: seq<nat>, r: nat, isRef: nat -> bool)
    requires r <= |ts|
    ensures Passed(ts, r, r, isRef, [], 0)
  {
  }

  lemma {:induction false} PassedAll(ts: seq<nat>, r: nat, isRef: nat -> bool, out: seq<nat>, numRef: nat)
    requires Passed(ts, r, |ts|, isRef, out, numRef)
    ensures out == ts[r..] && numRef == CountRefs(ts[r..], isRef)
  {
  }

  lemma {:induction false} PassedOne(ts: seq<nat>, r: nat, i: nat, isRef: nat -> bool, out: seq<nat>, numRef: nat)
    requires Passed(ts, r, i, isRef, out, numRef) && i < |ts|
    ensures Passed(ts, r, i + 1, isRef, out + [ts[i]], if isRef(ts[i]) then numRef + 1 else numRef)
  {
    assert ts[r..i + 1] == ts[r..i] + [ts[i]];
    assert ts[r..i + 1][..i - r] == ts[r..i];
  }

  class ProtoDataAccessor {
    const file: seq<byte>
    const id: nat
    const isRef: nat -> bool
    ghost const types: seq<nat>
    ghost const words: seq<nat>
    ghost const refs: seq<nat>

    var elemNum: nat
    var refTypes: Option<nat>
    var size: nat
    // how often the types were enumerated
    ghost var runs: nat

    ghost predicate Constant() {
      types != [] && Types(types) && Packs(words, types) && ProtoLies(file, id, words, refs)
    }

    /** The count of elements is never reset: later runs start in the middle of the first word. */
    ghost predicate Valid()
      reads this
    {
      && Constant()
      && Counted(|types|, runs, elemNum)
      && (runs == 0 <==> refTypes.None?)
      && (refTypes.Some? ==> refTypes.value == id + 2 * |words|)
      && (runs == 0 <==> size == 0)
      && (runs == 1 ==> size == 2 * |words| + 2 * CountRefs(types, isRef))
    }

    constructor (
      file: seq<byte>, id: nat, isRef: nat -> bool, ghost types: seq<nat>, ghost words: seq<nat>,
      ghost refs: seq<nat>)
      requires types != [] && Types(types) && Packs(words, types) && ProtoLies(file, id, words, refs)
      ensures Valid() && runs == 0
      ensures this.file == file && this.id == id && this.types == types && this.words == words && this.refs == refs
      ensures this.isRef == isRef
    {
      this.file, this.id, this.isRef, this.types, this.words, this.refs := file, id, isRef, types, words, refs;
      elemNum, refTypes, size, runs := 0, None, 0, 0;
    }

    /**
      Where in the list a run starts: at the beginning, or after as many types as there are over a
      multiple of four.
     */
    ghost function RunStart(): nat
      reads this
    {
      if runs == 0 then 0 else |types| % 4
    }

    /** Word j, and its element k. */
    lemma {:induction false} Reads(j: nat, k: nat)
      requires Constant() && k < 4 && 4 * j + k <= |types|
      ensures j < |words| && ReadLe(file, id + 2 * j, 2) == words[j]
      ensures Nibble(words[j], k) == if 4 * j + k < |types| then types[4 * j + k] else 0
      ensures 4 * j + k < |types| ==> words[j] != 0 && types[4 * j + k] > 0
    {
      hide Packs, ProtoLies, Types, Nibble, ReadLe;
      var i := 4 * j + k;
      assert i / 4 == j && i % 4 == k;
      ElementAt(words, types, i);
      ElementPositive(types, i);
      WordIs(file, id, words, refs, j);
    }

    lemma {:induction false} WordCount(j: nat, k: nat)
      requires Constant() && k < 4 && 4 * j + k == |types|
      ensures |words| == j + 1
    {
      hide ProtoLies, Types, Nibble, ReadLe;
    }

    /** One pass over the words, from element r of the list. */
    method ReadTypes(ghost r: nat) returns (out: seq<nat>, sp: nat, numRef: nat)
      requires Constant() && r <= |types| && r < 4 && Slot(elemNum) == r
      modifies `elemNum, `size
      ensures out == types[r..] && elemNum == old(elemNum) + |types| - r
      ensures sp == id + 2 * |words| && size == 2 * |words| && numRef == CountRefs(types[r..], isRef)
    {
      hide Constant, Nibble, Passed, ReadLe, Slot;
      Reads(0, r);
      var v := ReadLe(file, id, 2);
      sp, numRef, size, out := id + 2, 0, 2, [];
      ghost var i, j, k := r, 0, r;
      PassedNone(types, r, isRef);
      while v != 0
        invariant k < 4 && i == 4 * j + k <= |types| && Passed(types, r, i, isRef, out, numRef)
        invariant elemNum == old(elemNum) + (i - r) && Slot(elemNum) == k
        invariant j < |words| && v == words[j] && sp == id + 2 * j + 2 && size == 2 * j + 2
        decreases |types| - i
      {
        Reads(j, k);
        var elem := Nibble(v, Slot(elemNum));
        if elem == 0 {
          break;
        }
        PassedOne(types, r, i, isRef, out, numRef);
        out := out + [elem];
        if isRef(elem) {
          numRef := numRef + 1;
        }
        SlotNext(elemNum);
        elemNum := elemNum + 1;
        i := i + 1;
        if Slot(elemNum) == 0 {
          j, k := j + 1, 0;
          Reads(j, k);
          v := ReadLe(file, sp, 2);
          sp := sp + 2;
          size := size + 2;
        } else {
          k := k + 1;
        }
      }
      Reads(j, k);
      WordCount(j, k);
      PassedAll(types, r, isRef, out, numRef);
    }

    method EnumerateTypes() returns (out: seq<nat>)
      requires Valid()
      modifies this
      ensures Valid() && runs == old(runs) + 1
      ensures out == types[old(RunStart())..]
      ensures out == types <==> old(runs) == 0 || |types| % 4 == 0
    {
      hide Constant, Counted;
      SecondRunExactly(types);
      StartsAligned(|types|, runs, elemNum);
      RunEnds(|types|, runs, elemNum);
      var sp, numRef;
      out, sp, numRef := ReadTypes(RunStart());
      assert types[0..] == types;
      HasWords();
      size := size + numRef * 2;
      refTypes := Some(sp);
      runs := runs + 1;
    }

    lemma {:induction false} HasWords()
      requires Constant()
      ensures |words| > 0
    {
      hide ProtoLies;
    }

    method GetNumArgs() returns (k: nat)
      requires Valid()
      modifies this
      ensures Valid() && runs == (if old(runs) == 0 then 1 else old(runs))
      ensures k == |types| - 1 + (runs - 1) * (|types| - |types| % 4)
    {
      hide Packs, ProtoLies, Types;
      if refTypes.None? {
        var _ := EnumerateTypes();
      }
      return elemNum - 1;
    }

    method GetReferenceType(i: nat) returns (index: nat)
      requires Valid()
      modifies this
      ensures Valid() && (i < |refs| ==> index == refs[i])
    {
      hide Packs, Types;
      if refTypes.None? {
        var _ := EnumerateTypes();
      }
      WordIs(file, id, words, refs, i);
      return ReadLe(file, refTypes.value + 2 * i, 2);
    }

    method GetSize() returns (k: nat)
      requires Valid()
      modifies this
      ensures Valid() && (old(runs) <= 1 ==> k == 2 * |words| + 2 * CountRefs(types, isRef))
    {
      hide Packs, Types, ProtoLies;
      if size == 0 {
        var _ := EnumerateTypes();
      }
      return size;
    }

    method GetType(i: nat) returns (t: nat)
      requires Valid()
      ensures i < |types| ==> t == types[i]
    {
      hide Packs, Types, ProtoLies;
      if i < |types| {
        ElementAt(words, types, i);
        WordIs(file, id, words, refs, i / 4);
      }
      return Nibble(ReadLe(file, id + 2 * (i / 4), 2), i % 4);
    }
  }

  lemma {:induction false} ElementPositive(ts: seq<nat>, i: nat)
    requires Types(ts)
    ensures i < |ts| ==> ts[i] > 0
  {
  }

  lemma {:induction false} NextElement(i: nat)
    requires i > 0
    ensures if i % 4 == 0 then i / 4 == (i - 1) / 4 + 1 else i / 4 == (i - 1) / 4
    ensures i % 4 == ((i - 1) % 4 + 1) % 4
  {
  }

  /** The element count before a run is, up to a multiple of four, where the run starts. */
  lemma {:induction false} StartsAligned(n: nat, runs: nat, e: nat)
    requires Counted(n, runs, e)
    ensures e % 4 == if runs == 0 then 0 else n % 4
  {
    if runs > 0 {
      var q := (runs - 1) * (n / 4);
      assert n - n % 4 == 4 * (n / 4);
      assert (runs - 1) * (4 * (n / 4)) == 4 * q;
      assert (n + 4 * q) % 4 == n % 4;
    }
  }

  lemma {:induction false} RunEnds(n: nat, runs: nat, e: nat)
    requires Counted(n, runs, e)
    ensures Counted(n, runs + 1, e + (n - if runs == 0 then 0 else n % 4))
  {
    if runs > 0 {
      assert runs * (n - n % 4) == (runs - 1) * (n - n % 4) + (n - n % 4);
    }
  }

  /** A second run repeats the list if and only if it fills its words. */
  lemma {:induction false} SecondRunExactly(ts: seq<nat>)
    ensures ts[|ts| % 4..] == ts <==> |ts| % 4 == 0
  {
    assert |ts[|ts| % 4..]| == |ts| - |ts| % 4;
  }

  /** Of three types, a second run sees none. */
  method EnumerateTwice(p: ProtoDataAccessor) returns (first: seq<nat>, second: seq<nat>)
    requires p.Valid() && p.runs == 0 && |p.types| == 3
    modifies p
    ensures first == p.types && second == []
  {
    first := p.EnumerateTypes();
    second := p.EnumerateTypes();
  }

  // ---------- the iterator ----------

  class ShortyIterator {
    const words: seq<nat>
    ghost const types: seq<nat>
    var ptr: Option<nat>
    var shorty: nat
    var element: nat
    var elemIdx: nat
    ghost var at: nat

    /** At an element, or past the last one and equal to an empty iterator. */
    ghost predicate Valid()
      reads this
    {
      && types != [] && Types(types) && Packs(words, types) && at <= |types|
      && (at < |types| ==>
            && at / 4 < |words| && ptr == Some(at / 4 + 1) && elemIdx == at % 4
            && shorty == words[at / 4] / Pow16(at % 4) && element == types[at])
      && (at == |types| ==> ptr == None && shorty == 0 && element == 0 && elemIdx == 0)
    }

    constructor (words: seq<nat>, ghost types: seq<nat>)
      requires types != [] && Types(types) && Packs(words, types)
      ensures Valid() && at == 0 && this.words == words && this.types == types
    {
      hide Packs, Types;
      ElementAt(words, types, 0);
      this.words, this.types := words, types;
      ptr, shorty, element, elemIdx, at := Some(1), words[0], words[0] % 16, 0, 0;
    }

    method Next()
      requires Valid()
      modifies this
      ensures Valid() && at == if old(at) < |types| then old(at) + 1 else old(at)
    {
      hide Packs, Types, Nibble;
      if element == 0 {
        ElementPositive(types, at);
        return;
      }
      ElementPositive(types, at);
      ghost var i := at + 1;
      NextElement(i);
      ElementAt(words, types, i);
      NibbleIs(words[i / 4], i % 4);
      elemIdx := elemIdx + 1;
      if elemIdx == 4 {
        shorty := words[ptr.value];
        ptr := Some(ptr.value + 1);
        elemIdx := 0;
      } else {
        ShiftOn(words[i / 4], (i - 1) % 4);
        shorty := shorty / 16;
      }
      element := shorty % 16;
      at := i;
      if element == 0 {
        ptr, shorty, element, elemIdx := None, 0, 0, 0;
      }
      ElementPositive(types, i);
    }

    /** From the first element until the iterator equals an empty one. */
    method Collect() returns (out: seq<nat>)
      requires Valid() && at == 0
      modifies this
      ensures out == types
    {
      hide Packs, Types;
      out := [];
      while !(ptr == None && elemIdx == 0)
        invariant Valid() && out == types[..at]
        decreases |types| - at
      {
        out := out + [element];
        Next();
      }
    }
  }

  lemma {:induction false} NibbleIs(v: nat, k: nat)
    ensures Nibble(v, k) == v / Pow16(k) % 16
  {
  }

  lemma {:induction false} ShiftOn(v: nat, k: nat)
    requires k < 3
    ensures v / Pow16(k) / 16 == v / Pow16(k + 1)
  {
    if k == 0 {
    } else if k == 1 {
    } else {
    }
  }
}
