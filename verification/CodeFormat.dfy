/** Code items: instructions with their try and catch blocks, written and read back. */
module CodeFormat {
  import opened Bytes
  import opened Leb128
  import opened FileBytes
  import opened Isa

  const INVALID_INDEX := 0xFFFF_FFFF

  /** A handler for one class of exceptions, by its index, or for all. */
  datatype CatchItem = CatchItem(typ: Option<nat>, handler: nat, codeSize: nat)
  datatype TryItem = TryItem(start: nat, length: nat, catches: seq<CatchItem>)
  datatype CodeItem = CodeItem(vregs: nat, args: nat, insns: seq<byte>, tries: seq<TryItem>)

  /** What the reader makes of a catch block. */
  datatype Catch = Catch(typeIdx: nat, handlerPc: nat, codeSize: nat)
  datatype Try = Try(startPc: nat, length: nat, catches: seq<Catch>)

  predicate ValidCatch(c: CatchItem) {
    c.typ.Some? ==> c.typ.value < INVALID_INDEX
  }

  predicate ValidTry(t: TryItem) {
    forall i :: 0 <= i < |t.catches| ==> ValidCatch(t.catches[i])
  }

  predicate ValidCode(c: CodeItem) {
    forall i :: 0 <= i < |c.tries| ==> ValidTry(c.tries[i])
  }

  // ---------- writing ----------

  /** Indexes are stored shifted by one; zero catches everything. */
  function TypeOff(t: Option<nat>): nat {
    match t case Some(i) => i + 1 case None => 0
  }

  function CatchBytes(c: CatchItem): seq<byte> {
    Uleb(TypeOff(c.typ)) + (Uleb(c.handler) + Uleb(c.codeSize))
  }

  function CatchesBytes(cs: seq<CatchItem>): seq<byte> {
    if cs == [] then [] else CatchBytes(cs[0]) + CatchesBytes(cs[1..])
  }

  function TryBytes(t: TryItem): seq<byte> {
    Uleb(t.start) + (Uleb(t.length) + (Uleb(|t.catches|) + CatchesBytes(t.catches)))
  }

  function TriesBytes(ts: seq<TryItem>): seq<byte> {
    if ts == [] then [] else TryBytes(ts[0]) + TriesBytes(ts[1..])
  }

  function CodeBytes(c: CodeItem): seq<byte> {
    Uleb(c.vregs) + (Uleb(c.args) + (Uleb(|c.insns|) + (Uleb(|c.tries|) + (c.insns + TriesBytes(c.tries)))))
  }

  // ---------- reserved sizes ----------

  function CatchSize(c: CatchItem): nat {
    UnsignedEncodingSize(TypeOff(c.typ)) + UnsignedEncodingSize(c.handler) + UnsignedEncodingSize(c.codeSize)
  }

  function CatchesSize(cs: seq<CatchItem>): nat {
    if cs == [] then 0 else CatchSize(cs[0]) + CatchesSize(cs[1..])
  }

  function TrySize(t: TryItem): nat {
    UnsignedEncodingSize(t.start) + UnsignedEncodingSize(t.length) + UnsignedEncodingSize(|t.catches|)
      + CatchesSize(t.catches)
  }

  function TriesSize(ts: seq<TryItem>): nat {
    if ts == [] then 0 else TrySize(ts[0]) + TriesSize(ts[1..])
  }

  function CalculateCodeSize(c: CodeItem): nat {
    UnsignedEncodingSize(c.vregs) + UnsignedEncodingSize(c.args) + UnsignedEncodingSize(|c.insns|)
    + UnsignedEncodingSize(|c.tries|) + |c.insns| + TriesSize(c.tries)
  }

  lemma {:induction false} CatchSizeExact(c: CatchItem)
    ensures |CatchBytes(c)| == CatchSize(c)
  {
    hide Uleb, UnsignedEncodingSize;
    UlebSize(TypeOff(c.typ));
    UlebSize(c.handler);
    UlebSize(c.codeSize);
  }

  lemma {:induction false} CatchesSizeExact(cs: seq<CatchItem>)
    ensures |CatchesBytes(cs)| == CatchesSize(cs)
  {
    hide CatchBytes, CatchSize;
    if cs != [] {
      CatchSizeExact(cs[0]);
      CatchesSizeExact(cs[1..]);
    }
  }

  lemma {:induction false} TrySizeExact(t: TryItem)
    ensures |TryBytes(t)| == TrySize(t)
  {
    hide Uleb, UnsignedEncodingSize, CatchesBytes, CatchesSize;
    UlebSize(t.start);
    UlebSize(t.length);
    UlebSize(|t.catches|);
    CatchesSizeExact(t.catches);
  }

  lemma {:induction false} TriesSizeExact(ts: seq<TryItem>)
    ensures |TriesBytes(ts)| == TriesSize(ts)
  {
    hide TryBytes, TrySize;
    if ts != [] {
      TrySizeExact(ts[0]);
      TriesSizeExact(ts[1..]);
    }
  }

  /** A code item takes exactly the bytes that were reserved for it. */
  lemma {:induction false} CodeSizeExact(c: CodeItem)
    ensures |CodeBytes(c)| == CalculateCodeSize(c)
  {
    hide Uleb, UnsignedEncodingSize, TriesBytes, TriesSize;
    UlebSize(c.vregs);
    UlebSize(c.args);
    UlebSize(|c.insns|);
    UlebSize(|c.tries|);
    TriesSizeExact(c.tries);
  }

  // ---------- reading ----------

  /** A catch block, and its size. The stored index wraps below zero for a block that catches everything. */
  function ReadCatch(file: seq<byte>, p: nat): (Catch, nat) {
    var (t, p1) := ReadUlebAt(file, p);
    var (handler, p2) := ReadUlebAt(file, p1);
    var (size, p3) := ReadUlebAt(file, p2);
    (Catch((t - 1) % 0x1_0000_0000, handler, size), if p3 < p then 0 else p3 - p)
  }

  function CatchView(c: CatchItem): Catch {
    Catch(match c.typ case Some(i) => i case None => INVALID_INDEX, c.handler, c.codeSize)
  }

  function CatchViews(cs: seq<CatchItem>): (r: seq<Catch>)
    ensures |r| == |cs| && forall i :: 0 <= i < |cs| ==> r[i] == CatchView(cs[i])
  {
    seq(|cs|, i requires 0 <= i < |cs| => CatchView(cs[i]))
  }

  lemma {:induction false} CatchRead(file: seq<byte>, p: nat, c: CatchItem)
    requires ValidCatch(c) && Lies(file, p, CatchBytes(c))
    ensures ReadCatch(file, p) == (CatchView(c), |CatchBytes(c)|)
  {
    hide Uleb, ReadUlebAt, Lies;
    var t := TypeOff(c.typ);
    LiesSplit(file, p, Uleb(t), Uleb(c.handler) + Uleb(c.codeSize));
    LiesSplit(file, p + |Uleb(t)|, Uleb(c.handler), Uleb(c.codeSize));
    ReadUlebBack(file, p, t);
    ReadUlebBack(file, p + |Uleb(t)|, c.handler);
    ReadUlebBack(file, p + |Uleb(t)| + |Uleb(c.handler)|, c.codeSize);
    var index := t as int - 1;
    ModOnce(index, 0x1_0000_0000);
  }

  /** Catch block i lies after the first i. */
  lemma {:induction false} CatchesSizeSplit(cs: seq<CatchItem>, i: nat)
    requires i <= |cs|
    ensures CatchesSize(cs[..i]) + CatchesSize(cs[i..]) == CatchesSize(cs)
    decreases i
  {
    hide CatchSize;
    if i == 0 {
      assert cs[0..] == cs && cs[..0] == [];
    } else {
      CatchesSizeSplit(cs[1..], i - 1);
      assert cs[1..][i - 1..] == cs[i..];
      assert cs[..i][1..] == cs[1..][..i - 1];
      assert cs[..i][0] == cs[0];
    }
  }

  lemma {:induction false} CatchLies(file: seq<byte>, p: nat, cs: seq<CatchItem>, i: nat)
    requires i <= |cs| && Lies(file, p, CatchesBytes(cs))
    ensures Lies(file, p + CatchesSize(cs[..i]), CatchesBytes(cs[i..]))
  {
    hide Lies, CatchBytes, CatchSize;
    CatchesAppend(cs, i);
    CatchesSizeExact(cs[..i]);
    LiesSplit(file, p, CatchesBytes(cs[..i]), CatchesBytes(cs[i..]));
  }

  lemma {:induction false} CatchesAppend(cs: seq<CatchItem>, i: nat)
    requires i <= |cs|
    ensures CatchesBytes(cs) == CatchesBytes(cs[..i]) + CatchesBytes(cs[i..])
    decreases i
  {
    hide CatchBytes;
    if i == 0 {
      assert cs[0..] == cs && cs[..0] == [];
    } else {
      CatchesAppend(cs[1..], i - 1);
      assert cs[1..][i - 1..] == cs[i..];
      assert cs[..i][1..] == cs[1..][..i - 1];
      assert cs[..i][0] == cs[0];
    }
  }

  lemma {:induction false} CatchesNext(file: seq<byte>, p: nat, cs: seq<CatchItem>, i: nat)
    requires i < |cs| && Lies(file, p, CatchesBytes(cs))
    ensures Lies(file, p + CatchesSize(cs[..i]), CatchBytes(cs[i]))
    ensures CatchesSize(cs[..i + 1]) == CatchesSize(cs[..i]) + |CatchBytes(cs[i])|
  {
    hide CatchBytes, CatchSize, Lies;
    CatchLies(file, p, cs, i);
    CatchesSizeSplit(cs, i);
    CatchesSizeSplit(cs, i + 1);
    CatchSizeExact(cs[i]);
    assert cs[i..][1..] == cs[i + 1..];
    LiesSplit(file, p + CatchesSize(cs[..i]), CatchBytes(cs[i]), CatchesBytes(cs[i + 1..]));
  }

  lemma {:induction false} TriesSizeSplit(ts: seq<TryItem>, i: nat)
    requires i <= |ts|
    ensures TriesSize(ts[..i]) + TriesSize(ts[i..]) == TriesSize(ts)
    decreases i
  {
    hide TrySize;
    if i == 0 {
      assert ts[0..] == ts && ts[..0] == [];
    } else {
      TriesSizeSplit(ts[1..], i - 1);
      assert ts[1..][i - 1..] == ts[i..];
      assert ts[..i][1..] == ts[1..][..i - 1];
      assert ts[..i][0] == ts[0];
    }
  }

  lemma {:induction false} TryLies(file: seq<byte>, p: nat, ts: seq<TryItem>, i: nat)
    requires i <= |ts| && Lies(file, p, TriesBytes(ts))
    ensures Lies(file, p + TriesSize(ts[..i]), TriesBytes(ts[i..]))
  {
    hide Lies, TryBytes, TrySize;
    TriesAppend(ts, i);
    TriesSizeExact(ts[..i]);
    LiesSplit(file, p, TriesBytes(ts[..i]), TriesBytes(ts[i..]));
  }

  lemma {:induction false} TriesAppend(ts: seq<TryItem>, i: nat)
    requires i <= |ts|
    ensures TriesBytes(ts) == TriesBytes(ts[..i]) + TriesBytes(ts[i..])
    decreases i
  {
    hide TryBytes;
    if i == 0 {
      assert ts[0..] == ts && ts[..0] == [];
    } else {
      TriesAppend(ts[1..], i - 1);
      assert ts[1..][i - 1..] == ts[i..];
      assert ts[..i][1..] == ts[1..][..i - 1];
      assert ts[..i][0] == ts[0];
    }
  }

  lemma {:induction false} TriesNext(file: seq<byte>, p: nat, ts: seq<TryItem>, i: nat)
    requires i < |ts| && Lies(file, p, TriesBytes(ts))
    ensures Lies(file, p + TriesSize(ts[..i]), TryBytes(ts[i]))
    ensures TriesSize(ts[..i + 1]) == TriesSize(ts[..i]) + TrySize(ts[i])
  {
    hide TryBytes, TrySize, Lies;
    TryLies(file, p, ts, i);
    TriesSizeSplit(ts, i);
    TriesSizeSplit(ts, i + 1);
    assert ts[i..][1..] == ts[i + 1..];
    LiesSplit(file, p + TriesSize(ts[..i]), TryBytes(ts[i]), TriesBytes(ts[i + 1..]));
  }

  lemma {:induction false} TryHeadRead(file: seq<byte>, p: nat, t: TryItem)
    requires Lies(file, p, TryBytes(t))
    ensures
      var p1 := p + |Uleb(t.start)|;
      var p2 := p1 + |Uleb(t.length)|;
      var p3 := p2 + |Uleb(|t.catches|)|;
      && ReadUlebAt(file, p) == (t.start, p1)
      && ReadUlebAt(file, p1) == (t.length, p2)
      && ReadUlebAt(file, p2) == (|t.catches|, p3)
      && Lies(file, p3, CatchesBytes(t.catches))
      && p3 - p + CatchesSize(t.catches) == TrySize(t)
  {
    hide Uleb, ReadUlebAt, Lies, CatchesBytes, CatchesSize, UnsignedEncodingSize;
    var p1 := p + |Uleb(t.start)|;
    var p2 := p1 + |Uleb(t.length)|;
    LiesSplit(file, p, Uleb(t.start), Uleb(t.length) + (Uleb(|t.catches|) + CatchesBytes(t.catches)));
    LiesSplit(file, p1, Uleb(t.length), Uleb(|t.catches|) + CatchesBytes(t.catches));
    LiesSplit(file, p2, Uleb(|t.catches|), CatchesBytes(t.catches));
    ReadUlebBack(file, p, t.start);
    ReadUlebBack(file, p1, t.length);
    ReadUlebBack(file, p2, |t.catches|);
    UlebSize(t.start);
    UlebSize(t.length);
    UlebSize(|t.catches|);
  }

  lemma {:induction false} CodeHeadRead(file: seq<byte>, p: nat, c: CodeItem)
    requires Lies(file, p, CodeBytes(c))
    ensures
      var p1 := p + |Uleb(c.vregs)|;
      var p2 := p1 + |Uleb(c.args)|;
      var p3 := p2 + |Uleb(|c.insns|)|;
      var p4 := p3 + |Uleb(|c.tries|)|;
      && ReadUlebAt(file, p) == (c.vregs, p1)
      && ReadUlebAt(file, p1) == (c.args, p2)
      && ReadUlebAt(file, p2) == (|c.insns|, p3)
      && ReadUlebAt(file, p3) == (|c.tries|, p4)
      && Lies(file, p4, c.insns)
      && Lies(file, p4 + |c.insns|, TriesBytes(c.tries))
      && p4 + |c.insns| - p + TriesSize(c.tries) == CalculateCodeSize(c)
  {
    hide Uleb, ReadUlebAt, Lies, TriesBytes, TriesSize, UnsignedEncodingSize;
    var p1 := p + |Uleb(c.vregs)|;
    var p2 := p1 + |Uleb(c.args)|;
    var p3 := p2 + |Uleb(|c.insns|)|;
    var p4 := p3 + |Uleb(|c.tries|)|;
    var rest := c.insns + TriesBytes(c.tries);
    LiesSplit(file, p, Uleb(c.vregs), Uleb(c.args) + (Uleb(|c.insns|) + (Uleb(|c.tries|) + rest)));
    LiesSplit(file, p1, Uleb(c.args), Uleb(|c.insns|) + (Uleb(|c.tries|) + rest));
    LiesSplit(file, p2, Uleb(|c.insns|), Uleb(|c.tries|) + rest);
    LiesSplit(file, p3, Uleb(|c.tries|), rest);
    LiesSplit(file, p4, c.insns, TriesBytes(c.tries));
    ReadUlebBack(file, p, c.vregs);
    ReadUlebBack(file, p1, c.args);
    ReadUlebBack(file, p2, |c.insns|);
    ReadUlebBack(file, p3, |c.tries|);
    UlebSize(c.vregs);
    UlebSize(c.args);
    UlebSize(|c.insns|);
    UlebSize(|c.tries|);
  }

  /** A callback sees the blocks in order until it says stop: it refuses the one after the first `stop`. */
  function Stopped(n: nat, stop: nat): nat {
    if stop < n then stop + 1 else n
  }

  class TryBlock {
    const file: seq<byte>
    const at: nat
    ghost const item: TryItem
    const startPc: nat
    const length: nat
    const numCatches: nat
    const catchBlocks: nat
    var size: nat

    ghost predicate Constant() {
      && ValidTry(item)
      && startPc == item.start && length == item.length && numCatches == |item.catches|
      && Lies(file, catchBlocks, CatchesBytes(item.catches))
      && catchBlocks >= at && catchBlocks - at + CatchesSize(item.catches) == TrySize(item)
    }

    ghost predicate Valid()
      reads this
    {
      Constant() && (size == 0 || size == TrySize(item))
    }

    constructor (file: seq<byte>, at: nat, ghost item: TryItem)
      requires ValidTry(item) && Lies(file, at, TryBytes(item))
      ensures Valid() && this.file == file && this.at == at && this.item == item
    {
      hide Uleb, ReadUlebAt, Lies, CatchesBytes, CatchesSize, TrySize, TryBytes, ValidTry;
      TryHeadRead(file, at, item);
      var (s, p1) := ReadUlebAt(file, at);
      var (l, p2) := ReadUlebAt(file, p1);
      var (n, p3) := ReadUlebAt(file, p2);
      this.file, this.at, this.item := file, at, item;
      startPc, length, numCatches, catchBlocks, size := s, l, n, p3, 0;
    }

    method EnumerateCatchBlocks(stop: nat) returns (seen: seq<Catch>)
      requires Valid()
      modifies this
      ensures Valid() && seen == CatchViews(item.catches)[..Stopped(|item.catches|, stop)]
      ensures stop >= |item.catches| ==> size == TrySize(item)
    {
      hide Lies, CatchesBytes, CatchesSize, TrySize, TryBytes, ReadCatch, CatchBytes, ValidCatch, CatchView;
      seen := [];
      var sp := catchBlocks;
      NoCatches();
      for i := 0 to numCatches
        invariant seen == CatchViews(item.catches)[..i] && i <= stop
        invariant sp == catchBlocks + CatchesSize(item.catches[..i]) && size == old(size)
      {
        CatchesNext(file, catchBlocks, item.catches, i);
        CatchRead(file, sp, item.catches[i]);
        var (c, n) := ReadCatch(file, sp);
        seen := seen + [c];
        if i == stop {
          return;
        }
        sp := sp + n;
      }
      assert item.catches[..numCatches] == item.catches;
      size := sp - at;
    }

    lemma {:induction false} NoCatches()
      ensures CatchesSize(item.catches[..0]) == 0
    {
    }

    method GetSize() returns (n: nat)
      requires Valid()
      modifies this
      ensures Valid() && n == TrySize(item)
    {
      hide Constant, TrySize;
      if size == 0 {
        var _ := EnumerateCatchBlocks(numCatches);
        SameCount();
      }
      return size;
    }

    lemma {:induction false} SameCount()
      requires Constant()
      ensures numCatches == |item.catches| && TrySize(item) > 0
    {
      hide CatchesBytes, Lies;
      UlebSize(item.start);
    }
  }

  function TryView(t: TryItem, stop: nat): Try {
    Try(t.start, t.length, CatchViews(t.catches)[..Stopped(|t.catches|, stop)])
  }

  function TryViews(ts: seq<TryItem>, stop: nat): (r: seq<Try>)
    ensures |r| == |ts| && forall i :: 0 <= i < |ts| ==> r[i] == TryView(ts[i], stop)
  {
    seq(|ts|, i requires 0 <= i < |ts| => TryView(ts[i], stop))
  }

  class CodeDataAccessor {
    const file: seq<byte>
    const id: nat
    ghost const item: CodeItem
    const numVregs: nat
    const numArgs: nat
    const codeSize: nat
    const triesSize: nat
    const instructions: nat
    const tryBlocks: nat
    var size: nat

    ghost predicate Constant() {
      && ValidCode(item)
      && numVregs == item.vregs && numArgs == item.args && codeSize == |item.insns| && triesSize == |item.tries|
      && Lies(file, instructions, item.insns)
      && Lies(file, tryBlocks, TriesBytes(item.tries))
      && tryBlocks >= id && tryBlocks - id + TriesSize(item.tries) == CalculateCodeSize(item)
    }

    ghost predicate Valid()
      reads this
    {
      Constant() && (size == 0 || size == CalculateCodeSize(item))
    }

    constructor (file: seq<byte>, id: nat, ghost item: CodeItem)
      requires ValidCode(item) && Lies(file, id, CodeBytes(item))
      ensures Valid() && this.file == file && this.id == id && this.item == item
    {
      hide Uleb, ReadUlebAt, Lies, TriesBytes, TriesSize, CalculateCodeSize, CodeBytes, ValidCode;
      CodeHeadRead(file, id, item);
      var (v, p1) := ReadUlebAt(file, id);
      var (a, p2) := ReadUlebAt(file, p1);
      var (n, p3) := ReadUlebAt(file, p2);
      var (t, p4) := ReadUlebAt(file, p3);
      this.file, this.id, this.item := file, id, item;
      numVregs, numArgs, codeSize, triesSize := v, a, n, t;
      instructions, tryBlocks, size := p4, p4 + n, 0;
    }

    /** The callback looks at catch blocks up to `inner` of each try block, and stops after try block `stop`. */
    method EnumerateTryBlocks(stop: nat, inner: nat) returns (seen: seq<Try>)
      requires Valid()
      modifies this
      ensures Valid() && seen == TryViews(item.tries, inner)[..Stopped(|item.tries|, stop)]
      ensures stop >= |item.tries| ==> size == CalculateCodeSize(item)
    {
      hide Lies, TriesBytes, TriesSize, CalculateCodeSize, TryView, ValidTry;
      seen := [];
      var sp := tryBlocks;
      NoTries();
      for i := 0 to triesSize
        invariant seen == TryViews(item.tries, inner)[..i] && i <= stop
        invariant sp == tryBlocks + TriesSize(item.tries[..i]) && size == old(size)
      {
        TriesNext(file, tryBlocks, item.tries, i);
        var t, n := VisitTry(sp, i, inner);
        seen := seen + [t];
        if i == stop {
          return;
        }
        sp := sp + n;
      }
      assert item.tries[..triesSize] == item.tries;
      size := sp - id;
    }

    method VisitTry(sp: nat, i: nat, inner: nat) returns (t: Try, n: nat)
      requires i < |item.tries| && ValidTry(item.tries[i]) && Lies(file, sp, TryBytes(item.tries[i]))
      ensures t == TryView(item.tries[i], inner) && n == TrySize(item.tries[i])
    {
      hide Lies, TryBytes, TrySize, ValidTry, CatchesSize;
      var b := new TryBlock(file, sp, item.tries[i]);
      var cs := b.EnumerateCatchBlocks(inner);
      t := Try(b.startPc, b.length, cs);
      n := b.GetSize();
    }

    lemma {:induction false} NoTries()
      ensures TriesSize(item.tries[..0]) == 0
    {
    }

    method GetSize() returns (n: nat)
      requires Valid()
      modifies this
      ensures Valid() && n == CalculateCodeSize(item)
    {
      hide Constant, CalculateCodeSize;
      if size == 0 {
        SameCount();
        var _ := EnumerateTryBlocks(triesSize, 0);
      }
      return size;
    }

    lemma {:induction false} SameCount()
      requires Constant()
      ensures triesSize == |item.tries|
    {
      hide TriesBytes, Lies, CalculateCodeSize, TriesSize;
    }
  }
}
