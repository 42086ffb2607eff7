/** Room for the static fields of a class: gaps in front of wide fields are filled with narrow ones. */
module StaticFields {
  import opened Bytes

  /** A field in memory. */
  datatype Field = Field(at: nat, width: nat)

  predicate Width(w: nat) {
    w == 1 || w == 2 || w == 4 || w == 8
  }

  /** Fields one after the other in [lo, hi), each naturally aligned, none overlapping the next. */
  predicate Placed(fields: seq<Field>, lo: nat, hi: nat) {
    if fields == [] then lo <= hi
    else
      var f := fields[0];
      Width(f.width) && lo <= f.at && f.at % f.width == 0 && Placed(fields[1..], f.at + f.width, hi)
  }

  function Count(fields: seq<Field>, w: nat): nat {
    if fields == [] then 0 else (if fields[0].width == w then 1 else 0) + Count(fields[1..], w)
  }

  function Total(fields: seq<Field>): nat {
    if fields == [] then 0 else fields[0].width + Total(fields[1..])
  }

  /** Any two fields are apart, and all are inside. */
  lemma {:induction false} PlacedApart(fields: seq<Field>, lo: nat, hi: nat, i: nat, j: nat)
    requires Placed(fields, lo, hi) && i < j <= |fields|
    ensures Width(fields[i].width) && lo <= fields[i].at && fields[i].at % fields[i].width == 0
    ensures fields[i].at + fields[i].width <= hi
    ensures j < |fields| ==> fields[i].at + fields[i].width <= fields[j].at
    decreases |fields|
  {
    PlacedBound(fields, lo, hi);
    if i > 0 {
      PlacedApart(fields[1..], fields[0].at + fields[0].width, hi, i - 1, j - 1);
    } else {
      PlacedBound(fields[1..], fields[0].at + fields[0].width, hi);
      if 0 < j < |fields| {
        PlacedApart(fields[1..], fields[0].at + fields[0].width, hi, j - 1, |fields| - 1);
      }
    }
  }

  lemma {:induction false} PlacedBound(fields: seq<Field>, lo: nat, hi: nat)
    requires Placed(fields, lo, hi)
    ensures lo + Total(fields) <= hi
  {
    if fields != [] {
      PlacedBound(fields[1..], fields[0].at + fields[0].width, hi);
    }
  }

  lemma {:induction false} PlacedWider(fields: seq<Field>, lo: nat, hi: nat, lo': nat, hi': nat)
    requires Placed(fields, lo, hi) && lo' <= lo && hi <= hi'
    ensures Placed(fields, lo', hi')
  {
    if fields != [] {
      PlacedWider(fields[1..], fields[0].at + fields[0].width, hi, fields[0].at + fields[0].width, hi');
    }
  }

  lemma {:induction false} PlacedJoin(a: seq<Field>, b: seq<Field>, lo: nat, mid: nat, hi: nat)
    requires Placed(a, lo, mid) && Placed(b, mid, hi)
    ensures Placed(a + b, lo, hi)
    ensures Total(a + b) == Total(a) + Total(b)
    ensures forall w :: Count(a + b, w) == Count(a, w) + Count(b, w)
  {
    if a == [] {
      assert a + b == b;
      PlacedWider(b, mid, hi, lo, hi);
    } else {
      PlacedJoin(a[1..], b, a[0].at + a[0].width, mid, hi);
      assert (a + b)[1..] == a[1..] + b;
    }
  }

  // ---------- filling a gap ----------

  /** Takes fields of one width for a gap, from its end downwards, as long as they fit and there are any. */
  method Pad(width: nat, padding: nat, n: nat, ghost gap: nat, ghost end: nat, ghost filled: seq<Field>)
    returns (padding': nat, n': nat, ghost filled': seq<Field>)
    requires Width(width) && (gap + padding) % width == 0 && Placed(filled, gap + padding, end)
    ensures padding' <= padding && n' <= n && Placed(filled', gap + padding', end)
    ensures (gap + padding') % width == 0
    ensures padding - padding' == width * (n - n') && (padding' < width || n' == 0)
    ensures Total(filled') == Total(filled) + (padding - padding')
    ensures forall w :: Count(filled', w) == Count(filled, w) + if w == width then n - n' else 0
  {
    hide Placed, Count, Total;
    padding', n', filled' := padding, n, filled;
    while padding' >= width && n' > 0
      invariant padding' <= padding && n' <= n && Placed(filled', gap + padding', end)
      invariant (gap + padding') % width == 0
      invariant padding - padding' == width * (n - n')
      invariant Total(filled') == Total(filled) + (padding - padding')
      invariant forall w :: Count(filled', w) == Count(filled, w) + if w == width then n - n' else 0
    {
      padding' := padding' - width;
      n' := n' - 1;
      StepDown(width, gap + padding', n - n');
      PlaceBefore(Field(gap + padding', width), filled', end);
      filled' := [Field(gap + padding', width)] + filled';
    }
  }

  lemma {:induction false} StepDown(width: nat, x: nat, k: nat)
    requires Width(width) && k > 0
    ensures (x + width) % width == 0 ==> x % width == 0
    ensures width * k == width * (k - 1) + width
  {
  }

  lemma {:induction false} StepUp(width: nat, x: nat)
    requires Width(width) && x % width == 0
    ensures (x + width) % width == 0
  {
  }

  lemma {:induction false} PlaceBefore(f: Field, rest: seq<Field>, hi: nat)
    requires Width(f.width) && f.at % f.width == 0 && Placed(rest, f.at + f.width, hi)
    ensures Placed([f] + rest, f.at, hi)
    ensures Total([f] + rest) == f.width + Total(rest)
    ensures forall w :: Count([f] + rest, w) == (if w == f.width then 1 else 0) + Count(rest, w)
  {
    assert ([f] + rest)[1..] == rest;
  }

  /** n fields of one width from an aligned position. */
  function Run(at: nat, width: nat, n: nat): seq<Field>
    decreases n
  {
    if n == 0 then [] else [Field(at, width)] + Run(at + width, width, n - 1)
  }

  lemma {:induction false} RunPlaced(at: nat, width: nat, n: nat)
    requires Width(width) && at % width == 0
    ensures Placed(Run(at, width, n), at, at + width * n)
    ensures Total(Run(at, width, n)) == width * n
    ensures forall w :: Count(Run(at, width, n), w) == if w == width then n else 0
    decreases n
  {
    hide Placed, Count, Total;
    NoFields(at);
    if n > 0 {
      StepDown(width, at, n);
      StepUp(width, at);
      RunPlaced(at + width, width, n - 1);
      PlaceBefore(Field(at, width), Run(at + width, width, n - 1), at + width * n);
    }
  }

  // ---------- the class ----------

  function AlignUp(x: nat, n: nat): nat
    requires n > 0
  {
    (x + n - 1) / n * n
  }

  /** How many fields of each width there are. */
  datatype Counts = Counts(n8: nat, n16: nat, n32: nat, n64: nat)

  ghost predicate Holds(fields: seq<Field>, c: Counts) {
    && Count(fields, 1) == c.n8 && Count(fields, 2) == c.n16 && Count(fields, 4) == c.n32 && Count(fields, 8) == c.n64
    && Total(fields) == TotalOf(c)
  }

  /** What the fields take without any gap. */
  function TotalOf(c: Counts): nat {
    c.n8 + 2 * c.n16 + 4 * c.n32 + 8 * c.n64
  }

  /** All fields can be placed in [start, end), naturally aligned and apart. */
  ghost predicate HasRoom(start: nat, end: nat, c: Counts) {
    exists fields :: Placed(fields, start, end) && Holds(fields, c)
  }

  lemma {:induction false} RoomIs(fields: seq<Field>, start: nat, end: nat, c: Counts)
    requires Placed(fields, start, end) && Holds(fields, c)
    ensures HasRoom(start, end, c) && Total(fields) == TotalOf(c)
  {
    hide Placed, Count;
  }

  /** A state on the way: what is left, and where the fields so far are. */
  ghost predicate Filled(start: nat, size: nat, c: Counts, left: Counts, fields: seq<Field>) {
    && left.n8 <= c.n8 && left.n16 <= c.n16 && left.n32 <= c.n32 && left.n64 == c.n64
    && Placed(fields, start, size)
    && Holds(fields, Counts(c.n8 - left.n8, c.n16 - left.n16, c.n32 - left.n32, 0))
    && start <= size && size - start - Total(fields) < 8
  }

  lemma {:induction false} Padding(size: nat, n: nat)
    requires n == 2 || n == 4 || n == 8
    ensures size <= AlignUp(size, n) < size + n && AlignUp(size, n) % n == 0
    ensures AlignUp(size, n) % 2 == 0 && (n >= 4 ==> AlignUp(size, n) % 4 == 0)
  {
    if n == 2 {
    } else if n == 4 {
    } else {
    }
  }

  method FillGap(start: nat, n: nat, c: Counts) returns (size: nat, left: Counts, ghost fields: seq<Field>)
    requires n == 2 || n == 4 || n == 8
    ensures size == AlignUp(start, n) && Filled(start, size, c, left, fields)
    ensures n == 2 ==> left.n16 == c.n16
    ensures n <= 4 ==> left.n32 == c.n32
  {
    hide Placed, Count, Total, AlignUp;
    Padding(start, n);
    size := AlignUp(start, n);
    var padding := size - start;
    fields := [];
    NoFields(size);
    var n32, n16, n8 := c.n32, c.n16, c.n8;
    if n == 8 {
      padding, n32, fields := Pad(4, padding, n32, start, size, fields);
      EvenToo(start + padding);
    }
    if n >= 4 {
      padding, n16, fields := Pad(2, padding, n16, start, size, fields);
    }
    padding, n8, fields := Pad(1, padding, n8, start, size, fields);
    left := Counts(n8, n16, n32, c.n64);
    PlacedWider(fields, start + padding, size, start, size);
  }

  lemma {:induction false} EvenToo(x: nat)
    requires x % 4 == 0
    ensures x % 2 == 0
  {
    ModUnique(x, 2, 2 * (x / 4), 0);
  }

  lemma {:induction false} NoFields(at: nat)
    ensures Placed([], at, at) && Total([]) == 0 && forall w :: Count([], w) == 0
  {
  }

  /** Where the other static fields start: behind the tables and the references. */
  function ReferencesEnd(
    classSize: nat, pointerSize: nat, objectPointerSize: nat, vtableSize: nat, imtSize: nat, numRef: nat): nat
    requires objectPointerSize > 0
  {
    AlignUp(classSize, objectPointerSize) + vtableSize * pointerSize + imtSize * pointerSize
      + numRef * objectPointerSize
  }

  method SizeWithReferences(
    classSize: nat, pointerSize: nat, objectPointerSize: nat, vtableSize: nat, imtSize: nat, numRef: nat)
    returns (size: nat)
    requires objectPointerSize > 0
    ensures size == ReferencesEnd(classSize, pointerSize, objectPointerSize, vtableSize, imtSize, numRef)
  {
    size := AlignUp(classSize, objectPointerSize);
    size := size + vtableSize * pointerSize;
    size := size + imtSize * pointerSize;
    size := size + numRef * objectPointerSize;
  }

  /**
    The size of a class leaves room for all its static fields, naturally aligned and apart, and wastes
    fewer than eight bytes after the reference fields.
   */
  method ComputeClassSize(
    classSize: nat, pointerSize: nat, objectPointerSize: nat,
    vtableSize: nat, imtSize: nat, num8: nat, num16: nat, num32: nat, num64: nat, numRef: nat, numTagged: nat)
    returns (size: nat)
    requires objectPointerSize > 0
    ensures
      var start := ReferencesEnd(classSize, pointerSize, objectPointerSize, vtableSize, imtSize, numRef);
      var c := Counts(num8, num16, num32, num64 + numTagged);
      HasRoom(start, size, c) && start + TotalOf(c) <= size < start + TotalOf(c) + 8
  {
    hide Placed, Count, Total, AlignUp, Filled, Holds, ReferencesEnd, HasRoom, TotalOf;
    size := SizeWithReferences(classSize, pointerSize, objectPointerSize, vtableSize, imtSize, numRef);
    ghost var start := size;
    var c := Counts(num8, num16, num32, num64 + numTagged);
    var left;
    ghost var fields;
    size, left, fields := FillGaps(size, c);
    RestFits(start, size, c, left, fields);
    RoomIs(fields + Rest(size, left), start, size + left.n64 * 8 + left.n32 * 4 + left.n16 * 2 + left.n8, c);
    size := size + left.n64 * 8 + left.n32 * 4 + left.n16 * 2 + left.n8;
  }

  lemma {:induction false} DivisibleToo(x: nat)
    ensures x % 8 == 0 ==> x % 4 == 0
    ensures x % 4 == 0 ==> x % 2 == 0
  {
    if x % 8 == 0 {
      ModUnique(x, 4, 2 * (x / 8), 0);
    }
    if x % 4 == 0 {
      EvenToo(x);
    }
  }

  /** At most one gap is filled: before the widest fields that need it. */
  method FillGaps(start: nat, c: Counts) returns (size: nat, left: Counts, ghost fields: seq<Field>)
    ensures Filled(start, size, c, left, fields) && Aligned(size, left)
  {
    hide AlignUp, Filled;
    size, left, fields := start, c, [];
    NothingFilled(start, c);
    DivisibleToo(start);
    if size % 8 != 0 && left.n64 > 0 {
      size, left, fields := FillGap(size, 8, left);
      Padding(start, 8);
      SameWide(start, size, c, left, fields);
    }
    if size % 4 != 0 && left.n32 > 0 {
      size, left, fields := FillGap(size, 4, left);
      Padding(start, 4);
      SameWide(start, size, c, left, fields);
    }
    if size % 2 != 0 && left.n16 > 0 {
      size, left, fields := FillGap(size, 2, left);
      Padding(start, 2);
      SameWide(start, size, c, left, fields);
    }
  }

  lemma {:induction false} NothingFilled(start: nat, c: Counts)
    ensures Filled(start, start, c, c, [])
  {
  }

  lemma {:induction false} SameWide(start: nat, size: nat, c: Counts, left: Counts, fields: seq<Field>)
    requires Filled(start, size, c, left, fields)
    ensures left.n64 == c.n64
  {
    hide Placed;
  }

  /** What is left goes behind, widest first. */
  function Rest(at: nat, left: Counts): seq<Field> {
    Run(at, 8, left.n64)
    + (Run(at + 8 * left.n64, 4, left.n32)
       + (Run(at + 8 * left.n64 + 4 * left.n32, 2, left.n16)
          + Run(at + 8 * left.n64 + 4 * left.n32 + 2 * left.n16, 1, left.n8)))
  }

  predicate Aligned(at: nat, left: Counts) {
    (left.n64 > 0 ==> at % 8 == 0) && (left.n32 > 0 ==> at % 4 == 0) && (left.n16 > 0 ==> at % 2 == 0)
  }

  lemma {:induction false} RunFits(at: nat, width: nat, n: nat)
    requires Width(width) && (n > 0 ==> at % width == 0)
    ensures Placed(Run(at, width, n), at, at + width * n)
    ensures Total(Run(at, width, n)) == width * n
    ensures forall w :: Count(Run(at, width, n), w) == if w == width then n else 0
  {
    if n > 0 {
      RunPlaced(at, width, n);
    }
  }

  lemma {:induction false} StaysAligned(at: nat, left: Counts)
    requires Aligned(at, left)
    ensures left.n32 > 0 ==> (at + 8 * left.n64) % 4 == 0
    ensures left.n16 > 0 ==> (at + 8 * left.n64 + 4 * left.n32) % 2 == 0
  {
  }

  lemma {:induction false} RestPlaced(at: nat, left: Counts)
    requires Aligned(at, left)
    ensures Placed(Rest(at, left), at, at + 8 * left.n64 + 4 * left.n32 + 2 * left.n16 + left.n8)
    ensures Holds(Rest(at, left), left)
  {
    hide Placed, Count, Total, Run, Aligned;
    StaysAligned(at, left);
    var p1 := at + 8 * left.n64;
    var p2 := p1 + 4 * left.n32;
    var p3 := p2 + 2 * left.n16;
    var p4 := p3 + left.n8;
    var a, b, c, d := Run(at, 8, left.n64), Run(p1, 4, left.n32), Run(p2, 2, left.n16), Run(p3, 1, left.n8);
    WideAligned(at, left);
    RunFits(at, 8, left.n64);
    RunFits(p1, 4, left.n32);
    RunFits(p2, 2, left.n16);
    RunFits(p3, 1, left.n8);
    PlacedJoin(c, d, p2, p3, p4);
    PlacedJoin(b, c + d, p1, p2, p4);
    PlacedJoin(a, b + (c + d), at, p1, p4);
  }

  lemma {:induction false} WideAligned(at: nat, left: Counts)
    requires Aligned(at, left)
    ensures left.n64 > 0 ==> at % 8 == 0
  {
  }

  lemma {:induction false} RestFits(start: nat, size: nat, c: Counts, left: Counts, fields: seq<Field>)
    requires Filled(start, size, c, left, fields) && Aligned(size, left)
    ensures
      var all, end := fields + Rest(size, left), size + left.n64 * 8 + left.n32 * 4 + left.n16 * 2 + left.n8;
      && Placed(all, start, end) && Holds(all, c)
      && start + Total(all) <= end < start + Total(all) + 8
  {
    hide Placed, Count, Total, Rest, Aligned;
    var end := size + left.n64 * 8 + left.n32 * 4 + left.n16 * 2 + left.n8;
    RestPlaced(size, left);
    PlacedJoin(fields, Rest(size, left), start, size, end);
    PlacedBound(fields + Rest(size, left), start, end);
  }
}
