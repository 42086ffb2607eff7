/**
  Layout and writing. One pass assigns offsets, using sizes computed from the offsets known so far;
  another pass writes. They agree on every position exactly if what each item writes and what was
  reserved for it reach the same next position.
 */
module FileLayout {
  import opened Bytes
  import opened FileBytes
  import opened Isa
  import opened Leb128
  import opened DedupState
  import opened ValueItems
  import opened FileItems

  /** The next multiple of n. */
  function RoundUp(x: nat, n: nat): (r: nat)
    requires n > 0
    ensures r >= x && r % n == 0 && r < x + n
  {
    RoundUpIs(x, n);
    (x + n - 1) / n * n
  }

  lemma {:induction false} RoundUpIs(x: nat, n: nat)
    requires n > 0
    ensures var r := (x + n - 1) / n * n; x <= r < x + n && r % n == 0 && r >= 0
  {
    var q, m := (x + n - 1) / n, (x + n - 1) % n;
    assert x + n - 1 == n * q + m;
    assert n * q == q * n;
    ModUnique(q * n, n, q, 0);
  }

  lemma {:induction false} RoundUpOne(x: nat)
    ensures RoundUp(x, 1) == x
  {
  }

  /** The items to lay out from `base` on, and what their indexes are. */
  datatype Plan = Plan(items: seq<FileItem>, index: (nat, nat) -> nat, programs: nat -> nat, base: nat)

  ghost predicate AllValid(items: seq<FileItem>) {
    forall i :: 0 <= i < |items| ==> ValidItem(items[i])
  }

  /** The number of item n: items are counted together with their members. */
  function First(items: seq<FileItem>, n: nat): nat
    requires n <= |items|
  {
    if n == 0 then 0 else First(items, n - 1) + 1 + MembersOf(items[n - 1])
  }

  function Count(pl: Plan): nat {
    First(pl.items, |pl.items|)
  }

  lemma {:induction false} FirstGrows(items: seq<FileItem>, i: nat, j: nat)
    requires i < j <= |items|
    ensures First(items, i) + 1 + MembersOf(items[i]) == First(items, i + 1) <= First(items, j)
  {
    hide MembersOf;
    if i + 1 < j {
      FirstGrows(items, i, j - 1);
    }
  }

  function EnvOf(pl: Plan, at: seq<nat>): Env {
    Env(at, pl.index, pl.programs)
  }

  /** What item i writes, given all offsets. */
  function BytesOf(pl: Plan, at: seq<nat>, i: nat): seq<byte>
    requires i < |pl.items|
  {
    ItemBytes(pl.items[i], First(pl.items, i), EnvOf(pl, at))
  }

  /** What must be aligned after i items: item i, or the table of programs after the last one. */
  function AlignAt(items: seq<FileItem>, i: nat): (n: nat)
    ensures n > 0
  {
    if i < |items| then Alignment(items[i]) else 4
  }

  /** The position after the first i items have been written. */
  function Position(pl: Plan, at: seq<nat>, i: nat): nat
    requires i <= |pl.items|
  {
    if i == 0 then pl.base
    else RoundUp(Position(pl, at, i - 1), Alignment(pl.items[i - 1])) + |BytesOf(pl, at, i - 1)|
  }

  lemma {:induction false} PositionSteps(pl: Plan, at: seq<nat>, i: nat)
    ensures Position(pl, at, 0) == pl.base
    ensures i < |pl.items| ==>
      Position(pl, at, i + 1) == RoundUp(Position(pl, at, i), Alignment(pl.items[i])) + |BytesOf(pl, at, i)|
  {
    hide BytesOf, RoundUp, Alignment;
  }

  /** Item i and its members have the offsets that they would have if the item were at p. */
  ghost predicate PlacedAt(items: seq<FileItem>, at: seq<nat>, i: nat, p: nat)
    requires i < |items|
  {
    First(items, i + 1) <= |at| && at[First(items, i)..First(items, i + 1)] == Block(items[i], p)
  }

  /** Every one of the first n items is at the position where it will be written. */
  ghost predicate LaidOut(pl: Plan, at: seq<nat>, n: nat)
    requires n <= |pl.items|
  {
    forall i :: 0 <= i < n ==> PlacedAt(pl.items, at, i, RoundUp(Position(pl, at, i), Alignment(pl.items[i])))
  }

  // ---------- assigning offsets ----------

  function Put(at: seq<nat>, o: nat, block: seq<nat>): (r: seq<nat>)
    ensures |r| == |at|
  {
    if o + |block| <= |at| then at[..o] + block + at[o + |block|..] else at
  }

  /** Offsets and end after laying out n items, starting from what an earlier layout left behind. */
  function Assign(pl: Plan, stale: seq<nat>, n: nat): (r: (seq<nat>, nat))
    requires n <= |pl.items|
    ensures |r.0| == |stale|
  {
    if n == 0 then (stale, pl.base)
    else
      var (at, cur) := Assign(pl, stale, n - 1);
      var p := RoundUp(cur, Alignment(pl.items[n - 1]));
      var after := Put(at, First(pl.items, n - 1), Block(pl.items[n - 1], p));
      (after, p + CalculateSize(pl.items[n - 1], EnvOf(pl, after)))
  }

  method ComputeOffsets(pl: Plan, stale: seq<nat>) returns (at: seq<nat>, end: nat)
    ensures (at, end) == Assign(pl, stale, |pl.items|)
  {
    hide CalculateSize, RoundUp, Put, Block;
    at, end := stale, pl.base;
    var o := 0;
    for i := 0 to |pl.items|
      invariant o == First(pl.items, i) && (at, end) == Assign(pl, stale, i)
    {
      end := RoundUp(end, Alignment(pl.items[i]));
      at := Put(at, o, Block(pl.items[i], end));
      end := end + CalculateSize(pl.items[i], EnvOf(pl, at));
      o := o + 1 + MembersOf(pl.items[i]);
    }
  }

  /** Where item i is put. */
  function Offset(pl: Plan, stale: seq<nat>, i: nat): nat
    requires i <= |pl.items|
  {
    RoundUp(Assign(pl, stale, i).1, AlignAt(pl.items, i))
  }

  /** What is reserved for it at that time. */
  function Reserved(pl: Plan, stale: seq<nat>, i: nat): nat
    requires i < |pl.items|
  {
    CalculateSize(pl.items[i], EnvOf(pl, Assign(pl, stale, i + 1).0))
  }

  lemma {:induction false} AssignSteps(pl: Plan, stale: seq<nat>, i: nat)
    requires i <= |pl.items|
    ensures Assign(pl, stale, 0) == (stale, pl.base)
    ensures i < |pl.items| ==>
      && Assign(pl, stale, i + 1).0
        == Put(Assign(pl, stale, i).0, First(pl.items, i), Block(pl.items[i], Offset(pl, stale, i)))
      && Assign(pl, stale, i + 1).1 == Offset(pl, stale, i) + Reserved(pl, stale, i)
  {
    hide CalculateSize, RoundUp, Put, Block;
  }

  lemma {:induction false} PutKeeps(at: seq<nat>, o: nat, block: seq<nat>)
    requires o + |block| <= |at|
    ensures var r := Put(at, o, block);
      r[..o] == at[..o] && r[o..o + |block|] == block && r[o + |block|..] == at[o + |block|..]
  {
  }

  lemma {:induction false} SamePrefix(s: seq<nat>, t: seq<nat>, a: nat, b: nat)
    requires a <= b <= |s| && b <= |t| && s[..b] == t[..b]
    ensures s[..a] == t[..a]
  {
    assert s[..a] == s[..b][..a];
  }

  /** Laying out more items leaves those before alone; those not yet reached keep what was left behind. */
  lemma {:induction false} AssignKeeps(pl: Plan, stale: seq<nat>, m: nat, n: nat)
    requires m <= n <= |pl.items| && |stale| == Count(pl)
    ensures First(pl.items, m) <= First(pl.items, n) <= |stale|
    ensures var o := First(pl.items, m); Assign(pl, stale, n).0[..o] == Assign(pl, stale, m).0[..o]
    ensures Assign(pl, stale, n).0[First(pl.items, n)..] == stale[First(pl.items, n)..]
    decreases n
  {
    hide Assign, First, Block, Put, Offset;
    var o, at := First(pl.items, n), Assign(pl, stale, n).0;
    if n < |pl.items| {
      FirstGrows(pl.items, n, |pl.items|);
    }
    if m < n {
      AssignKeeps(pl, stale, m, n - 1);
      FirstGrows(pl.items, n - 1, n);
      AssignSteps(pl, stale, n - 1);
      var before, b := Assign(pl, stale, n - 1).0, First(pl.items, n - 1);
      PutKeeps(before, b, Block(pl.items[n - 1], Offset(pl, stale, n - 1)));
      SamePrefix(at, before, First(pl.items, m), b);
      SameSuffix(before, stale, b, o);
    } else {
      KeepsStale(pl, stale, n);
    }
  }

  lemma {:induction false} SameSuffix(s: seq<nat>, t: seq<nat>, a: nat, b: nat)
    requires a <= b <= |s| == |t| && s[a..] == t[a..]
    ensures s[b..] == t[b..]
  {
    assert s[b..] == s[a..][b - a..];
  }

  lemma {:induction false} KeepsStale(pl: Plan, stale: seq<nat>, n: nat)
    requires n <= |pl.items| && |stale| == Count(pl)
    ensures First(pl.items, n) <= |stale|
    ensures Assign(pl, stale, n).0[First(pl.items, n)..] == stale[First(pl.items, n)..]
  {
    hide Assign, First, Block, Put, Offset;
    if n < |pl.items| {
      FirstGrows(pl.items, n, |pl.items|);
    }
    if n == 0 {
      AssignSteps(pl, stale, 0);
    } else {
      KeepsStale(pl, stale, n - 1);
      FirstGrows(pl.items, n - 1, n);
      AssignSteps(pl, stale, n - 1);
      var before, b := Assign(pl, stale, n - 1).0, First(pl.items, n - 1);
      PutKeeps(before, b, Block(pl.items[n - 1], Offset(pl, stale, n - 1)));
      SameSuffix(before, stale, b, First(pl.items, n));
    }
  }

  /** In the finished layout every item has the offsets it was put at. */
  lemma {:induction false} Assigned(pl: Plan, stale: seq<nat>, i: nat, n: nat)
    requires i < n <= |pl.items| && |stale| == Count(pl)
    ensures PlacedAt(pl.items, Assign(pl, stale, n).0, i, Offset(pl, stale, i))
  {
    hide Assign, First, Block, Put, Offset;
    AssignKeeps(pl, stale, i + 1, n);
    AssignKeeps(pl, stale, i, i + 1);
    FirstGrows(pl.items, i, i + 1);
    AssignSteps(pl, stale, i);
    var o, o' := First(pl.items, i), First(pl.items, i + 1);
    PutKeeps(Assign(pl, stale, i).0, o, Block(pl.items[i], Offset(pl, stale, i)));
    assert Assign(pl, stale, n).0[o..o'] == Assign(pl, stale, n).0[..o'][o..];
    assert Assign(pl, stale, i + 1).0[o..o'] == Assign(pl, stale, i + 1).0[..o'][o..];
  }

  // ---------- when the layout is right ----------

  /** Item i and the one after it meet: what it writes ends where the room reserved for it ends, up to alignment. */
  ghost predicate Meets(pl: Plan, stale: seq<nat>, i: nat)
    requires i < |pl.items|
  {
    var at, p := Assign(pl, stale, |pl.items|).0, Offset(pl, stale, i);
    RoundUp(p + |BytesOf(pl, at, i)|, AlignAt(pl.items, i + 1)) == Offset(pl, stale, i + 1)
  }

  ghost predicate Settled(pl: Plan, stale: seq<nat>) {
    forall i :: 0 <= i < |pl.items| ==> Meets(pl, stale, i)
  }

  ghost function Next(pl: Plan, at: seq<nat>, i: nat): nat
    requires i <= |pl.items|
  {
    RoundUp(Position(pl, at, i), AlignAt(pl.items, i))
  }

  lemma {:induction false} BlockAt(it: FileItem, p: nat, q: nat)
    ensures Block(it, p) == Block(it, q) <==> p == q
  {
    assert Block(it, p)[0] == p && Block(it, q)[0] == q;
  }

  lemma {:induction false} PlacedOnce(items: seq<FileItem>, at: seq<nat>, i: nat, p: nat, q: nat)
    requires i < |items| && PlacedAt(items, at, i, p)
    ensures PlacedAt(items, at, i, q) <==> p == q
  {
    hide Block;
    BlockAt(items[i], p, q);
  }

  lemma {:induction false} MeetsStep(pl: Plan, stale: seq<nat>, i: nat)
    requires i < |pl.items|
    ensures
      var at := Assign(pl, stale, |pl.items|).0;
      Next(pl, at, i) == Offset(pl, stale, i) ==>
        (Meets(pl, stale, i) <==> Next(pl, at, i + 1) == Offset(pl, stale, i + 1))
  {
    hide Assign, BytesOf, RoundUp, Position;
    PositionSteps(pl, Assign(pl, stale, |pl.items|).0, i);
  }

  lemma {:induction false} SettledPositions(pl: Plan, stale: seq<nat>, i: nat)
    requires Settled(pl, stale) && i <= |pl.items|
    ensures Next(pl, Assign(pl, stale, |pl.items|).0, i) == Offset(pl, stale, i)
  {
    hide Assign, RoundUp, Position, Meets;
    if i == 0 {
      AssignSteps(pl, stale, 0);
      PositionSteps(pl, Assign(pl, stale, |pl.items|).0, 0);
    } else {
      SettledPositions(pl, stale, i - 1);
      MeetsStep(pl, stale, i - 1);
    }
  }

  lemma {:induction false} LaidOutPosition(pl: Plan, stale: seq<nat>, i: nat)
    requires i < |pl.items| && |stale| == Count(pl)
    requires LaidOut(pl, Assign(pl, stale, |pl.items|).0, |pl.items|)
    ensures Next(pl, Assign(pl, stale, |pl.items|).0, i) == Offset(pl, stale, i)
  {
    hide Assign, RoundUp, Position, PlacedAt, First;
    var at := Assign(pl, stale, |pl.items|).0;
    Assigned(pl, stale, i, |pl.items|);
    PlacedOnce(pl.items, at, i, Offset(pl, stale, i), Next(pl, at, i));
    assert PlacedAt(pl.items, at, i, RoundUp(Position(pl, at, i), Alignment(pl.items[i])));
  }

  /**
    For all items and all offsets left behind by earlier layouts: every item, and the table of programs
    after them, will be written where the layout put it exactly if each item meets the next one.
   */
  lemma {:induction false} LayoutExactly(pl: Plan, stale: seq<nat>)
    requires |stale| == Count(pl)
    ensures
      var (at, end) := Assign(pl, stale, |pl.items|);
      Settled(pl, stale) <==>
        LaidOut(pl, at, |pl.items|) && RoundUp(end, 4) == RoundUp(Position(pl, at, |pl.items|), 4)
  {
    hide Assign, RoundUp, Position, PlacedAt, First, Meets;
    var n, at := |pl.items|, Assign(pl, stale, |pl.items|).0;
    if Settled(pl, stale) {
      SettledPositions(pl, stale, n);
      forall i | 0 <= i < n ensures PlacedAt(pl.items, at, i, RoundUp(Position(pl, at, i), Alignment(pl.items[i]))) {
        SettledPositions(pl, stale, i);
        Assigned(pl, stale, i, n);
      }
    }
    if LaidOut(pl, at, n) && Next(pl, at, n) == Offset(pl, stale, n) {
      forall i | 0 <= i < n ensures Meets(pl, stale, i) {
        LaidOutPosition(pl, stale, i);
        if i + 1 < n {
          LaidOutPosition(pl, stale, i + 1);
        }
        MeetsStep(pl, stale, i);
      }
    }
  }

  ghost predicate AllSized(items: seq<FileItem>) {
    forall i :: 0 <= i < |items| ==> ValidItem(items[i]) && Sized(items[i])
  }

  /**
    Only arrays that do not fit, and debug infos and handles whose names move to offsets of another
    width, can miss the next item.
   */
  lemma {:induction false} MeetsUnless(pl: Plan, stale: seq<nat>, i: nat)
    requires i < |pl.items| && ValidItem(pl.items[i]) && Sized(pl.items[i])
    requires
      || !SizedByOffsets(pl.items[i])
      || CalculateSize(pl.items[i], EnvOf(pl, Assign(pl, stale, |pl.items|).0)) == Reserved(pl, stale, i)
    ensures Meets(pl, stale, i)
  {
    hide Assign, RoundUp, CalculateSize, ItemBytes;
    var at, early := Assign(pl, stale, |pl.items|).0, Assign(pl, stale, i + 1).0;
    ItemSizeExactly(pl.items[i], First(pl.items, i), EnvOf(pl, at));
    if !SizedByOffsets(pl.items[i]) {
      SizeFixed(pl.items[i], EnvOf(pl, at), early);
    }
    AssignSteps(pl, stale, i);
  }

  /**
    Where the next item needs no alignment, they do: an item meets it exactly if it is sized the same by
    the offsets known when it was laid out as by the final ones.
   */
  lemma {:induction false} MeetsExactly(pl: Plan, stale: seq<nat>, i: nat)
    requires i < |pl.items| && ValidItem(pl.items[i]) && Sized(pl.items[i]) && AlignAt(pl.items, i + 1) == 1
    ensures Meets(pl, stale, i) <==>
      CalculateSize(pl.items[i], EnvOf(pl, Assign(pl, stale, |pl.items|).0)) == Reserved(pl, stale, i)
  {
    hide Assign, RoundUp, CalculateSize, ItemBytes;
    var at := Assign(pl, stale, |pl.items|).0;
    ItemSizeExactly(pl.items[i], First(pl.items, i), EnvOf(pl, at));
    AssignSteps(pl, stale, i);
    RoundUpOne(Offset(pl, stale, i) + |BytesOf(pl, at, i)|);
    RoundUpOne(Assign(pl, stale, i + 1).1);
  }

  /** Item i and the one after it meet by their sizes: under the final offsets and under those known before. */
  ghost predicate SizesMeet(pl: Plan, stale: seq<nat>, i: nat)
    requires i < |pl.items|
  {
    var e, p := EnvOf(pl, Assign(pl, stale, |pl.items|).0), Offset(pl, stale, i);
    RoundUp(p + CalculateSize(pl.items[i], e), AlignAt(pl.items, i + 1))
    == RoundUp(p + Reserved(pl, stale, i), AlignAt(pl.items, i + 1))
  }

  /** For items that write their sizes, the layout is right exactly if each one meets the next by these. */
  lemma {:induction false} LayoutBySizes(pl: Plan, stale: seq<nat>)
    requires |stale| == Count(pl) && AllSized(pl.items)
    ensures
      var (at, end) := Assign(pl, stale, |pl.items|);
      (forall i :: 0 <= i < |pl.items| ==> SizesMeet(pl, stale, i)) <==>
        LaidOut(pl, at, |pl.items|) && RoundUp(end, 4) == RoundUp(Position(pl, at, |pl.items|), 4)
  {
    hide Assign, RoundUp, Position, CalculateSize, LaidOut, ItemBytes, First;
    LayoutExactly(pl, stale);
    forall i | 0 <= i < |pl.items| ensures SizesMeet(pl, stale, i) <==> Meets(pl, stale, i) {
      ItemSizeExactly(pl.items[i], First(pl.items, i), EnvOf(pl, Assign(pl, stale, |pl.items|).0));
      AssignSteps(pl, stale, i);
    }
  }

  ghost predicate Fine(items: seq<FileItem>) {
    AllSized(items) && forall i :: 0 <= i < |items| ==> NamesEarlier(items[i], First(items, i))
  }

  /** If names come before the items that are sized by them, the offsets left behind do not matter. */
  lemma {:induction false} FineSettles(pl: Plan, stale: seq<nat>)
    requires |stale| == Count(pl) && Fine(pl.items)
    ensures Settled(pl, stale)
  {
    hide Assign, Meets, CalculateSize, First;
    forall i | 0 <= i < |pl.items| ensures Meets(pl, stale, i) {
      var at, early, o := Assign(pl, stale, |pl.items|).0, Assign(pl, stale, i + 1).0, First(pl.items, i);
      AssignKeeps(pl, stale, i, |pl.items|);
      AssignKeeps(pl, stale, i, i + 1);
      SizeDepends(pl.items[i], EnvOf(pl, early), at, o);
      MeetsUnless(pl, stale, i);
    }
  }

  // ---------- laying out again ----------

  lemma {:induction false} PutSame(items: seq<FileItem>, at: seq<nat>, i: nat, p: nat)
    requires i < |items| && First(items, i + 1) <= |at|
    ensures Put(at, First(items, i), Block(items[i], p)) == at <==> PlacedAt(items, at, i, p)
  {
    var o, b := First(items, i), Block(items[i], p);
    assert at == at[..o] + at[o..o + |b|] + at[o + |b|..];
    if Put(at, o, b) == at {
      PutKeeps(at, o, b);
    }
  }

  lemma {:induction false} StaysLaidOut(pl: Plan, at: seq<nat>, n: nat)
    requires |at| == Count(pl) && n <= |pl.items| && AllSized(pl.items) && LaidOut(pl, at, n)
    ensures Assign(pl, at, n) == (at, Position(pl, at, n))
  {
    hide Assign, Put, RoundUp, Position, CalculateSize, ItemBytes, Block, PlacedAt, First;
    AssignSteps(pl, at, 0);
    PositionSteps(pl, at, 0);
    if n > 0 {
      StaysLaidOut(pl, at, n - 1);
      AssignSteps(pl, at, n - 1);
      PositionSteps(pl, at, n - 1);
      AssignKeeps(pl, at, n, n);
      PutSame(pl.items, at, n - 1, Offset(pl, at, n - 1));
      ItemSizeExactly(pl.items[n - 1], First(pl.items, n - 1), EnvOf(pl, at));
    }
  }

  lemma {:induction false} UnchangedIsLaidOut(pl: Plan, at: seq<nat>, n: nat)
    requires |at| == Count(pl) && n <= |pl.items| && AllSized(pl.items) && Assign(pl, at, n).0 == at
    ensures LaidOut(pl, at, n) && Assign(pl, at, n).1 == Position(pl, at, n)
  {
    hide Assign, Put, RoundUp, Position, CalculateSize, ItemBytes, Block, PlacedAt, First;
    AssignSteps(pl, at, 0);
    PositionSteps(pl, at, 0);
    if n > 0 {
      var before, o := Assign(pl, at, n - 1).0, First(pl.items, n - 1);
      AssignKeeps(pl, at, n - 1, n);
      AssignKeeps(pl, at, n - 1, n - 1);
      assert before == before[..o] + before[o..] && at == at[..o] + at[o..];
      UnchangedIsLaidOut(pl, at, n - 1);
      Assigned(pl, at, n - 1, n);
      AssignSteps(pl, at, n - 1);
      PositionSteps(pl, at, n - 1);
      ItemSizeExactly(pl.items[n - 1], First(pl.items, n - 1), EnvOf(pl, at));
    }
  }

  /** A layout is right exactly if laying out once more would not change it. */
  lemma {:induction false} FixedPoint(pl: Plan, at: seq<nat>)
    requires |at| == Count(pl) && AllSized(pl.items)
    ensures Assign(pl, at, |pl.items|).0 == at <==> LaidOut(pl, at, |pl.items|)
  {
    hide Assign, LaidOut;
    if Assign(pl, at, |pl.items|).0 == at {
      UnchangedIsLaidOut(pl, at, |pl.items|);
    }
    if LaidOut(pl, at, |pl.items|) {
      StaysLaidOut(pl, at, |pl.items|);
    }
  }

  // ---------- offsets that stay ----------

  lemma {:induction false} FixedReserved(pl: Plan, stale: seq<nat>, i: nat)
    requires i < |pl.items| && !SizedByOffsets(pl.items[i])
    ensures Reserved(pl, stale, i) == CalculateSize(pl.items[i], EnvOf(pl, []))
  {
    hide CalculateSize, Assign;
    SizeFixed(pl.items[i], EnvOf(pl, []), Assign(pl, stale, i + 1).0);
  }

  /** The first n items of two plans have the same alignments and the same sizes, whatever the offsets are. */
  ghost predicate SameFront(pl: Plan, pl': Plan, n: nat) {
    && n <= |pl.items| && n <= |pl'.items| && pl'.base == pl.base
    && (forall i :: 0 <= i < n ==> FrontItem(pl, i) && FrontItem(pl', i))
    && (forall i :: 0 <= i < n ==> SameSize(pl, pl', i))
  }

  ghost predicate FrontItem(pl: Plan, i: nat) {
    i < |pl.items| && !SizedByOffsets(pl.items[i])
  }

  ghost predicate SameSize(pl: Plan, pl': Plan, i: nat)
    requires i < |pl.items| && i < |pl'.items|
  {
    && Alignment(pl'.items[i]) == Alignment(pl.items[i])
    && CalculateSize(pl'.items[i], EnvOf(pl', [])) == CalculateSize(pl.items[i], EnvOf(pl, []))
  }

  lemma {:induction false} SameEnds(pl: Plan, stale: seq<nat>, pl': Plan, stale': seq<nat>, n: nat)
    requires SameFront(pl, pl', n)
    ensures Assign(pl', stale', n).1 == Assign(pl, stale, n).1
  {
    hide CalculateSize, Assign, RoundUp, Alignment, SizedByOffsets;
    AssignSteps(pl, stale, 0);
    AssignSteps(pl', stale', 0);
    if n > 0 {
      SameEnds(pl, stale, pl', stale', n - 1);
      AssignSteps(pl, stale, n - 1);
      AssignSteps(pl', stale', n - 1);
      assert FrontItem(pl, n - 1) && FrontItem(pl', n - 1) && SameSize(pl, pl', n - 1);
      FixedReserved(pl, stale, n - 1);
      FixedReserved(pl', stale', n - 1);
    }
  }

  /**
    An item keeps its offset from one layout to the next, whatever else is created or dropped behind it,
    if the items up to it keep their sizes and none of them is sized by offsets.
   */
  lemma {:induction false} KeepsOffset(pl: Plan, stale: seq<nat>, pl': Plan, stale': seq<nat>, i: nat)
    requires SameFront(pl, pl', i + 1) && |stale| == Count(pl) && |stale'| == Count(pl')
    requires First(pl'.items, i) == First(pl.items, i)
    ensures ItemAt(pl', Assign(pl', stale', |pl'.items|).0, i) == ItemAt(pl, Assign(pl, stale, |pl.items|).0, i)
  {
    hide CalculateSize, Assign, RoundUp, Alignment, First, PlacedAt, SizedByOffsets;
    assert SameSize(pl, pl', i);
    SameEnds(pl, stale, pl', stale', i);
    Assigned(pl, stale, i, |pl.items|);
    Assigned(pl', stale', i, |pl'.items|);
    PlacedFirst(pl.items, Assign(pl, stale, |pl.items|).0, i, Offset(pl, stale, i));
    PlacedFirst(pl'.items, Assign(pl', stale', |pl'.items|).0, i, Offset(pl', stale', i));
  }

  lemma {:induction false} SmallSize(v: nat)
    ensures v < 128 ==> UnsignedEncodingSize(v) == 1
    ensures 128 <= v < 16384 ==> UnsignedEncodingSize(v) == 2
  {
    hide UnsignedEncodingSize;
    UlebSize(v);
    if 128 <= v < 16384 {
      assert Uleb(v) == [v % 128 + 128] + Uleb(v / 128);
    }
  }

  lemma {:induction false} PlacedFirst(items: seq<FileItem>, at: seq<nat>, i: nat, p: nat)
    requires i < |items|
    ensures PlacedAt(items, at, i, p) ==> First(items, i) < |at| && at[First(items, i)] == p
  {
    if PlacedAt(items, at, i, p) {
      assert at[First(items, i)..First(items, i + 1)][0] == Block(items[i], p)[0];
    }
  }

  // ---------- writing ----------

  /** Zeros up to the next aligned position. */
  method Align(data: seq<byte>, alignment: nat) returns (r: seq<byte>)
    requires alignment > 0
    ensures |r| == RoundUp(|data|, alignment) && r[..|data|] == data
    ensures forall k :: |data| <= k < |r| ==> r[k] == 0
  {
    hide RoundUp;
    r := data;
    var n := RoundUp(|data|, alignment) - |data|;
    while n > 0
      invariant n >= 0 && |r| + n == RoundUp(|data|, alignment) && |data| <= |r|
      invariant r[..|data|] == data && forall k :: |data| <= k < |r| ==> r[k] == 0
    {
      r := r + [0];
      n := n - 1;
    }
  }

  lemma {:induction false} StillLies(data: seq<byte>, more: seq<byte>, p: nat, s: seq<byte>)
    requires Lies(data, p, s) && |data| <= |more| && more[..|data|] == data
    ensures Lies(more, p, s)
  {
    assert more[p..p + |s|] == more[..|data|][p..p + |s|];
  }

  lemma {:induction false} LiesAtEnd(data: seq<byte>, s: seq<byte>)
    ensures Lies(data + s, |data|, s)
  {
  }

  /** Items are written one after the other, each aligned; nothing written before is disturbed. */
  method WriteItems(start: seq<byte>, pl: Plan, at: seq<nat>) returns (data: seq<byte>)
    requires |start| == pl.base
    ensures |data| == Position(pl, at, |pl.items|)
    ensures |start| <= |data| && data[..|start|] == start
    ensures forall i :: 0 <= i < |pl.items| ==>
      Lies(data, RoundUp(Position(pl, at, i), Alignment(pl.items[i])), BytesOf(pl, at, i))
  {
    hide RoundUp, Position, ItemBytes, Lies, Alignment;
    data := start;
    PositionSteps(pl, at, 0);
    var o := 0;
    for i := 0 to |pl.items|
      invariant |data| == Position(pl, at, i) && o == First(pl.items, i)
      invariant |start| <= |data| && data[..|start|] == start
      invariant forall j :: 0 <= j < i ==>
        Lies(data, RoundUp(Position(pl, at, j), Alignment(pl.items[j])), BytesOf(pl, at, j))
    {
      var aligned := Align(data, Alignment(pl.items[i]));
      var bytes := ItemBytes(pl.items[i], o, EnvOf(pl, at));
      PositionSteps(pl, at, i);
      ghost var before := data;
      data := aligned + bytes;
      o := o + 1 + MembersOf(pl.items[i]);
      assert data[..|before|] == aligned[..|before|];
      assert data[..|start|] == before[..|start|];
      forall j | 0 <= j < i
        ensures Lies(data, RoundUp(Position(pl, at, j), Alignment(pl.items[j])), BytesOf(pl, at, j))
      {
        StillLies(before, data, RoundUp(Position(pl, at, j), Alignment(pl.items[j])), BytesOf(pl, at, j));
      }
      LiesAtEnd(aligned, bytes);
    }
  }

  /** The offset of item i. */
  function ItemAt(pl: Plan, at: seq<nat>, i: nat): nat
    requires i < |pl.items|
  {
    Where(at, 1 + First(pl.items, i))
  }

  lemma {:induction false} PlacedItem(items: seq<FileItem>, at: seq<nat>, i: nat, p: nat, k: nat)
    requires i < |items| && PlacedAt(items, at, i, p) && k <= MembersOf(items[i])
    ensures First(items, i) + k < First(items, i + 1) <= |at| && at[First(items, i) + k] == EntityOffset(items[i], p, k)
  {
    hide EntityOffset;
    assert at[First(items, i)..First(items, i + 1)][k] == Block(items[i], p)[k];
  }

  /** Items are aligned and do not overlap: each one ends before the next begins. */
  lemma {:induction false} Apart(pl: Plan, at: seq<nat>, i: nat, j: nat)
    requires |at| == Count(pl) && LaidOut(pl, at, |pl.items|) && i < j <= |pl.items|
    ensures ItemAt(pl, at, i) == RoundUp(Position(pl, at, i), Alignment(pl.items[i]))
    ensures ItemAt(pl, at, i) % Alignment(pl.items[i]) == 0 && pl.base <= ItemAt(pl, at, i)
    ensures ItemAt(pl, at, i) + |BytesOf(pl, at, i)| <= Position(pl, at, j)
    ensures j < |pl.items| ==> ItemAt(pl, at, i) + |BytesOf(pl, at, i)| <= ItemAt(pl, at, j)
  {
    hide ItemBytes, Position, First, PlacedAt, Alignment;
    PositionSteps(pl, at, j - 1);
    PositionSteps(pl, at, i);
    ItemIsAt(pl, at, i);
    if i < j - 1 {
      Apart(pl, at, i, j - 1);
    }
    if j < |pl.items| {
      ItemIsAt(pl, at, j);
    }
    PositionFromBase(pl, at, i);
  }

  lemma {:induction false} ItemIsAt(pl: Plan, at: seq<nat>, i: nat)
    requires LaidOut(pl, at, |pl.items|) && i < |pl.items|
    ensures ItemAt(pl, at, i) == RoundUp(Position(pl, at, i), Alignment(pl.items[i]))
  {
    hide RoundUp, Position, First, PlacedAt, Alignment;
    PlacedItem(pl.items, at, i, RoundUp(Position(pl, at, i), Alignment(pl.items[i])), 0);
  }

  lemma {:induction false} PositionFromBase(pl: Plan, at: seq<nat>, i: nat)
    requires i <= |pl.items|
    ensures pl.base <= Position(pl, at, i)
  {
    hide BytesOf, Position;
    PositionSteps(pl, at, i);
    if i > 0 {
      PositionFromBase(pl, at, i - 1);
      PositionSteps(pl, at, i - 1);
    }
  }
}
