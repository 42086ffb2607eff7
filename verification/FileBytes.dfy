/** Reading a file image at a position, and what was written there. */
module FileBytes {
  import opened Bytes
  import opened Leb128

  /** The bytes s are in the file at p. */
  ghost predicate Lies(file: seq<byte>, p: nat, s: seq<byte>) {
    p + |s| <= |file| && file[p..p + |s|] == s
  }

  lemma {:induction false} SliceOfSlice(s: seq<byte>, a: nat, b: nat, c: nat, d: nat)
    requires a <= b <= |s| && c <= d <= b - a
    ensures s[a..b][c..d] == s[a + c..a + d]
  {
    assert |s[a..b][c..d]| == d - c;
    forall i | 0 <= i < d - c
      ensures s[a..b][c..d][i] == s[a + c..a + d][i]
    {}
  }

  lemma {:induction false} LiesSplit(file: seq<byte>, p: nat, a: seq<byte>, b: seq<byte>)
    ensures Lies(file, p, a + b) <==> Lies(file, p, a) && Lies(file, p + |a|, b)
  {
    if p + |a + b| <= |file| {
      assert file[p..p + |a + b|] == file[p..p + |a|] + file[p + |a|..p + |a| + |b|];
      if file[p..p + |a + b|] == a + b {
        assert a == (a + b)[..|a|] && b == (a + b)[|a|..];
      }
    }
  }

  lemma {:induction false} LiesByte(file: seq<byte>, p: nat, s: seq<byte>)
    requires Lies(file, p, s) && s != []
    ensures p < |file| && file[p] == s[0]
  {
    assert file[p..p + |s|][0] == s[0];
  }

  function ReadLe(file: seq<byte>, p: nat, n: nat): nat {
    if p + n <= |file| then FromLe(file[p..p + n]) else 0
  }

  lemma {:induction false} ReadLeBack(file: seq<byte>, p: nat, v: nat, n: nat)
    requires Lies(file, p, Le(v, n)) && v < Base(n)
    ensures ReadLe(file, p, n) == v
  {
    LeRoundTrip(v, n);
  }

  /** Value of the number at p, and the position after it. */
  function ReadUlebAt(file: seq<byte>, p: nat): (nat, nat) {
    if p <= |file| then var (v, n) := ReadUleb(file[p..]); (v, p + n) else (0, p)
  }

  function ReadSlebAt(file: seq<byte>, p: nat): (int, nat) {
    if p <= |file| then var (v, n) := ReadSleb(file[p..]); (v, p + n) else (0, p)
  }

  lemma {:induction false} ReadUlebBack(file: seq<byte>, p: nat, v: nat)
    requires Lies(file, p, Uleb(v))
    ensures ReadUlebAt(file, p) == (v, p + |Uleb(v)|)
  {
    assert file[p..] == Uleb(v) + file[p + |Uleb(v)|..];
    UlebRoundTrip(v, file[p + |Uleb(v)|..]);
  }

  lemma {:induction false} ReadSlebBack(file: seq<byte>, p: nat, v: int)
    requires Lies(file, p, Sleb(v))
    ensures ReadSlebAt(file, p) == (v, p + |Sleb(v)|)
  {
    assert file[p..] == Sleb(v) + file[p + |Sleb(v)|..];
    SlebRoundTrip(v, file[p + |Sleb(v)|..]);
  }
}
