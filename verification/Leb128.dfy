/** LEB128, the variable-length integers of section 7.6 of DWARF Version 5. */
module Leb128 {
  import opened Bytes

  function Uleb(v: nat): (s: seq<byte>)
    ensures |s| > 0
  {
    if v < 128 then [v] else [v % 128 + 128] + Uleb(v / 128)
  }

  /** Value and length of the unsigned number at the front of s. */
  function ReadUleb(s: seq<byte>): (r: (nat, nat))
    ensures r.1 <= |s|
  {
    if s == [] then (0, 0)
    else if s[0] < 128 then (s[0], 1)
    else
      var (v, n) := ReadUleb(s[1..]);
      (s[0] - 128 + 128 * v, n + 1)
  }

  lemma {:induction false} UlebRoundTrip(v: nat, rest: seq<byte>)
    ensures ReadUleb(Uleb(v) + rest) == (v, |Uleb(v)|)
  {
    var s := Uleb(v) + rest;
    if v >= 128 {
      UlebRoundTrip(v / 128, rest);
      assert s[1..] == Uleb(v / 128) + rest;
    }
  }

  /** Encodings are prefix-free, so equal streams hold equal numbers. */
  lemma {:induction false} UlebInjective(v: nat, w: nat, a: seq<byte>, b: seq<byte>)
    requires Uleb(v) + a == Uleb(w) + b
    ensures v == w && a == b
  {
    UlebRoundTrip(v, a);
    UlebRoundTrip(w, b);
    assert a == (Uleb(v) + a)[|Uleb(v)|..];
    assert b == (Uleb(w) + b)[|Uleb(w)|..];
  }

  /** Arithmetic right shift by 7 is floor division. */
  function Sleb(v: int): (s: seq<byte>)
    ensures |s| > 0
    decreases if v < 0 then -v else v
  {
    var b, q := v % 128, v / 128;
    if (q == 0 && b < 64) || (q == -1 && b >= 64) then [b] else [b + 128] + Sleb(q)
  }

  function ReadSleb(s: seq<byte>): (r: (int, nat))
    ensures r.1 <= |s|
  {
    if s == [] then (0, 0)
    else if s[0] < 64 then (s[0], 1)
    else if s[0] < 128 then (s[0] as int - 128, 1)
    else
      var (v, n) := ReadSleb(s[1..]);
      (s[0] - 128 + 128 * v, n + 1)
  }

  lemma {:induction false} SlebRoundTrip(v: int, rest: seq<byte>)
    ensures ReadSleb(Sleb(v) + rest) == (v, |Sleb(v)|)
    decreases if v < 0 then -v else v
  {
    var b, q, s := v % 128, v / 128, Sleb(v) + rest;
    if !((q == 0 && b < 64) || (q == -1 && b >= 64)) {
      SlebRoundTrip(q, rest);
      assert s[1..] == Sleb(q) + rest;
    }
  }

  // ---------- encoded sizes ----------

  /** The number of bits up to the highest one set. */
  function MinimumBitsToStore(v: nat): nat {
    if v == 0 then 0 else 1 + MinimumBitsToStore(v / 2)
  }

  function UnsignedEncodingSize(v: nat): nat {
    (MinimumBitsToStore(if v == 0 then 1 else v) + 6) / 7
  }

  /** Of a negative number the complement is measured. */
  function SignedEncodingSize(v: int): nat {
    var u := if v < 0 then -v - 1 else v;
    MinimumBitsToStore(if u == 0 then 1 else u) / 7 + 1
  }

  lemma {:induction false} BitsOfShift(v: nat)
    requires v >= 128
    ensures MinimumBitsToStore(v) == 7 + MinimumBitsToStore(v / 128)
  {
    assert v / 2 / 2 / 2 / 2 / 2 / 2 / 2 == v / 128;
    var a := v / 2; var b := a / 2; var c := b / 2; var d := c / 2; var e := d / 2; var f := e / 2;
    assert MinimumBitsToStore(v) == 1 + MinimumBitsToStore(a) == 2 + MinimumBitsToStore(b) == 3 + MinimumBitsToStore(c);
    assert MinimumBitsToStore(c) == 1 + MinimumBitsToStore(d) == 2 + MinimumBitsToStore(e) == 3 + MinimumBitsToStore(f);
  }

  lemma {:induction false} BitsBelow(v: nat, k: nat)
    requires 0 < v
    ensures MinimumBitsToStore(v) <= k <==> v < Power2(k)
    decreases k
  {
    if k > 0 {
      if v / 2 > 0 {
        BitsBelow(v / 2, k - 1);
      } else {
        PowerPositive(k - 1);
      }
    }
  }

  function Power2(k: nat): nat {
    if k == 0 then 1 else 2 * Power2(k - 1)
  }

  lemma {:induction false} PowerPositive(k: nat)
    ensures Power2(k) >= 1
  {
    if k > 0 {
      PowerPositive(k - 1);
    }
  }

  /** The size computed from the bit length is the length of the encoding. */
  lemma {:induction false} UlebSize(v: nat)
    ensures |Uleb(v)| == UnsignedEncodingSize(v)
  {
    if v >= 128 {
      UlebSize(v / 128);
      BitsOfShift(v);
    } else if v > 0 {
      BitsBelow(v, 7);
      assert Power2(7) == 128;
    }
  }

  lemma {:induction false} SlebSize(v: int)
    ensures |Sleb(v)| == SignedEncodingSize(v)
    decreases if v < 0 then -v else v
  {
    var b, q := v % 128, v / 128;
    var u := if v < 0 then -v - 1 else v;
    var uq := if q < 0 then -q - 1 else q;
    assert uq == u / 128;
    if u < 64 {
      BitsBelow(if u == 0 then 1 else u, 6);
      assert Power2(6) == 64;
    } else if u < 128 {
      BitsBelow(u, 6);
      BitsBelow(u, 7);
      assert Power2(6) == 64 && Power2(7) == 128;
      assert Sleb(v) == [b + 128] + Sleb(q);
      assert |Sleb(q)| == 1;
    } else {
      SlebSize(q);
      BitsOfShift(u);
    }
  }
}
