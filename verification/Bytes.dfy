/** Bytes and little-endian integers, as the emitter and the file writer lay them out. */
module Bytes {

  type byte = x: int | 0 <= x < 256

  /** The number of values an n-byte unsigned integer can take. */
  function Base(n: nat): (p: nat)
    ensures p >= 1
  {
    if n == 0 then 1 else 256 * Base(n - 1)
  }

  function Le(v: nat, n: nat): (s: seq<byte>)
    ensures |s| == n
  {
    if n == 0 then [] else [v % 256] + Le(v / 256, n - 1)
  }

  function FromLe(s: seq<byte>): (v: nat)
    ensures v < Base(|s|)
  {
    if s == [] then 0 else s[0] + 256 * FromLe(s[1..])
  }

  /** The n low bytes of x in two's complement. */
  function EncodeInt(x: int, n: nat): (s: seq<byte>)
    ensures |s| == n
  {
    Le(x % Base(n), n)
  }

  /** Sign extension of an n-byte field. */
  function DecodeInt(s: seq<byte>): (x: int)
  {
    var v := FromLe(s);
    if 2 * v >= Base(|s|) then v - Base(|s|) else v
  }

  predicate FitsSigned(x: int, n: nat) {
    0 <= 2 * x + Base(n) && 2 * x < Base(n)
  }

  lemma {:induction false} LeRoundTrip(v: nat, n: nat)
    requires v < Base(n)
    ensures FromLe(Le(v, n)) == v
  {
    if n > 0 {
      LeRoundTrip(v / 256, n - 1);
      assert Le(v, n)[1..] == Le(v / 256, n - 1);
    }
  }

  lemma {:induction false} FromLeRoundTrip(s: seq<byte>)
    ensures Le(FromLe(s), |s|) == s
  {
    if s != [] {
      var v := FromLe(s[1..]);
      FromLeRoundTrip(s[1..]);
      ModUnique(s[0] + 256 * v, 256, v, s[0]);
      assert [s[0]] + s[1..] == s;
    }
  }

  lemma {:induction false} ModOnce(x: int, b: nat)
    requires 0 <= x + b && x < b && b > 0
    ensures x % b == if x < 0 then x + b else x
  {
    if x < 0 {
      ModUnique(x, b, -1, x + b);
    } else {
      ModUnique(x, b, 0, x);
    }
  }

  lemma {:induction false} ModUnique(x: int, b: nat, q: int, r: int)
    requires b > 0 && 0 <= r < b && x == b * q + r
    ensures x % b == r && x / b == q
  {
    var d := x / b - q;
    assert x == b * (x / b) + x % b;
    assert b * d == r - x % b by {
      assert b * d == b * (x / b) - b * q;
    }
    MultipleIsFar(b, d);
  }

  lemma {:induction false} MultipleIsFar(b: nat, d: int)
    ensures d >= 1 ==> b * d >= b
    ensures d <= -1 ==> b * d + b <= 0
  {
    assert b * (d - 1) == b * d - b;
    assert b * (d + 1) == b * d + b;
  }

  /** A field holds exactly the offsets of its width: anything else is truncated to another value. */
  lemma {:induction false} IntRoundTrip(x: int, n: nat)
    ensures DecodeInt(EncodeInt(x, n)) == x <==> FitsSigned(x, n)
  {
    var b := Base(n);
    var v := x % b;
    LeRoundTrip(v, n);
    assert DecodeInt(EncodeInt(x, n)) == if 2 * v >= b then v - b else v;
    if FitsSigned(x, n) {
      ModOnce(x, b);
    }
  }

  function ZeroBytes(n: nat): (s: seq<byte>)
    ensures |s| == n && forall i :: 0 <= i < n ==> s[i] == 0
  {
    seq(n, _ => 0)
  }

  lemma {:induction false} EncodeZero(n: nat)
    ensures EncodeInt(0, n) == ZeroBytes(n)
  {
    if n > 0 {
      EncodeZero(n - 1);
      ModOnce(0, Base(n));
      ModOnce(0, Base(n - 1));
      assert EncodeInt(0, n) == [0] + Le(0, n - 1);
    }
  }
}
