/** Bytes and their little- and big-endian readings. */
module Bytes {
  import opened Common

  type byte = x: int | 0 <= x < 256

  function Pow256(w: nat): (p: nat)
    ensures p >= 1
  {
    if w == 0 then 1 else 256 * Pow256(w - 1)
  }

  /** The low w bytes of n, least significant first; a negative n as in two's complement. */
  function ToLE(n: int, w: nat): (r: seq<byte>)
    ensures |r| == w
    decreases w
  {
    if w == 0 then [] else [n % 256] + ToLE(n / 256, w - 1)
  }

  function FromLE(bs: seq<byte>): nat {
    if bs == [] then 0 else bs[0] + 256 * FromLE(bs[1..])
  }

  function ToBE(n: int, w: nat): (r: seq<byte>)
    ensures |r| == w
    decreases w
  {
    if w == 0 then [] else ToBE(n / 256, w - 1) + [n % 256]
  }

  function FromBE(bs: seq<byte>): nat {
    if bs == [] then 0 else FromBE(bs[..|bs| - 1]) * 256 + bs[|bs| - 1]
  }

  lemma {:induction false} MulAtLeast(m: nat, d: nat)
    requires d >= 1
    ensures m * d >= m
    decreases d
  {
    if d > 1 {
      MulAtLeast(m, d - 1);
      assert m * d == m * (d - 1) + m;
    }
  }

  lemma ModUnique(n: int, m: nat, a: int, b: nat)
    requires m > 0 && n == m * a + b && b < m
    ensures n % m == b
  {
    var q, r := n / m, n % m;
    assert n == m * q + r;
    if q > a {
      assert m * (q - a) == m * q - m * a;
      MulAtLeast(m, q - a);
    } else if q < a {
      assert m * (a - q) == m * a - m * q;
      MulAtLeast(m, a - q);
    }
  }

  /** Reducing modulo 256 * p splits off the last byte. */
  lemma ModSplit(n: int, p: nat)
    requires p > 0
    ensures n % (256 * p) == n % 256 + 256 * ((n / 256) % p)
  {
    var r, q := n % 256, n / 256;
    var a, b := q / p, q % p;
    assert n == 256 * q + r && q == p * a + b;
    assert n == (256 * p) * a + (256 * b + r) by {
      assert 256 * (p * a) == (256 * p) * a;
    }
    ModUnique(n, 256 * p, a, 256 * b + r);
  }

  lemma {:induction false} FromToLE(n: int, w: nat)
    ensures FromLE(ToLE(n, w)) == n % Pow256(w)
    decreases w
  {
    if w > 0 {
      var r := ToLE(n, w);
      assert r[1..] == ToLE(n / 256, w - 1);
      FromToLE(n / 256, w - 1);
      ModSplit(n, Pow256(w - 1));
    }
  }

  lemma {:induction false} ToFromLE(bs: seq<byte>)
    ensures ToLE(FromLE(bs), |bs|) == bs && FromLE(bs) < Pow256(|bs|)
    decreases |bs|
  {
    if bs != [] {
      ToFromLE(bs[1..]);
      assert FromLE(bs) % 256 == bs[0] && FromLE(bs) / 256 == FromLE(bs[1..]);
    }
  }

  lemma {:induction false} FromToBE(n: int, w: nat)
    ensures FromBE(ToBE(n, w)) == n % Pow256(w)
    decreases w
  {
    if w > 0 {
      var r := ToBE(n, w);
      assert r[..|r| - 1] == ToBE(n / 256, w - 1);
      FromToBE(n / 256, w - 1);
      ModSplit(n, Pow256(w - 1));
    }
  }

  lemma {:induction false} FromBEBound(bs: seq<byte>)
    ensures FromBE(bs) < Pow256(|bs|)
    decreases |bs|
  {
    if bs != [] { FromBEBound(bs[..|bs| - 1]); }
  }

  lemma {:induction false} PowGrows(v: nat, w: nat)
    requires v <= w
    ensures Pow256(v) <= Pow256(w)
    decreases w
  {
    if v < w { PowGrows(v, w - 1); }
  }

  /** A number is read back from its bytes exactly when it fits. */
  lemma RoundTripIff(n: int, w: nat)
    ensures FromLE(ToLE(n, w)) == n <==> 0 <= n < Pow256(w)
    ensures FromBE(ToBE(n, w)) == n <==> 0 <= n < Pow256(w)
  {
    FromToLE(n, w);
    FromToBE(n, w);
    if 0 <= n < Pow256(w) { ModUnique(n, Pow256(w), 0, n); }
  }
}
