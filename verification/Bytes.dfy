/** Byte order: network order is big-endian, the host is little-endian. */
module Bytes {
  type Byte = x: int | 0 <= x < 256

  function Pow256(n: nat): (p: nat)
    ensures p > 0
  {
    if n == 0 then 1 else 256 * Pow256(n - 1)
  }

  /** The low `n` bytes of `v`, most significant first: what `hton` leaves in memory. */
  function BE(v: nat, n: nat): (s: seq<Byte>)
    ensures |s| == n
  {
    if n == 0 then [] else BE(v / 256, n - 1) + [v % 256]
  }

  function FromBE(s: seq<Byte>): nat {
    if s == [] then 0 else 256 * FromBE(s[..|s| - 1]) + s[|s| - 1]
  }

  /** What a load of these bytes yields on the host. */
  function FromLE(s: seq<Byte>): nat {
    if s == [] then 0 else 256 * FromLE(s[1..]) + s[0]
  }

  function LE(v: nat, n: nat): (s: seq<Byte>)
    ensures |s| == n
  {
    if n == 0 then [] else [v % 256] + LE(v / 256, n - 1)
  }

  lemma {:induction false} BERound(v: nat, n: nat)
    requires v < Pow256(n)
    ensures FromBE(BE(v, n)) == v
  {
    if n > 0 {
      var s := BE(v, n);
      assert s[..|s| - 1] == BE(v / 256, n - 1);
      BERound(v / 256, n - 1);
    }
  }

  lemma {:induction false} BEOnto(s: seq<Byte>)
    ensures FromBE(s) < Pow256(|s|) && BE(FromBE(s), |s|) == s
  {
    if s != [] {
      var t := s[..|s| - 1];
      BEOnto(t);
      assert FromBE(s) / 256 == FromBE(t) && FromBE(s) % 256 == s[|s| - 1];
      assert s == t + [s[|s| - 1]];
    }
  }

  lemma {:induction false} LERound(v: nat, n: nat)
    requires v < Pow256(n)
    ensures FromLE(LE(v, n)) == v
  {
    if n > 0 {
      assert LE(v, n)[1..] == LE(v / 256, n - 1);
      LERound(v / 256, n - 1);
    }
  }

  lemma {:induction false} LEOnto(s: seq<Byte>)
    ensures FromLE(s) < Pow256(|s|) && LE(FromLE(s), |s|) == s
  {
    if s != [] {
      LEOnto(s[1..]);
      assert FromLE(s) / 256 == FromLE(s[1..]) && FromLE(s) % 256 == s[0];
      assert s == [s[0]] + s[1..];
    }
  }

  /** Eight bytes stored in network order and loaded without conversion. */
  function Swap64(v: nat): nat { FromLE(BE(v, 8)) }

  /** Nothing is lost: converting the raw value as `ntohll` does gives the value back. */
  lemma SwapTwice(v: nat)
    requires v < Pow256(8)
    ensures Swap64(v) < Pow256(8) && FromBE(LE(Swap64(v), 8)) == v
  {
    LEOnto(BE(v, 8));
    BERound(v, 8);
  }
}
