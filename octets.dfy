/** Bytes, unsigned 64-bit integers and the big-endian conversion between
    them (`u64::from_be_bytes` / `u64::to_be_bytes` of Rust's core library). */
module Octets {

  newtype byte = x: int | 0 <= x < 256

  newtype u64 = x: int | 0 <= x < 0x1_0000_0000_0000_0000

  type Bytes = seq<byte>

  /** 256 to the power n: the number of distinct n-byte strings. */
  function Pow256(n: nat): (r: nat)
    ensures r > 0
  {
    if n == 0 then 1 else 256 * Pow256(n - 1)
  }

  lemma Pow256Of8()
    ensures Pow256(8) == 0x1_0000_0000_0000_0000
  {
  }

  /** The value of `s` read as a big-endian unsigned number: `s[0]` is the
      most significant byte. */
  function FromBeBytes(s: Bytes): (r: nat)
    ensures r < Pow256(|s|)
  {
    if s == [] then 0
    else
      var high := FromBeBytes(s[..|s| - 1]);
      assert high <= Pow256(|s| - 1) - 1;
      assert high * 256 <= Pow256(|s|) - 256;
      high * 256 + s[|s| - 1] as int
  }

  /** The n-byte big-endian representation of `v`. */
  function ToBeBytes(v: nat, n: nat): (r: Bytes)
    requires v < Pow256(n)
    ensures |r| == n
  {
    if n == 0 then []
    else
      assert v / 256 < Pow256(n - 1);
      ToBeBytes(v / 256, n - 1) + [(v % 256) as byte]
  }

  /** Decoding an encoding gives back the number. */
  lemma {:induction false} FromBeBytesOfToBeBytes(v: nat, n: nat)
    requires v < Pow256(n)
    ensures FromBeBytes(ToBeBytes(v, n)) == v
  {
    if n > 0 {
      var s := ToBeBytes(v, n);
      assert v / 256 < Pow256(n - 1);
      assert s[..n - 1] == ToBeBytes(v / 256, n - 1);
      FromBeBytesOfToBeBytes(v / 256, n - 1);
      assert FromBeBytes(s) == (v / 256) * 256 + v % 256;
    }
  }

  /** Encoding a decoded string at its own length gives back the string:
      together with the lemma above, the conversion is a bijection between
      n-byte strings and the numbers below 256^n. */
  lemma {:induction false} ToBeBytesOfFromBeBytes(s: Bytes)
    ensures ToBeBytes(FromBeBytes(s), |s|) == s
  {
    if s != [] {
      var n := |s|;
      var high := FromBeBytes(s[..n - 1]);
      var v := FromBeBytes(s);
      assert v == high * 256 + s[n - 1] as int;
      assert v / 256 == high && v % 256 == s[n - 1] as int;
      ToBeBytesOfFromBeBytes(s[..n - 1]);
      assert s == s[..n - 1] + [s[n - 1]];
    }
  }

  /** `u64::from_be_bytes` on an 8-byte array. */
  function U64FromBeBytes(s: Bytes): (r: u64)
    requires |s| == 8
    ensures r as int == FromBeBytes(s)
  {
    Pow256Of8();
    FromBeBytes(s) as u64
  }

  /** `u64::to_be_bytes`. */
  function U64ToBeBytes(v: u64): (r: Bytes)
    ensures |r| == 8
    ensures U64FromBeBytes(r) == v
  {
    Pow256Of8();
    FromBeBytesOfToBeBytes(v as int, 8);
    ToBeBytes(v as int, 8)
  }

  /** Every 8-byte string is the encoding of the number it decodes to. */
  lemma U64ToBeBytesOfFromBeBytes(s: Bytes)
    requires |s| == 8
    ensures U64ToBeBytes(U64FromBeBytes(s)) == s
  {
    ToBeBytesOfFromBeBytes(s);
  }
}
