/** Fixed-width machine integers and the little-endian reading of a run of bytes. */
module Bytes {

  type byte = x: int | 0 <= x < 0x100
  type uint16 = x: int | 0 <= x < 0x1_0000
  type uint32 = x: int | 0 <= x < 0x1_0000_0000

  /** 2^64: one more than the largest `uint64_t`. */
  const Uint64Limit: nat := 0x1_0000_0000_0000_0000

  function Pow256(n: nat): (p: nat)
    ensures p >= 1
  {
    if n == 0 then 1 else 256 * Pow256(n - 1)
  }

  lemma Pow256Of8()
    ensures Pow256(8) == Uint64Limit
  {
  }

  /** The unsigned value of `bs`, least significant byte first. */
  function DecodeLE(bs: seq<byte>): (v: nat)
    ensures v < Pow256(|bs|)
  {
    if bs == [] then 0 else bs[0] + 256 * DecodeLE(bs[1..])
  }

  /** The `n` bytes that hold `v`, least significant byte first. */
  function EncodeLE(v: nat, n: nat): (bs: seq<byte>)
    requires v < Pow256(n)
    ensures |bs| == n
    ensures DecodeLE(bs) == v
  {
    if n == 0 then [] else [v % 256] + EncodeLE(v / 256, n - 1)
  }

  /** Reading bytes and writing the value back gives the same bytes. */
  lemma {:induction false} EncodeDecodeLE(bs: seq<byte>)
    ensures EncodeLE(DecodeLE(bs), |bs|) == bs
  {
    if bs != [] {
      var rest := DecodeLE(bs[1..]);
      assert (bs[0] + 256 * rest) % 256 == bs[0];
      assert (bs[0] + 256 * rest) / 256 == rest;
      EncodeDecodeLE(bs[1..]);
    }
  }

  /** Two byte runs of one length with the same value are the same bytes. */
  lemma DecodeLEInjective(a: seq<byte>, b: seq<byte>)
    requires |a| == |b| && DecodeLE(a) == DecodeLE(b)
    ensures a == b
  {
    EncodeDecodeLE(a);
    EncodeDecodeLE(b);
  }
}
