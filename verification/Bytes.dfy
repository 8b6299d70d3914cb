/** Octets, and the big-endian fields the codec writes with them. */
module Bytes {
  type byte = x: int | 0 <= x < 256

  const TWO32 := 0x1_0000_0000

  function Pow256(k: nat): (p: nat)
    ensures p > 0
  {
    if k == 0 then 1 else 256 * Pow256(k - 1)
  }

  function BigEndian(n: nat, k: nat): (s: seq<byte>)
    ensures |s| == k
  {
    if k == 0 then [] else BigEndian(n / 256, k - 1) + [n % 256]
  }

  function FromBigEndian(s: seq<byte>): nat {
    if s == [] then 0 else 256 * FromBigEndian(s[..|s| - 1]) + s[|s| - 1]
  }

  lemma {:induction false} BigEndianRoundTrip(n: nat, k: nat)
    requires n < Pow256(k)
    ensures FromBigEndian(BigEndian(n, k)) == n
    decreases k
  {
    if k > 0 {
      var s := BigEndian(n, k);
      assert s[..|s| - 1] == BigEndian(n / 256, k - 1);
      BigEndianRoundTrip(n / 256, k - 1);
    }
  }

  lemma FromBigEndianSnoc(s: seq<byte>, b: byte)
    ensures FromBigEndian(s + [b]) == 256 * FromBigEndian(s) + b
  {
    assert (s + [b])[..|s|] == s;
  }

  lemma Widths()
    ensures Pow256(4) == TWO32 && Pow256(8) == TWO32 * TWO32
  {
    assert Pow256(4) == 256 * Pow256(3) && Pow256(3) == 256 * Pow256(2) && Pow256(2) == 256 * Pow256(1);
    assert Pow256(8) == 256 * Pow256(7) && Pow256(7) == 256 * Pow256(6) && Pow256(6) == 256 * Pow256(5);
    assert Pow256(5) == 256 * Pow256(4);
  }
}
