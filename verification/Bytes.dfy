/** Powers, and big-endian byte strings of a fixed length. */
module Bytes {
  type Byte = b: nat | b < 256

  function Pow(base: nat, e: nat): (r: nat)
    ensures base >= 1 ==> r >= 1
  {
    if e == 0 then 1 else base * Pow(base, e - 1)
  }

  /** The `len` low bytes of `n`, most significant first. */
  function BigEndian(n: nat, len: nat): (r: seq<Byte>)
    ensures |r| == len
  {
    if len == 0 then [] else BigEndian(n / 256, len - 1) + [n % 256]
  }

  function FromBigEndian(s: seq<Byte>): nat {
    if s == [] then 0 else 256 * FromBigEndian(s[..|s| - 1]) + s[|s| - 1]
  }

  lemma FitsShorter(n: nat, bound: nat)
    requires n < 256 * bound
    ensures n / 256 < bound
  {
  }

  lemma {:induction false} BigEndianRoundTrip(n: nat, len: nat)
    requires n < Pow(256, len)
    ensures FromBigEndian(BigEndian(n, len)) == n
  {
    if len > 0 {
      var r := BigEndian(n, len);
      assert r[..len - 1] == BigEndian(n / 256, len - 1) && r[len - 1] == n % 256;
      assert FromBigEndian(r) == 256 * FromBigEndian(r[..len - 1]) + r[len - 1];
      FitsShorter(n, Pow(256, len - 1));
      BigEndianRoundTrip(n / 256, len - 1);
    }
  }

  function Zeros(len: nat): (r: seq<Byte>)
    ensures |r| == len && forall i | 0 <= i < len :: r[i] == 0
  {
    seq(len, _ => 0)
  }
}
