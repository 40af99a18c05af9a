/** Octets, and the little-endian 32-bit length of a frame header. */
module Bytes {

  type byte = b: int | 0 <= b < 256

  const LIMIT_32: int := 0x1_0000_0000

  /** The four octets of the length, the lowest first. */
  function Le32(n: nat): (s: seq<byte>)
    requires n < LIMIT_32
    ensures |s| == 4
  {
    [n % 256, n / 256 % 256, n / 65536 % 256, n / 16777216]
  }

  function FromLe32(s: seq<byte>): (n: nat)
    requires |s| == 4
    ensures n < LIMIT_32
  {
    var b0: int, b1: int, b2: int, b3: int := s[0], s[1], s[2], s[3];
    b0 + 256 * b1 + 65536 * b2 + 16777216 * b3
  }

  lemma Le32RoundTrip(n: nat)
    requires n < LIMIT_32
    ensures FromLe32(Le32(n)) == n
  {
    var a := n / 256;
    var b := a / 256;
    assert n / 65536 == b && n / 16777216 == b / 256;
    assert n == 256 * a + n % 256 && a == 256 * b + a % 256 && b == 256 * (b / 256) + b % 256;
  }

  function Weighed(b0: int, b1: int, b2: int, b3: int): int {
    b0 + 256 * b1 + 65536 * b2 + 16777216 * b3
  }

  /** The first octet counts ones, the second 256s, the third 65536s and the last 16777216s. */
  lemma LowestFirst(n: nat)
    requires n < LIMIT_32
    ensures var s := Le32(n); n == Weighed(s[0], s[1], s[2], s[3])
  {
    Le32RoundTrip(n);
  }
}
