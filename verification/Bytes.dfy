/** Bytes, and the little-endian integers of the link frames and the journal index. */
module Bytes {
  type byte = x: int | 0 <= x < 256

  function U16(n: int): (b: seq<byte>)
    requires 0 <= n < 0x1_0000
    ensures |b| == 2
  {
    [n % 256, n / 256]
  }

  function U32(n: int): (b: seq<byte>)
    requires 0 <= n < 0x1_0000_0000
    ensures |b| == 4
  {
    U16(n % 65536) + U16(n / 65536)
  }

  /** The 16-bit value stored at b[i], b[i + 1]. */
  function U16At(b: seq<byte>, i: nat): (n: nat)
    requires i + 2 <= |b|
    ensures n < 0x1_0000
  {
    b[i] as int + b[i + 1] as int * 256
  }

  function U32At(b: seq<byte>, i: nat): (n: nat)
    requires i + 4 <= |b|
    ensures n < 0x1_0000_0000
  {
    U16At(b, i) + U16At(b, i + 2) * 65536
  }

  lemma U16RoundTrip(n: int)
    requires 0 <= n < 0x1_0000
    ensures U16At(U16(n), 0) == n
  {
  }

  lemma U32RoundTrip(n: int)
    requires 0 <= n < 0x1_0000_0000
    ensures U32At(U32(n), 0) == n
  {
    U16RoundTrip(n % 65536);
    U16RoundTrip(n / 65536);
    assert U16At(U32(n), 0) == U16At(U16(n % 65536), 0) && U16At(U32(n), 2) == U16At(U16(n / 65536), 0);
  }

  /** The low byte comes first. */
  lemma LowFirst(n: int)
    requires 0 <= n < 0x1_0000_0000
    ensures n < 0x1_0000 ==> U16(n)[0] as int + 256 * U16(n)[1] as int == n
    ensures var b := U32(n); b[0] as int + 256 * b[1] as int + 65536 * b[2] as int + 16777216 * b[3] as int == n
  {
  }
}
