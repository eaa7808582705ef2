/** Bytes as numbers, and the fixed-width fields of the wire formats. */
module Bytes {

  newtype byte = x: int | 0 <= x < 256

  datatype Option<T> = None | Some(value: T)

  /** uint16_t from its two bytes, most significant first. */
  function Be16(hi: byte, lo: byte): (n: nat)
    ensures n < 65536
  { hi as nat * 256 + lo as nat }

  function Hi(n: nat): byte
    requires n < 65536
  { (n / 256) as byte }

  function Lo(n: nat): byte { (n % 256) as byte }

  lemma Be16RoundTrip(n: nat)
    requires n < 65536
    ensures Be16(Hi(n), Lo(n)) == n
  {
  }

  lemma HiLoRoundTrip(hi: byte, lo: byte)
    ensures Hi(Be16(hi, lo)) == hi && Lo(Be16(hi, lo)) == lo
  {
  }

  /** uint16_t, least significant byte first. */
  function Le16(n: nat): (b: seq<byte>)
    ensures |b| == 2
  { [Lo(n), Lo(n / 256)] }

  function From16(lo: byte, hi: byte): (n: nat)
    ensures n < 65536
  { lo as nat + 256 * hi as nat }

  lemma Le16Back(n: nat)
    requires n < 65536
    ensures From16(Lo(n), Lo(n / 256)) == n
  {
  }

  function Zeroes(n: nat): (z: seq<byte>)
    ensures |z| == n
  { seq(n, i => 0 as byte) }

  /** A copy into a buffer: memcpy to an offset. */
  function Overwrite(buf: seq<byte>, at: nat, data: seq<byte>): (r: seq<byte>)
    requires at + |data| <= |buf|
    ensures |r| == |buf|
  { buf[..at] + data + buf[at + |data|..] }

  function Min(a: nat, b: nat): (m: nat)
    ensures m <= a && m <= b && (m == a || m == b)
  { if a < b then a else b }

  /** q is n / cap rounded up: the least number of pieces of at most cap bytes that hold n. */
  predicate IsCeil(q: nat, n: nat, cap: nat) { n <= q * cap < n + cap }
}
