/** Little-endian numbers in byte sequences. */
module Bytes {
  type byte = b: int | 0 <= b < 256

  const WORD: nat := 0x1_0000_0000
  const HALF: nat := 0x1_0000

  type u32 = n: int | 0 <= n < 0x1_0000_0000

  type i32 = n: int | -0x8000_0000 <= n < 0x8000_0000

  function Le16(n: nat): (s: seq<byte>)
    ensures |s| == 2
  {
    [n % 256, n / 256 % 256]
  }

  function Le32(n: nat): seq<byte> {
    Le16(n) + Le16(n / 256 / 256)
  }

  function From16(s: seq<byte>): (n: nat)
    requires |s| == 2
    ensures n < HALF
  {
    s[0] as int + 256 * s[1] as int
  }

  function From32(s: seq<byte>): (n: u32)
    requires |s| == 4
  {
    From16(s[..2]) + 65536 * From16(s[2..])
  }

  /** The bytes of a number come least significant first. */
  lemma LeastFirst(n: nat)
    ensures Le16(n) == [n % 256, n / 256 % 256]
    ensures |Le32(n)| == 4
    ensures Le32(n)[0] == n % 256 && Le32(n)[1] == n / 256 % 256
    ensures Le32(n)[2] == n / 65536 % 256 && Le32(n)[3] == n / 16777216 % 256
  {
    assert n / 256 / 256 == n / 65536 && n / 65536 / 256 == n / 16777216;
  }

  lemma Le16RoundTrip(n: nat)
    ensures From16(Le16(n)) == n % HALF
  {
    var q := n / 256;
    assert n == 256 * q + n % 256;
    assert q == 256 * (q / 256) + q % 256;
    assert n == 65536 * (q / 256) + From16(Le16(n));
  }

  lemma Halves(n: nat)
    requires n < WORD
    ensures n == 65536 * (n / 256 / 256) + n % 65536 && n / 256 / 256 < HALF
  {
    assert n / 256 / 256 == n / 65536;
  }

  lemma Le32RoundTrip(n: nat)
    requires n < WORD
    ensures From32(Le32(n)) == n
  {
    hide Le16, From16;
    var q := n / 256 / 256;
    Halves(n);
    Le16RoundTrip(n);
    Le16RoundTrip(q);
    assert Le32(n)[..2] == Le16(n) && Le32(n)[2..] == Le16(q);
  }

  // Two's complement.
  function LeI32(n: i32): (s: seq<byte>)
    ensures |s| == 4
  {
    Le32(if n < 0 then n + WORD else n)
  }

  function FromI32(s: seq<byte>): (n: i32)
    requires |s| == 4
  {
    var u: int := From32(s);
    if u < 0x8000_0000 then u else u - WORD
  }

  /** A negative number is sent as its two's complement. */
  lemma TwosComplement(n: i32)
    ensures n >= 0 ==> LeI32(n) == Le32(n)
    ensures n < 0 ==> LeI32(n) == Le32(n as int + 0x1_0000_0000)
  {
  }

  lemma LeI32RoundTrip(n: i32)
    ensures FromI32(LeI32(n)) == n
  {
    Le32RoundTrip(if n < 0 then n + WORD else n);
  }
}
