// The pieces of C and of FFmpeg's libavutil that the program's arithmetic relies on:
// error codes, minimum and maximum, the conversion to a 32-bit int, and av_rescale.

module CLib {
  // AVERROR(EAGAIN), AVERROR(ENOMEM), AVERROR_EOF, AVERROR_INVALIDDATA and AVERROR_EXTERNAL
  const ERROR_AGAIN := -11
  const ERROR_NO_MEMORY := -12
  const ERROR_EOF := -541478725
  const ERROR_INVALID_DATA := -1094995529
  const ERROR_EXTERNAL := -542398533

  const INT_MAX := 0x7FFF_FFFF

  // AV_TIME_BASE: video timestamps count microseconds
  const TIME_BASE: int := 1000000

  function Min(a: int, b: int): int { if a < b then a else b }

  function Max(a: int, b: int): int { if a > b then a else b }

  predicate FitsInt32(x: int) { -INT_MAX - 1 <= x <= INT_MAX }

  /** The C conversion of a wider integer to `int`: keeps the low 32 bits. */
  function ToInt32(x: int): (r: int)
    ensures FitsInt32(r)
    ensures r == x <==> FitsInt32(x)
  {
    var low := x % 0x1_0000_0000;
    if low > INT_MAX then low - 0x1_0000_0000 else low
  }

  /** What the conversion cuts off is a multiple of 2^32. */
  lemma ToInt32IsCut(x: int)
    ensures (x - ToInt32(x)) % 0x1_0000_0000 == 0
  {
  }

  const INT64_MAX := 0x7FFF_FFFF_FFFF_FFFF

  predicate FitsInt64(x: int) { -INT64_MAX - 1 <= x <= INT64_MAX }

  type Int64 = x: int | FitsInt64(x)

  type Nat64 = x: int | 0 <= x <= INT64_MAX

  /** Subtraction of 64-bit integers, which wraps around. */
  function Minus64(a: Int64, b: Int64): (r: Int64)
    ensures r == a - b <==> FitsInt64(a - b)
  {
    assert FitsInt64(a) && FitsInt64(b);
    var d: int := a - b;
    if d > INT64_MAX then d - 0x1_0000_0000_0000_0000
    else if d < -INT64_MAX - 1 then d + 0x1_0000_0000_0000_0000
    else d
  }

  /** What the subtraction wraps around by is a multiple of 2^64. */
  lemma Minus64IsCut(a: Int64, b: Int64)
    ensures (a - b - Minus64(a, b)) % 0x1_0000_0000_0000_0000 == 0
  {
  }

  /** C's remainder, which has the sign of the dividend. */
  function Remainder(x: int, n: int): (r: int)
    requires n > 0
    ensures x >= 0 ==> 0 <= r < n
    ensures x < 0 ==> -n < r <= 0
  {
    if x >= 0 then x % n else -(-x % n)
  }

  /** av_rescale(a, b, c): a * b / c to the nearest integer, halves away from zero. */
  function Rescale(a: int, b: int, c: int): int
    requires b >= 0 && c > 0
  {
    if a < 0 then -((-a * b + c / 2) / c) else (a * b + c / 2) / c
  }

  /** The result is within half a unit of the exact quotient, and halves go away from zero. */
  lemma RescaleNearest(a: int, b: int, c: int)
    requires b >= 0 && c > 0
    ensures a >= 0 ==> -c < 2 * (Rescale(a, b, c) * c - a * b) <= c
    ensures a < 0 ==> -c <= 2 * (Rescale(a, b, c) * c - a * b) < c
  {
    if a < 0 {
      var n := -a * b;
      NearestQuotient(n, c);
      var q := (n + c / 2) / c;
      assert Rescale(a, b, c) * c == -(q * c);
      assert a * b == -n;
    } else {
      NearestQuotient(a * b, c);
    }
  }

  lemma NearestQuotient(n: int, c: int)
    requires c > 0
    ensures -c < 2 * ((n + c / 2) / c * c - n) <= c
  {
    var q := (n + c / 2) / c;
    assert n + c / 2 == q * c + (n + c / 2) % c;
  }

  /** Rescaling the divisor itself is exact. */
  lemma RescaleExact(a: int, b: int)
    requires a > 0 && b >= 0
    ensures Rescale(a, b, a) == b
  {
    QuotientUnique(a * b + a / 2, a, b, a / 2);
  }

  lemma MulLe(a: int, b: int, c: int)
    requires a <= b && 0 <= c
    ensures a * c <= b * c
  {
  }

  lemma QuotientUnique(n: int, c: int, q: int, r: int)
    requires c > 0 && n == c * q + r && 0 <= r < c
    ensures n / c == q && n % c == r
  {
    var d := n / c - q;
    assert c * d == r - n % c;
    assert d > 0 ==> c * d >= c;
    assert d < 0 ==> c * d <= -c;
  }
}
