/** Timestamps: seconds plus nanoseconds, compared after rounding, subtracted
    to whole milliseconds. */
module Moments {

  const NANOS_PER_SECOND: int := 1_000_000_000
  const NANOS_PER_MILLI: int := 1_000_000
  const MILLIS_PER_SECOND: int := 1000
  const TWO_63: int := 0x8000_0000_0000_0000
  const TWO_64: int := 0x1_0000_0000_0000_0000

  datatype Moment = Moment(sec: int, nsec: int)

  /** The time a moment denotes, on the mathematical integers. */
  function Nanos(m: Moment): int {
    m.sec * NANOS_PER_SECOND + m.nsec
  }

  /** Conversion to uint64_t. */
  function U64(x: int): (r: int)
    ensures 0 <= r < TWO_64
    ensures 0 <= x < TWO_64 ==> r == x
  {
    x % TWO_64
  }

  /** Conversion to int64_t. */
  function I64(x: int): (r: int)
    ensures -TWO_63 <= r < TWO_63
    ensures -TWO_63 <= x < TWO_63 ==> r == x
  {
    var u := x % TWO_64;
    if u < TWO_63 then u else u - TWO_64
  }

  /** C division and remainder truncate toward zero. */
  function TruncDiv(x: int, y: int): int
    requires y > 0
  {
    if x >= 0 then x / y else -((-x) / y)
  }

  function TruncMod(x: int, y: int): int
    requires y > 0
  {
    x - TruncDiv(x, y) * y
  }

  function Pow10(n: nat): (r: int)
    ensures r >= 1
    ensures n >= 1 ==> r >= 10
  {
    if n == 0 then 1 else 10 * Pow10(n - 1)
  }

  /** The difference moment_cmp stores through its third argument. */
  function Delta(left: Moment, right: Moment): Moment {
    var d := I64(U64(Nanos(left)) - U64(Nanos(right)));
    Moment(TruncDiv(d, NANOS_PER_SECOND), TruncMod(d, NANOS_PER_SECOND))
  }

  /** moment_cmp's result: both sides are rounded down to a multiple of
      10^(9 - precision) nanoseconds and subtracted as 64-bit numbers. */
  function Compare(left: Moment, right: Moment, precision: nat): int
    requires precision <= 9
  {
    var roundoff := Pow10(9 - precision);
    var l := (U64(Nanos(left)) / roundoff) * roundoff;
    var r := (U64(Nanos(right)) / roundoff) * roundoff;
    var d := I64(l - r);
    if d == 0 then 0 else if d > 1 then 1 else -1
  }

  function Sign(x: int): int {
    if x > 0 then 1 else if x < 0 then -1 else 0
  }

  /** The moment with everything below the chosen precision dropped. */
  function Rounded(m: Moment, precision: nat): int
    requires precision <= 9
  {
    Nanos(m) / Pow10(9 - precision)
  }

  /** Moments of the years 1970 to 2262, for which 64 bits are enough. */
  predicate InRange(m: Moment) {
    0 <= Nanos(m) < TWO_63
  }

  /** moment_cmp orders two moments by their rounded times, except that at
      nanosecond precision a left side later by exactly one nanosecond is
      reported as earlier; it is right if and only if that is not the case. */
  lemma CompareOrdersRounded(left: Moment, right: Moment, precision: nat)
    requires precision <= 9 && InRange(left) && InRange(right)
    ensures Compare(left, right, precision) == Sign(Rounded(left, precision) - Rounded(right, precision))
       <==> !(precision == 9 && Nanos(left) == Nanos(right) + 1)
  {
    var p := Pow10(9 - precision);
    RoundBounds(Nanos(left), p);
    RoundBounds(Nanos(right), p);
    ProductGap(Nanos(left) / p, Nanos(right) / p, p);
    assert p == 1 <==> precision == 9;
  }

  lemma RoundBounds(x: int, p: int)
    requires p >= 1 && x >= 0
    ensures 0 <= (x / p) * p <= x
  {
  }

  /** Multiples of p differ by nothing, or by at least p in the right direction. */
  lemma ProductGap(a: int, b: int, p: int)
    requires p >= 1
    ensures a == b ==> a * p == b * p
    ensures a > b ==> a * p - b * p >= p
    ensures a < b ==> b * p - a * p >= p
  {
    if a > b {
      Expand(a - b - 1, b, p);
    } else if a < b {
      Expand(b - a - 1, a, p);
    }
  }

  lemma Expand(k: int, b: int, p: int)
    requires k >= 0 && p >= 1
    ensures (b + 1 + k) * p >= b * p + p
  {
    assert (b + 1 + k) * p == b * p + p + k * p;
    assert k * p >= 0;
  }

  /** At the exact precision, the input on which moment_cmp is wrong. */
  lemma CompareFailsAtPrecisionNine()
    ensures var late, early := Moment(5, 1), Moment(5, 0);
            Nanos(late) > Nanos(early) && Compare(late, early, 9) == -1 && Compare(early, late, 9) == -1
  {
    assert Pow10(0) == 1;
  }

  /** moment_duration: the elapsed time in milliseconds as an unsigned long. */
  function Duration(ended: Moment, started: Moment): int {
    var delta := Delta(ended, started);
    U64(U64(delta.sec) * MILLIS_PER_SECOND + TruncDiv(delta.nsec, NANOS_PER_MILLI))
  }

  /** For ordered times the duration is the elapsed time in whole milliseconds. */
  lemma DurationIsElapsed(ended: Moment, started: Moment)
    requires InRange(ended) && InRange(started) && Nanos(started) <= Nanos(ended)
    ensures Duration(ended, started) == (Nanos(ended) - Nanos(started)) / NANOS_PER_MILLI
  {
    var d := Nanos(ended) - Nanos(started);
    var s, n := d / NANOS_PER_SECOND, d % NANOS_PER_SECOND;
    assert d == s * NANOS_PER_SECOND + n;
    assert Delta(ended, started) == Moment(s, n);
    assert d == s * (MILLIS_PER_SECOND * NANOS_PER_MILLI) + n;
    assert d / NANOS_PER_MILLI == s * MILLIS_PER_SECOND + n / NANOS_PER_MILLI;
  }
}
