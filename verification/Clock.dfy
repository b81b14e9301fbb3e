/** Instants and durations, in integer nanoseconds, as Go's time package counts them. */
module Clock {

  const SECOND: int := 1_000_000_000
  const MINUTE: int := 60 * SECOND
  const HOUR: int := 60 * MINUTE

  const MAX_INT64: int := 0x7FFF_FFFF_FFFF_FFFF
  const MIN_INT64: int := -0x8000_0000_0000_0000

  /** The zero time.Time, 0001-01-01T00:00:00 UTC, counted from the Unix epoch. */
  const ZERO_TIME: int := -62_135_596_800 * SECOND

  /** What a 64-bit signed product or sum keeps of a mathematical integer. */
  function WrapInt64(x: int): (r: int)
    ensures MIN_INT64 <= r <= MAX_INT64
    ensures MIN_INT64 <= x <= MAX_INT64 ==> r == x
  {
    (x - MIN_INT64) % 0x1_0000_0000_0000_0000 + MIN_INT64
  }

  /** time.Since: a difference of instants, saturating at the ends of the int64 range. */
  function Since(now: int, instant: int): (d: int)
    ensures MIN_INT64 <= d <= MAX_INT64
    ensures MIN_INT64 <= now - instant <= MAX_INT64 ==> d == now - instant
    ensures now - instant > MAX_INT64 ==> d == MAX_INT64
    ensures now - instant < MIN_INT64 ==> d == MIN_INT64
  {
    var d := now - instant;
    if d > MAX_INT64 then MAX_INT64 else if d < MIN_INT64 then MIN_INT64 else d
  }

  function Pow2(n: nat): (p: nat)
    ensures p >= 1
  {
    if n == 0 then 1 else 2 * Pow2(n - 1)
  }
}
