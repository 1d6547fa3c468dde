/**
 Instants and durations in nanoseconds; an instant counts from the zero time.  As in Go, the
 difference of two instants saturates at the 64-bit range.
 */
module Clock {
  type Time = int
  type Duration = int

  const MAX_DURATION: Duration := 0x7FFF_FFFF_FFFF_FFFF
  const MIN_DURATION: Duration := -0x8000_0000_0000_0000
  const DAY: Duration := 24 * 3600 * 1_000_000_000

  function Sub(a: Time, b: Time): Duration {
    if a - b > MAX_DURATION then MAX_DURATION else if a - b < MIN_DURATION then MIN_DURATION else a - b
  }

  /** The difference is the duration nearest to the true one. */
  lemma SubNearest(a: Time, b: Time, d: Duration)
    requires MIN_DURATION <= d <= MAX_DURATION
    ensures MIN_DURATION <= Sub(a, b) <= MAX_DURATION
    ensures a - b <= d ==> a - b <= Sub(a, b) <= d
    ensures d <= a - b ==> d <= Sub(a, b) <= a - b
    ensures a - b == d ==> Sub(a, b) == d
  {}
}
