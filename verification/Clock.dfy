/** Game time and durations, in nanoseconds; times count from Go's zero time. */
module Clock {
  const MILLISECOND: int := 1_000_000
  const SECOND: int := 1000 * MILLISECOND
  const MINUTE: int := 60 * SECOND
  const HOUR: int := 60 * MINUTE
}
