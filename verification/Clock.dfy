/** Time is an integer number of microseconds. */
module Clock {
  const SECOND := 1_000_000
  const MINUTE := 60_000_000
  const DAY := 86_400_000_000
}
