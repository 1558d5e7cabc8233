/** Instants and durations throughout the project are integer nanoseconds. */
module Clock {

  const SECOND := 1_000_000_000
}
