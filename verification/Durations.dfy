/** Instants and durations are whole nanoseconds. */
module Durations {
  const SECOND: nat := 1_000_000_000
}
