/** Instants of the database and server clocks, counted in microseconds. */
module Instants {
  type Time = int

  const SECOND: Time := 1_000_000
}
