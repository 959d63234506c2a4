/** Small shared vocabulary: optional values and clock readings. */
module Common {

  datatype Option<+T> = None | Some(value: T)

  /** Clock readings and durations, in microseconds. */
  type Time = int

  const SECOND: Time := 1_000_000
  const HOUR: Time := 3600 * SECOND
  const DAY: Time := 24 * HOUR

  /** The whole-second value a JWT stores for an expiry (NumericDate, RFC 7519 section 2). */
  function FloorSecond(t: Time): (r: Time)
    ensures r <= t < r + SECOND
  {
    t - t % SECOND
  }
}
