/** Types shared by the other modules. */
module Common {
  datatype Option<+T> = None | Some(value: T)

  /** Nanoseconds in a second, the unit of clock readings and durations. */
  const SECOND: int := 1_000_000_000
}
