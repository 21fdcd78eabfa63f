/**
 * The event records exchanged between the input poller and the screen
 * coordinator, and the time unit of the whole model.
 */
module Events {

  /** All durations and timestamps are whole microseconds. */
  const Second: int := 1_000_000

  /**
   * An input event.  The wire form is a record with a "type" field and, for
   * ROTATE only, a "delta" field.  Every reader of a ROTATE event reads the
   * delta with a default of 0, so a ROTATE without a delta is `Rotate(0)`;
   * a record whose type is absent or is none of the three is `Unknown`.
   */
  datatype Event = Rotate(delta: int) | ShortClick | LongClick | Unknown
}
