/** The values that flow through one wait cycle: what a poll of the
    service yields, and the four-way verdict a condition gives an event. */
module Messages {

  /** The verdict a condition gives one event (the `Msg` enum).
      `None` keeps waiting silently, `Progress` keeps waiting with a new
      label, `Success` and `Failure` end the wait. */
  datatype Msg =
    | None
    | Success(message: string)
    | Progress(message: string)
    | Failure(message: string)

  /** True of the two verdicts that end a wait cycle. */
  predicate Terminal(v: Msg) {
    v.Success? || v.Failure?
  }

  /** What one `poll(100)` of the connection returns: an event, or `Err`
      for a timeout or a transport error (the engine treats both alike). */
  datatype PollResult<E> = Ok(event: E) | Err
}
