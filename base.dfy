/** Small value wrappers shared by every module of the model. */
module Base {

  /** A value that may be absent: a NULL column, a row a query did not find. */
  datatype Option<+T> = None | Some(value: T)

  /** The outcome of an endpoint's checks: the values they looked up, or the error status. */
  datatype Checked<+T> = Pass(value: T) | Fail(code: int)

  /**
   * What an endpoint answers. `Ok` carries the JSON body of a 200 answer.
   * `Err` is an error status whose transaction was rolled back (or never opened).
   * `CommittedErr` is an error status reported after the endpoint had already
   * committed changes (the "failed pending action" paths and the stale-game deletion).
   */
  datatype Reply<+T> = Ok(body: T) | Err(code: int) | CommittedErr(code: int)
  {
    /** The HTTP status code of the answer. */
    function Code(): int
    {
      match this
      case Ok(_) => 200
      case Err(c) => c
      case CommittedErr(c) => c
    }
  }
}
