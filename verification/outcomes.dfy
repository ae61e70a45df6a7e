/** Small value types shared by the client model: a nullable value and the
    settled outcome of one request to the todo REST API. */
module Outcomes {

  /** A JavaScript value that is either `null` or present. */
  datatype Option<+T> = None | Some(value: T)

  /** How an awaited request settled: the response body on success, or a
      caught exception (network failure, non-2xx status). The client never
      inspects the error beyond logging it, so `Err` carries nothing. */
  datatype Reply<+T> = Ok(payload: T) | Err
}
