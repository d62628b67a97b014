/** The client's error taxonomy (`moodle::Error`) and its `Result` alias. */
module Errors {

  /** Which kind of entity a by-id lookup failed to find. */
  datatype NotFoundKind = Assignment | Course | User

  /**
   * `Reqwest`, `Parse`, `JsonDeserialize` and `IO` wrap library errors whose
   * payload the model does not look into; `Login` carries the server's message
   * and `NotFound` the kind and the requested id.
   */
  datatype Error =
    | Reqwest
    | Parse
    | JsonDeserialize
    | IO
    | Login(message: string)
    | NotFound(kind: NotFoundKind, id: nat)

  datatype Result<+T> = Ok(value: T) | Err(error: Error)
}
