/** Values shared by the whole model: optional values, results, and the shape of the
    errors that the bot's remote calls throw. */
module Common {

  /** JavaScript's `undefined`/`null` versus a value. */
  datatype Option<T> = None | Some(value: T)

  /** What an async operation of the bot settles to: a value, or the Error it throws. */
  datatype Result<T> = Ok(value: T) | Err(error: Failure)

  /** An Error object as the bot inspects it: `error.code` (a transport code such as
      ETIMEDOUT), `error.response.status` (present only when an HTTP response came back)
      and `error.message`. */
  datatype Failure = Failure(code: Option<string>, response: Option<int>, message: string)

  /** The outcome of one remote request: the reply's payload, or the failure the HTTP
      client threw. The remote service is not modelled; each outcome is an input. */
  datatype Reply<T> = Answer(payload: T) | Thrown(failure: Failure)

  /** An Error created by the bot itself with `new Error(message)`: it carries neither a
      code nor a response. */
  function Raised(message: string): Failure
  {
    Failure(None, None, message)
  }
}
