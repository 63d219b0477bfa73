/**
 * The outcome of an HTTP login attempt: a result on success, otherwise an
 * optional error message. Both parts are Java nullable references.
 */
module LoginResults {
  import opened Wrappers

  datatype LoginResult<T> = LoginResult(result: Option<T>, errorMessage: Option<string>)
  {
    predicate Succeeded() { result.Some? }

    predicate Failed() { result.None? }

    predicate HasErrorMessage() { errorMessage.Some? }
  }

  /** A successful login carries its result and no message. */
  function Success<T>(r: T): (lr: LoginResult<T>)
    ensures lr.Succeeded() && !lr.Failed() && lr.result == Some(r)
    ensures !lr.HasErrorMessage()
  {
    LoginResult(Some(r), None)
  }

  /** A failed login, with the given (possibly absent) message. */
  function Failure<T>(message: Option<string>): (lr: LoginResult<T>)
    ensures lr.Failed() && !lr.Succeeded()
    ensures lr.HasErrorMessage() <==> message.Some?
    ensures lr.errorMessage == message
  {
    LoginResult(None, message)
  }

  /** The shared failure without a message. */
  function UndefinedFailure<T>(): (lr: LoginResult<T>)
    ensures lr.Failed() && !lr.Succeeded() && !lr.HasErrorMessage()
  {
    Failure(None)
  }

  /** Every login result either succeeded or failed, never both. */
  lemma SucceededIffNotFailed<T>(lr: LoginResult<T>)
    ensures lr.Succeeded() <==> !lr.Failed()
  {
  }
}
