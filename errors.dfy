/**
 * The top-level error handler: every error that reaches it is classified, in
 * priority order, as a validation error (400), a unique-constraint conflict
 * (409) or anything else (500), and answered exactly once.
 */
module Errors {
  import opened Wrappers
  import opened Api

  const ValidationErrorName := "ValidationError"
  const UniqueViolationCode := "P2002"

  /**
   * `errorHandler`: a total classifier. The name test comes first, so an error
   * that is both a `ValidationError` and a `P2002` is a 400. A 500 body carries
   * only the fixed text, never the message or the stack.
   */
  function ErrorHandler(err: Error): (r: Response)
    ensures r.status in {400, 409, 500}
    ensures r.status == 400 <==> err.name == ValidationErrorName
    ensures r.status == 409 <==> err.name != ValidationErrorName && err.code == Some(UniqueViolationCode)
    ensures r.status == 400 ==> r.body == ErrorBody(InvalidDataMessage, Message(err.message))
    ensures r.status == 409 ==> r.body == ErrorBody(ConflictMessage, Message(RecordExistsMessage))
    ensures r.status == 500 ==> r.body == ErrorBody(InternalErrorMessage, NoDetails)
  {
    if err.name == ValidationErrorName then
      Response(400, ErrorBody(InvalidDataMessage, Message(err.message)))
    else if err.code == Some(UniqueViolationCode) then
      Response(409, ErrorBody(ConflictMessage, Message(RecordExistsMessage)))
    else
      Response(500, ErrorBody(InternalErrorMessage, NoDetails))
  }

  /** An error carrying both the validation name and the conflict code is answered as a validation error. */
  lemma ValidationTakesPrecedence(message: string, stack: string)
    ensures ErrorHandler(Error(ValidationErrorName, Some(UniqueViolationCode), message, stack)).status == 400
  {
  }

  /** Outside the validation case the response depends only on name and code: neither the message nor the stack reaches the caller. */
  lemma MessageAndStackHidden(e1: Error, e2: Error)
    requires e1.name == e2.name && e1.code == e2.code
    requires e1.name != ValidationErrorName
    ensures ErrorHandler(e1) == ErrorHandler(e2)
  {
  }
}
