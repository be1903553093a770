/** The failures that reach the exception handler: a missing resource, an
    explicit TaskValidationException, a request body rejected by Bean
    Validation, and any other exception. */
module Exceptions {
  import opened Wrappers
  import opened Decimal
  import opened Validation

  const DefaultValidationMessage := "Validation failed"

  /** TaskValidationException: a message plus a list of detail strings. */
  datatype TaskValidationException = TaskValidationException(message: string, errors: seq<string>)

  /** new TaskValidationException(message): the list holds just the message. */
  function OfMessage(message: string): (e: TaskValidationException)
    ensures e.message == message
    ensures e.errors == [message]
  {
    TaskValidationException(message, [message])
  }

  /** new TaskValidationException(message, errors): both kept unchanged. */
  function OfMessageAndErrors(message: string, errors: seq<string>): (e: TaskValidationException)
    ensures e.message == message && e.errors == errors
  {
    TaskValidationException(message, errors)
  }

  /** new TaskValidationException(errors): the default message. */
  function OfErrors(errors: seq<string>): (e: TaskValidationException)
    ensures e.message == "Validation failed" && e.errors == errors
  {
    TaskValidationException(DefaultValidationMessage, errors)
  }

  /** setErrors: the list is replaced, the message is not touched. */
  function SetErrors(e: TaskValidationException, errors: seq<string>): (e': TaskValidationException)
    ensures e'.errors == errors
    ensures e'.message == e.message
  {
    e.(errors := errors)
  }

  /** The errors-only constructor is the (message, errors) one with the
      default message, and the single-message one is setErrors away from any
      other list. */
  lemma ConstructorsAgree(message: string, errors: seq<string>)
    ensures OfErrors(errors) == OfMessageAndErrors("Validation failed", errors)
    ensures SetErrors(OfMessage(message), errors) == OfMessageAndErrors(message, errors)
  {
  }

  const NotFoundInfix := " not found with id: "

  /** The message of ResourceNotFoundException(resource, id). */
  function NotFoundMessage(resource: string, id: int): (m: string)
    ensures m == resource + " not found with id: " + LongToString(id)
  {
    resource + NotFoundInfix + LongToString(id)
  }

  /** The message names the id: two ids give the same message only if they
      are equal. */
  lemma NotFoundMessageNamesId(resource: string, a: int, b: int)
    ensures NotFoundMessage(resource, a) == NotFoundMessage(resource, b) ==> a == b
  {
    var n := |resource + NotFoundInfix|;
    if NotFoundMessage(resource, a) == NotFoundMessage(resource, b) {
      assert NotFoundMessage(resource, a)[n..] == LongToString(a);
      assert NotFoundMessage(resource, b)[n..] == LongToString(b);
      LongToStringInjective(a, b);
    }
  }

  /** What the handler can be given. */
  datatype Failure =
    | ResourceNotFound(message: string)
    | TaskValidationFailure(exception: TaskValidationException)
    | ArgumentNotValid(fieldErrors: seq<FieldError>)
    | Unexpected(cause: Option<string>)

  /** new ResourceNotFoundException(resource, id). */
  function NotFound(resource: string, id: int): (f: Failure)
    ensures f.ResourceNotFound? && f.message == NotFoundMessage(resource, id)
  {
    ResourceNotFound(NotFoundMessage(resource, id))
  }
}
