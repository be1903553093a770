/** The error body {status, message, errors}. The creation timestamp the
    source records from the wall clock is not part of this model. */
module ErrorResponses {
  import opened Wrappers
  import ApiResponses

  datatype ErrorResponse = ErrorResponse(
    status: Option<string>,
    message: Option<string>,
    errors: Option<seq<string>>)

  /** The no-argument constructor: status, message and errors all null. */
  function Empty(): (r: ErrorResponse)
    ensures r.status.None? && r.message.None? && r.errors.None?
  {
    ErrorResponse(None, None, None)
  }

  /** new ErrorResponse(message): an error without a detail list. */
  function WithMessage(message: string): (r: ErrorResponse)
    ensures r.status == Some("error") && r.message == Some(message)
    ensures r.errors.None?
  {
    ErrorResponse(Some(ApiResponses.ErrorStatus), Some(message), None)
  }

  /** new ErrorResponse(message, errors): the list is kept as given, element
      for element, and an empty list stays an empty list. */
  function WithErrors(message: string, errors: seq<string>): (r: ErrorResponse)
    ensures r.status == Some("error") && r.message == Some(message)
    ensures r.errors.Some? && |r.errors.value| == |errors|
    ensures forall i :: 0 <= i < |errors| ==> r.errors.value[i] == errors[i]
  {
    ErrorResponse(Some(ApiResponses.ErrorStatus), Some(message), Some(errors))
  }

  /** setStatus: only status changes. */
  function SetStatus(r: ErrorResponse, status: Option<string>): (r': ErrorResponse)
    ensures r'.status == status
    ensures r'.message == r.message && r'.errors == r.errors
  {
    r.(status := status)
  }

  /** setMessage: only message changes. */
  function SetMessage(r: ErrorResponse, message: Option<string>): (r': ErrorResponse)
    ensures r'.message == message
    ensures r'.status == r.status && r'.errors == r.errors
  {
    r.(message := message)
  }

  /** setErrors: only errors changes. */
  function SetErrors(r: ErrorResponse, errors: Option<seq<string>>): (r': ErrorResponse)
    ensures r'.errors == errors
    ensures r'.status == r.status && r'.message == r.message
  {
    r.(errors := errors)
  }

  /** Both message constructors are the default constructor followed by
      setters; they differ only in the errors field. */
  lemma ConstructorsAreSetters(message: string, errors: seq<string>)
    ensures WithMessage(message) == SetMessage(SetStatus(Empty(), Some("error")), Some(message))
    ensures WithErrors(message, errors) == SetErrors(WithMessage(message), Some(errors))
  {
  }
}
