/** The global exception handler: each failure kind becomes an HTTP status
    and an error body. */
module ExceptionHandler {
  import opened Wrappers
  import opened Validation
  import opened ErrorResponses
  import opened Exceptions

  const BadRequest := 400
  const NotFoundStatus := 404
  const InternalServerError := 500

  const UnexpectedPrefix := "An unexpected error occurred: "

  /** The status code and body of an error reply. */
  datatype ErrorReply = ErrorReply(code: int, body: ErrorResponse)

  /** One field error as the handler prints it: field, colon, space, message. */
  function FormatFieldError(e: FieldError): string {
    e.field + ": " + e.message
  }

  /** The errors list built by the forEach over the binding result: one
      formatted entry per field error, in the same order. */
  function FormatFieldErrors(es: seq<FieldError>): (r: seq<string>)
    ensures |r| == |es|
    ensures forall i :: 0 <= i < |es| ==> r[i] == FormatFieldError(es[i])
    decreases |es|
  {
    if es == [] then [] else FormatFieldErrors(es[..|es| - 1]) + [FormatFieldError(es[|es| - 1])]
  }

  /** String concatenation with a possibly null message: null prints as "null". */
  function MessageText(m: Option<string>): string {
    match m
    case Some(s) => s
    case None => "null"
  }

  /** The handler Spring selects for f, and the reply it builds. */
  function Handle(f: Failure): (r: ErrorReply)
    ensures r.body.status == Some("error")
    ensures r.code == 404 <==> f.ResourceNotFound?
    ensures r.code == 400 <==> f.TaskValidationFailure? || f.ArgumentNotValid?
    ensures r.code == 500 <==> f.Unexpected?
    ensures f.ResourceNotFound? ==> r.body.message == Some(f.message) && r.body.errors.None?
    ensures f.TaskValidationFailure? ==>
      r.body.message == Some(f.exception.message) && r.body.errors == Some(f.exception.errors)
    ensures f.ArgumentNotValid? ==>
      && r.body.message == Some("Validation failed")
      && r.body.errors.Some?
      && |r.body.errors.value| == |f.fieldErrors|
      && forall i :: 0 <= i < |f.fieldErrors| ==>
           r.body.errors.value[i] == f.fieldErrors[i].field + ": " + f.fieldErrors[i].message
    ensures f.Unexpected? ==>
      && r.body.message == Some("An unexpected error occurred: " + MessageText(f.cause))
      && r.body.errors.None?
  {
    match f
    case ResourceNotFound(message) =>
      ErrorReply(NotFoundStatus, WithMessage(message))
    case TaskValidationFailure(e) =>
      ErrorReply(BadRequest, WithErrors(e.message, e.errors))
    case ArgumentNotValid(fieldErrors) =>
      ErrorReply(BadRequest, WithErrors(DefaultValidationMessage, FormatFieldErrors(fieldErrors)))
    case Unexpected(cause) =>
      ErrorReply(InternalServerError, WithMessage(UnexpectedPrefix + MessageText(cause)))
  }

  /** The error list of a rejected body holds, for each violated constraint,
      its report "field: message", and nothing else. */
  lemma RejectedBodyErrors(t: Tasks.Task)
    ensures var r := Handle(ArgumentNotValid(ValidationErrors(t)));
      && r.code == 400
      && r.body.errors.Some?
      && (forall c :: c in Violations(t) ==> FormatFieldError(Report(c)) in r.body.errors.value)
      && (forall s :: s in r.body.errors.value ==>
            exists c :: c in Violations(t) && s == FormatFieldError(Report(c)))
  {
    var errs := ValidationErrors(t);
    var r := Handle(ArgumentNotValid(errs));
    forall c | c in Violations(t) ensures FormatFieldError(Report(c)) in r.body.errors.value {
      var i :| 0 <= i < |errs| && errs[i] == Report(c);
      assert r.body.errors.value[i] == FormatFieldError(Report(c));
    }
    forall s | s in r.body.errors.value
      ensures exists c :: c in Violations(t) && s == FormatFieldError(Report(c))
    {
      var i :| 0 <= i < |r.body.errors.value| && r.body.errors.value[i] == s;
      var c := ViolationList(t)[i];
      assert c in Violations(t) && s == FormatFieldError(Report(c));
    }
  }

  /** A single-message TaskValidationException reaches the body as a
      one-element errors list repeating the message. */
  lemma SingleMessageValidation(m: string)
    ensures Handle(TaskValidationFailure(OfMessage(m))) ==
      ErrorReply(400, ErrorResponse(Some("error"), Some(m), Some([m])))
  {
  }
}
