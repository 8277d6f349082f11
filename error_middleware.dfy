/** The error middleware: the boundary where every thrown error becomes one HTTP status and JSON body.
    `NODE_ENV` is a parameter. */
module ErrorMiddleware {
  import opened Wrappers
  import opened DomainErrors

  /** The status and the `{ error, message }` body written to the response. */
  datatype ErrorResponse = ErrorResponse(status: int, error: string, message: string)

  const DatabaseErrorText := "An error occurred while processing your request"
  const UnexpectedErrorText := "An unexpected error occurred"

  predicate IsDevelopment(nodeEnv: Option<string>) {
    nodeEnv == Some("development")
  }

  /** `errorMiddleware`: the cases are tried in order and the first that applies answers. The two
      domain error classes are recognised by class, the rest by `name`; a database or unexpected error
      shows its own message only in development. */
  function HandleError(e: AppError, nodeEnv: Option<string>): (resp: ErrorResponse)
    ensures resp.status == 400 || resp.status == 404 || resp.status == 409 || resp.status == 500
    ensures resp.status != 500 || IsDevelopment(nodeEnv) ==> resp.message == Message(e)
    ensures resp.status == 500 ==>
              resp.error == if Name(e) == "QueryFailedError" || Name(e) == "TypeORMError" then "Database error"
                            else "Internal server error"
  {
    if e.NotFoundError? then
      ErrorResponse(404, "Customer not found", Message(e))
    else if e.EmailExistsError? then
      ErrorResponse(409, "Email already exists", Message(e))
    else if Name(e) == "ZodError" then
      ErrorResponse(400, "Validation error", Message(e))
    else if Name(e) == "QueryFailedError" || Name(e) == "TypeORMError" then
      ErrorResponse(500, "Database error", if IsDevelopment(nodeEnv) then Message(e) else DatabaseErrorText)
    else
      ErrorResponse(500, "Internal server error",
                    if IsDevelopment(nodeEnv) then Message(e) else UnexpectedErrorText)
  }

  /** Every error gets exactly one of four statuses, and the status depends on the kind of error
      only: which class it is and, for other errors, its name. */
  lemma StatusByKind(e: AppError, nodeEnv: Option<string>)
    ensures var resp := HandleError(e, nodeEnv);
            && (resp.status == 404 <==> e.NotFoundError?)
            && (resp.status == 409 <==> e.EmailExistsError?)
            && (resp.status == 400 <==> e.OtherError? && e.name == "ZodError")
            && (resp.status == 500 <==> e.OtherError? && e.name != "ZodError")
  {
  }

  /** The bodies of the three client-error answers: a fixed label per kind and the error's own
      message, in any mode. */
  lemma ClientErrorBodies(e: AppError, nodeEnv: Option<string>)
    ensures e.NotFoundError? ==> HandleError(e, nodeEnv) == ErrorResponse(404, "Customer not found", Message(e))
    ensures e.EmailExistsError? ==>
              HandleError(e, nodeEnv) == ErrorResponse(409, "Email already exists", Message(e))
    ensures e.OtherError? && e.name == "ZodError" ==>
              HandleError(e, nodeEnv) == ErrorResponse(400, "Validation error", e.message)
  {
  }

  /** The domain errors and validation errors pass their own message through, in any mode. */
  lemma ClientErrorsCarryMessage(e: AppError, nodeEnv: Option<string>)
    requires HandleError(e, nodeEnv).status != 500
    ensures HandleError(e, nodeEnv).message == Message(e)
  {
  }

  /** Outside development a 500 never reveals the underlying message: it is one of the two fixed
      texts, chosen by whether the error names a database failure. */
  lemma ProductionHidesInternalMessages(e: AppError, nodeEnv: Option<string>)
    requires !IsDevelopment(nodeEnv)
    requires HandleError(e, nodeEnv).status == 500
    ensures HandleError(e, nodeEnv).message ==
              if e.name == "QueryFailedError" || e.name == "TypeORMError" then DatabaseErrorText
              else UnexpectedErrorText
    ensures HandleError(e, nodeEnv).error ==
              if e.name == "QueryFailedError" || e.name == "TypeORMError" then "Database error"
              else "Internal server error"
  {
  }

  /** In development every case shows the error's own message. */
  lemma DevelopmentShowsMessage(e: AppError)
    ensures HandleError(e, Some("development")).message == Message(e)
  {
  }

  /** An error that only carries a domain error's name is not an instance of that class: it falls
      through to the generic case. */
  lemma NameAloneIsNotTheClass(message: string)
    ensures HandleError(OtherError("CustomerNotFoundError", message), None).status == 500
    ensures HandleError(OtherError("EmailAlreadyExistsError", message), None).status == 500
  {
  }

  /** The services' own validation errors are plain `Error`s, so they answer 500 "Internal server
      error", with the fixed text outside development, rather than 400. */
  lemma ServiceValidationErrorsAnswer500(message: string, nodeEnv: Option<string>)
    ensures HandleError(OtherError("Error", message), nodeEnv) ==
              ErrorResponse(500, "Internal server error",
                            if IsDevelopment(nodeEnv) then message else UnexpectedErrorText)
  {
  }
}
