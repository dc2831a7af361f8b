/**
 * The Express error middleware of the layered code base
 * (src/middlewares/error-handler.ts): the same cascade as the feature-based
 * one, with English messages and no summary of the first validation issue.
 */
module LegacyErrorHandler {
  import opened Wrappers
  import opened CustomErrors
  import ErrorHandler

  type ErrorResponse = ErrorHandler.ErrorResponse

  const ValidationFailed := "Validation failed"
  const DefaultField := "field"
  const RelatedNotFound := "Related resource not found"
  const RecordNotFound := "Resource not found"
  const ServerError := "Internal server error"
  const RouteNotFound := "Route not found"

  /** `target[0] || 'field'`, with a missing target read as `[]` */
  function TargetField(target: Option<seq<string>>): string {
    if target.Some? && |target.value| > 0 && target.value[0] != "" then target.value[0] else DefaultField
  }

  /** `errorHandler(err, req, res, next)` */
  function Handle(err: Thrown, isDevelopment: bool, stack: Option<string>): (r: ErrorResponse)
    ensures r.path.None?
    ensures r.errors.Some? <==> err.Zod?
    ensures r.stack.Some? ==> isDevelopment && r.stack == stack
  {
    match err
    case Custom(e) =>
      ErrorHandler.ErrorResponse(e.statusCode, e.message, None, if isDevelopment then stack else None, None)
    case Zod(issues) =>
      ErrorHandler.ErrorResponse(400, ValidationFailed, Some(ErrorHandler.IssueBodies(issues)), None, None)
    case PrismaKnown(code, target, m) =>
      if code == "P2002" then
        ErrorHandler.ErrorResponse(409, TargetField(target) + " already exists", None, None, None)
      else if code == "P2003" then
        ErrorHandler.ErrorResponse(400, RelatedNotFound, None, None, None)
      else if code == "P2025" then
        ErrorHandler.ErrorResponse(404, RecordNotFound, None, None, None)
      else
        Fallback(m, isDevelopment, stack)
    case Other(m) =>
      Fallback(m, isDevelopment, stack)
  }

  /** the answer to every error the cascade does not recognise */
  function Fallback(message: string, isDevelopment: bool, stack: Option<string>): (r: ErrorResponse)
    ensures r.httpStatus == 500
    ensures isDevelopment ==> r.message == message && r.stack == stack
    ensures !isDevelopment ==> r.message == ServerError && r.stack.None?
  {
    ErrorHandler.ErrorResponse(500, if isDevelopment then message else ServerError, None, if isDevelopment then stack else None, None)
  }

  /** `notFoundHandler(req, res)` */
  function NotFound(requestPath: string): (r: ErrorResponse)
    ensures r.httpStatus == 404 && r.path == Some(requestPath) && r.message == RouteNotFound
  {
    ErrorHandler.ErrorResponse(404, RouteNotFound, None, None, Some(requestPath))
  }

  /** A validation error answers 400 'Validation failed' with one entry per issue, in order. */
  lemma ZodOneEntryPerIssue(issues: seq<Issue>, isDevelopment: bool, stack: Option<string>)
    ensures var r := Handle(Zod(issues), isDevelopment, stack);
            && r.httpStatus == 400 && r.message == ValidationFailed
            && r.errors == Some(ErrorHandler.IssueBodies(issues))
  {
  }

  /** A unique-constraint violation names the first target, or 'field' when there is none. */
  lemma UniqueViolationNamesField(target: Option<seq<string>>, m: string, isDevelopment: bool, stack: Option<string>)
    ensures var r := Handle(PrismaKnown("P2002", target, m), isDevelopment, stack);
            && r.httpStatus == 409
            && (target.Some? && |target.value| > 0 && target.value[0] != "" ==> r.message == target.value[0] + " already exists")
            && ((target.None? || target == Some([])) ==> r.message == "field already exists")
  {
  }

  /**
   * The two error handlers agree on every status code, on whether an
   * `errors` list and a stack are sent, and differ only in the wording.
   */
  lemma AgreesWithFeatureHandler(err: Thrown, isDevelopment: bool, stack: Option<string>)
    ensures var legacy := Handle(err, isDevelopment, stack);
            var shared := ErrorHandler.Handle(err, isDevelopment, stack);
            && legacy.httpStatus == shared.httpStatus
            && legacy.errors == shared.errors
            && legacy.stack == shared.stack
            && (err.Custom? ==> legacy.message == shared.message)
  {
  }
}
