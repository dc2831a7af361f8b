/**
 * The Express error middleware of the feature-based code base
 * (src/shared/middlewares/error-handler.ts): a cascade from the kind of the
 * thrown value to an HTTP status and a JSON body with Korean messages.
 * `NODE_ENV === 'development'` is the parameter `isDevelopment`; `err.stack`
 * is the parameter `stack` (absent when the runtime attached none).
 */
module ErrorHandler {
  import opened Wrappers
  import opened JsText
  import opened CustomErrors

  /** one entry of the body's `errors` list */
  datatype IssueBody = IssueBody(path: string, message: string)

  /** the HTTP status and the JSON body `{status: 'error', message, errors?, stack?, path?}` */
  datatype ErrorResponse = ErrorResponse(
    httpStatus: int,
    message: string,
    errors: Option<seq<IssueBody>>,
    stack: Option<string>,
    path: Option<string>)

  const DefaultZodMessage := "입력값이 올바르지 않습니다"
  const DefaultField := "필드"
  const RelatedNotFound := "연관된 리소스를 찾을 수 없습니다"
  const RecordNotFound := "요청한 리소스를 찾을 수 없습니다"
  const ServerError := "서버 오류가 발생했습니다"
  const RouteNotFound := "요청한 경로를 찾을 수 없습니다"

  /** `issue.path.join('.')`: keys verbatim, array indices in decimal */
  function PathText(path: seq<PathKey>): (s: string)
    ensures path == [] ==> s == ""
    ensures |path| == 1 ==> s == ShowKey(path[0])
  {
    Join(seq(|path|, i requires 0 <= i < |path| => ShowKey(path[i])), '.')
  }

  function ShowKey(k: PathKey): string {
    match k
    case Key(name) => name
    case Index(i) => NatToString(i)
  }

  /** the body's `errors` list: one entry per issue, in order */
  function IssueBodies(issues: seq<Issue>): (r: seq<IssueBody>)
    ensures |r| == |issues|
    ensures forall i :: 0 <= i < |issues| ==> r[i] == IssueBody(PathText(issues[i].path), issues[i].message)
  {
    seq(|issues|, i requires 0 <= i < |issues| => IssueBody(PathText(issues[i].path), issues[i].message))
  }

  /** the main message of a validation error: the first issue as "path: message" */
  function ZodMainMessage(issues: seq<Issue>): string {
    if issues == [] then DefaultZodMessage
    else
      var p := PathText(issues[0].path);
      (if p != "" then p + ": " else "") + issues[0].message
  }

  /** the Korean display name of a unique-constraint field */
  function FieldName(field: string): string {
    if field == "email" then "이메일"
    else if field == "employeeNumber" then "사원번호"
    else if field == "phoneNumber" then "전화번호"
    else if field == "companyCode" then "기업코드"
    else field
  }

  /** `target[0] || '필드'`, with a missing target read as `[]` */
  function TargetField(target: Option<seq<string>>): string {
    if target.Some? && |target.value| > 0 && target.value[0] != "" then target.value[0] else DefaultField
  }

  /** the Prisma error codes the cascade answers with a client status */
  predicate IsHandledPrismaCode(code: string) {
    code == "P2002" || code == "P2003" || code == "P2025"
  }

  /** `errorHandler(err, req, res, next)` */
  function Handle(err: Thrown, isDevelopment: bool, stack: Option<string>): (r: ErrorResponse)
    ensures r.path.None?
    ensures r.errors.Some? <==> err.Zod?
    ensures r.stack.Some? ==> isDevelopment && r.stack == stack
  {
    match err
    case Custom(e) =>
      ErrorResponse(e.statusCode, e.message, None, if isDevelopment then stack else None, None)
    case Zod(issues) =>
      ErrorResponse(400, ZodMainMessage(issues), Some(IssueBodies(issues)), None, None)
    case PrismaKnown(code, target, m) =>
      if code == "P2002" then
        ErrorResponse(409, "이미 사용 중인 " + FieldName(TargetField(target)) + "입니다", None, None, None)
      else if code == "P2003" then
        ErrorResponse(400, RelatedNotFound, None, None, None)
      else if code == "P2025" then
        ErrorResponse(404, RecordNotFound, None, None, None)
      else
        Fallback(m, isDevelopment, stack)
    case Other(m) =>
      Fallback(m, isDevelopment, stack)
  }

  /** the answer to every error the cascade does not recognise */
  function Fallback(message: string, isDevelopment: bool, stack: Option<string>): (r: ErrorResponse)
    ensures r.httpStatus == 500
    ensures isDevelopment ==> r.message == message && r.stack == stack
    ensures !isDevelopment ==> r.message == ServerError && r.stack.None?
  {
    ErrorResponse(500, if isDevelopment then message else ServerError, None, if isDevelopment then stack else None, None)
  }

  /** `notFoundHandler(req, res)` */
  function NotFound(requestPath: string): (r: ErrorResponse)
    ensures r.httpStatus == 404 && r.path == Some(requestPath) && r.message == RouteNotFound
  {
    ErrorResponse(404, RouteNotFound, None, None, Some(requestPath))
  }

  /** The status the cascade picks for each kind of thrown value. */
  function StatusFor(err: Thrown): int {
    match err
    case Custom(e) => e.statusCode
    case Zod(_) => 400
    case PrismaKnown(code, _, _) =>
      if code == "P2002" then 409 else if code == "P2003" then 400 else if code == "P2025" then 404 else 500
    case Other(_) => 500
  }

  /** Application errors keep their own status and message, and carry the stack only in development. */
  lemma CustomErrorsPassThrough(e: CustomError, isDevelopment: bool, stack: Option<string>)
    ensures var r := Handle(Custom(e), isDevelopment, stack);
            && r.httpStatus == e.statusCode && r.message == e.message
            && r.stack == (if isDevelopment then stack else None)
  {
  }

  /** The status depends only on the kind of error, never on the environment or the stack. */
  lemma StatusIsClassification(err: Thrown, isDevelopment: bool, stack: Option<string>)
    ensures Handle(err, isDevelopment, stack).httpStatus == StatusFor(err)
  {
  }

  /**
   * Anything that is neither an application error, nor a validation error,
   * nor one of the three recognised Prisma codes is a 500, and outside
   * development neither its message nor its stack reaches the client.
   */
  lemma UnrecognisedIsServerError(err: Thrown, isDevelopment: bool, stack: Option<string>)
    requires err.Other? || (err.PrismaKnown? && !IsHandledPrismaCode(err.code))
    ensures var r := Handle(err, isDevelopment, stack);
            && r.httpStatus == 500
            && (!isDevelopment ==> r.message == ServerError && r.stack.None?)
            && (isDevelopment ==> r.stack == stack)
  {
  }

  /** A validation error answers 400 with one `errors` entry per issue, in order. */
  lemma ZodOneEntryPerIssue(issues: seq<Issue>, isDevelopment: bool, stack: Option<string>)
    ensures var r := Handle(Zod(issues), isDevelopment, stack);
            && r.httpStatus == 400 && r.errors.Some? && |r.errors.value| == |issues|
            && (forall i :: 0 <= i < |issues| ==> r.errors.value[i].message == issues[i].message)
  {
  }

  /** The main validation message is the first issue, prefixed by its path when that path is not empty. */
  lemma ZodMessageIsFirstIssue(issues: seq<Issue>)
    ensures issues == [] ==> ZodMainMessage(issues) == DefaultZodMessage
    ensures issues != [] && PathText(issues[0].path) == "" ==> ZodMainMessage(issues) == issues[0].message
    ensures issues != [] && PathText(issues[0].path) != "" ==>
              ZodMainMessage(issues) == PathText(issues[0].path) + ": " + issues[0].message
  {
  }

  /** A single-key path is shown as that key: `["email"]` gives "email: ..." */
  lemma ZodMessageSingleKey(name: string, message: string)
    requires name != ""
    ensures ZodMainMessage([Issue([Key(name)], message)]) == name + ": " + message
  {
  }

  /**
   * A unique-constraint violation answers 409 naming the field: the Korean
   * name of the four known fields, the raw first target otherwise, and
   * '필드' when there is no usable target.
   */
  lemma UniqueViolationNamesField(target: Option<seq<string>>, m: string, isDevelopment: bool, stack: Option<string>)
    ensures var r := Handle(PrismaKnown("P2002", target, m), isDevelopment, stack);
            && r.httpStatus == 409
            && r.message == "이미 사용 중인 " + FieldName(TargetField(target)) + "입니다"
    ensures target == Some(["email"]) ==> Handle(PrismaKnown("P2002", target, m), isDevelopment, stack).message == "이미 사용 중인 이메일입니다"
    ensures (target.None? || target == Some([])) ==> Handle(PrismaKnown("P2002", target, m), isDevelopment, stack).message == "이미 사용 중인 필드입니다"
    ensures target.Some? && |target.value| > 0 && target.value[0] !in {"", "email", "employeeNumber", "phoneNumber", "companyCode"} ==>
              Handle(PrismaKnown("P2002", target, m), isDevelopment, stack).message == "이미 사용 중인 " + target.value[0] + "입니다"
  {
  }
}
