/**
 * The application's error hierarchy: every error the services throw
 * deliberately carries an HTTP status code, an "operational" flag and a
 * message, and each subclass fixes the status code and a default message.
 */
module CustomErrors {
  import opened Wrappers

  /** `CustomError` and its subclasses */
  datatype ErrorClass =
    | Base
    | BadRequest
    | Unauthorized
    | Forbidden
    | NotFound
    | Conflict
    | InternalServer

  datatype CustomError = CustomError(cls: ErrorClass, message: string, statusCode: int, isOperational: bool)

  /** the status code a subclass passes to the base constructor (the base class defaults to 500) */
  function StatusOf(cls: ErrorClass): int {
    match cls
    case Base => 500
    case BadRequest => 400
    case Unauthorized => 401
    case Forbidden => 403
    case NotFound => 404
    case Conflict => 409
    case InternalServer => 500
  }

  /** the message a subclass uses when none is supplied */
  function DefaultMessage(cls: ErrorClass): string
    requires cls != Base
  {
    match cls
    case BadRequest => "Bad Request"
    case Unauthorized => "Unauthorized"
    case Forbidden => "Forbidden"
    case NotFound => "Resource not found"
    case Conflict => "Conflict"
    case InternalServer => "Internal Server Error"
  }

  /** `new CustomError(message, statusCode?, isOperational?)` */
  function NewBase(message: string, statusCode: Option<int>, isOperational: Option<bool>): (e: CustomError)
    ensures e.cls == Base && e.message == message
    ensures statusCode.None? ==> e.statusCode == 500
    ensures statusCode.Some? ==> e.statusCode == statusCode.value
    ensures isOperational.None? ==> e.isOperational
    ensures isOperational.Some? ==> e.isOperational == isOperational.value
  {
    CustomError(Base, message, statusCode.GetOr(500), isOperational.GetOr(true))
  }

  /** `new BadRequestError(message?)`, `new NotFoundError(message?)`, ... */
  function New(cls: ErrorClass, message: Option<string>): (e: CustomError)
    requires cls != Base
    ensures e.cls == cls
    ensures message.Some? ==> e.message == message.value
    ensures message.None? ==> e.message == DefaultMessage(cls)
    ensures e.statusCode == StatusOf(cls)
    ensures e.isOperational <==> cls != InternalServer
  {
    CustomError(cls, message.GetOr(DefaultMessage(cls)), StatusOf(cls), cls != InternalServer)
  }

  /** The client-error subclasses carry 4xx codes; only the server-error one is non-operational. */
  lemma StatusCodeClasses(cls: ErrorClass, message: Option<string>)
    requires cls != Base
    ensures var e := New(cls, message);
            && (cls in {BadRequest, Unauthorized, Forbidden, NotFound, Conflict} ==> 400 <= e.statusCode < 500 && e.isOperational)
            && (cls == InternalServer ==> e.statusCode == 500 && !e.isOperational)
  {
  }

  /** a key of a validation issue's path: an object key or an array index */
  datatype PathKey = Key(name: string) | Index(i: nat)

  /** one zod validation issue */
  datatype Issue = Issue(path: seq<PathKey>, message: string)

  /**
   * Anything a request handler can throw that the error handler tells apart:
   * the application's own errors, zod validation errors, Prisma's known
   * request errors (with their error code and `meta.target`), and everything else.
   * `Custom` is one class for every module that exports `CustomError`: each
   * handler's `instanceof` test is taken to recognise all of them.
   */
  datatype Thrown =
    | Custom(error: CustomError)
    | Zod(issues: seq<Issue>)
    | PrismaKnown(code: string, target: Option<seq<string>>, prismaMessage: string)
    | Other(otherMessage: string)
}
