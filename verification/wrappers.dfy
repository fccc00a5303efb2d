/** The optional-value datatype used wherever JavaScript has `undefined` or `null`. */
module Wrappers {

  datatype Option<+T> = None | Some(value: T) {

    /** The wrapped value, or `default` when there is none (JavaScript's `x ?? default`). */
    function GetOr(default: T): T
    {
      match this
      case Some(v) => v
      case None => default
    }
  }
}

/**
 * The error taxonomy of the backend. Each named kind is one of the application's
 * error classes; `Unmapped` stands for an exception that reaches the error handler
 * without a `statusCode` property (a driver error, a library error, a plain `Error`).
 */
module Errors {
  import opened Wrappers

  /** Where an unmapped exception comes from. */
  datatype Cause =
    | DuplicateKey       // MongoDB E11000 raised by `save`
    | SchemaViolation    // Mongoose ValidationError that no handler remaps
    | TokenVerification  // jsonwebtoken's JsonWebTokenError / TokenExpiredError
    | CorsRejected       // the `Error('Not allowed by CORS')` of the CORS callback
    | NoCsrfGenerator    // `generateCsrfToken` found no generator function
    | StoreFailure       // any other persistence error
    | UploadParsing      // an error of the multipart parser in front of the upload handler
    | CastFailure        // Mongoose CastError (a malformed id or number) that no handler remaps
    | PatternSyntax      // the SyntaxError of `new RegExp` on an invalid pattern
    | TypeFailure        // a TypeError from reading a property of null or undefined

  datatype ErrorKind =
    | BadRequest
    | Unauthorized
    | Forbidden
    | NotFound
    | Conflict
    | InvalidCsrfToken
    | Unmapped(cause: Cause)

  /** The `statusCode` property the error object carries, if any. */
  function StatusCode(e: ErrorKind): (r: Option<int>)
    ensures r.None? <==> e.Unmapped?
    ensures r.Some? ==> 400 <= r.value < 500
  {
    match e
    case BadRequest => Some(400)
    case Unauthorized => Some(401)
    case Forbidden => Some(403)
    case NotFound => Some(404)
    case Conflict => Some(409)
    case InvalidCsrfToken => Some(403)
    case Unmapped(_) => None
  }

  /** A handler's result: a value, or the error it passes to `next`. */
  datatype Result<+T> = Ok(value: T) | Err(error: ErrorKind) {
    predicate IsFailure() { Err? }

    function PropagateFailure<U>(): Result<U>
      requires Err?
    {
      Err(error)
    }

    function Extract(): T
      requires Ok?
    {
      value
    }
  }
}
