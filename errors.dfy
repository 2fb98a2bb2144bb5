/** The application's exception hierarchy (api/errors.py) and the slice of
    Python's exception model that the retry decorator and the request handler
    rely on: `isinstance`, calling an exception class with a message, and
    `str(e)`. */
module Errors {

  /** An `AppError` or one of its four subclasses. `ShortUrlTaken` inherits
      `AppError.__init__`, so it takes the same (defaulted) arguments. */
  datatype AppError =
    | AppError(message: string := "", statusCode: int := 500)
    | InvalidUrl(url: string)
    | UrlNotFound(url: string)
    | ExpiredUrl(url: string)
    | ShortUrlTaken(message: string := "", statusCode: int := 500)

  /** `e.status_code`. */
  function StatusCode(e: AppError): int {
    match e
    case AppError(_, code) => code
    case InvalidUrl(_) => 400
    case UrlNotFound(_) => 404
    case ExpiredUrl(_) => 410
    case ShortUrlTaken(_, code) => code
  }

  /** `str(e)`: the message handed to `Exception.__init__`. */
  function Message(e: AppError): string {
    match e
    case AppError(m, _) => m
    case InvalidUrl(url) => if url != "" then "URL " + url + " is invalid" else "Please provide a URL"
    case UrlNotFound(url) => "URL " + url + " not found or has expired"
    case ExpiredUrl(url) => "URL " + url + " has expired"
    case ShortUrlTaken(m, _) => m
  }

  /** An exception value: an application error, a plain `Exception`, or an
      instance of some other built-in or library exception class (ValueError,
      IntegrityError, FileNotFoundError, ...) named by `name`. */
  datatype Exception =
    | App(error: AppError)
    | Plain(text: string)
    | Builtin(name: string, text: string)

  /** An exception class. `BuiltinType(n)` names a direct subclass of
      `Exception` outside the application's hierarchy. */
  datatype ExcType =
    | ExceptionType
    | BuiltinType(name: string)
    | AppErrorType
    | InvalidUrlType
    | UrlNotFoundType
    | ExpiredUrlType
    | ShortUrlTakenType

  /** `type(e)`. */
  function TypeOf(e: Exception): ExcType {
    match e
    case Plain(_) => ExceptionType
    case Builtin(n, _) => BuiltinType(n)
    case App(err) =>
      match err
      case AppError(_, _) => AppErrorType
      case InvalidUrl(_) => InvalidUrlType
      case UrlNotFound(_) => UrlNotFoundType
      case ExpiredUrl(_) => ExpiredUrlType
      case ShortUrlTaken(_, _) => ShortUrlTakenType
  }

  /** `issubclass(t, u)` for the classes of the model. */
  predicate IsSubclass(t: ExcType, u: ExcType) {
    t == u
    || u == ExceptionType
    || (u == AppErrorType && t in {InvalidUrlType, UrlNotFoundType, ExpiredUrlType, ShortUrlTakenType})
  }

  /** `isinstance(e, t)`. */
  predicate IsInstance(e: Exception, t: ExcType) {
    IsSubclass(TypeOf(e), t)
  }

  /** `str(e)`. */
  function Str(e: Exception): string {
    match e
    case App(err) => Message(err)
    case Plain(s) => s
    case Builtin(_, s) => s
  }

  /** `t(message)`: calling the class `t` with one positional argument. The
      three URL errors take that argument as the URL their message mentions;
      every other class takes it as the message itself. */
  function Construct(t: ExcType, message: string): (e: Exception)
    ensures TypeOf(e) == t
    ensures t !in {InvalidUrlType, UrlNotFoundType, ExpiredUrlType} ==> Str(e) == message
    ensures IsSubclass(t, AppErrorType) <==> e.App?
  {
    match t
    case ExceptionType => Plain(message)
    case BuiltinType(n) => Builtin(n, message)
    case AppErrorType => App(AppError(message))
    case InvalidUrlType => App(InvalidUrl(message))
    case UrlNotFoundType => App(UrlNotFound(message))
    case ExpiredUrlType => App(ExpiredUrl(message))
    case ShortUrlTakenType => App(ShortUrlTaken(message))
  }

  /** The outcome of a Python call: a returned value or a raised exception. */
  datatype Outcome<+T> = Ok(value: T) | Raised(exc: Exception)

  /** Every application error is an `AppError` and an `Exception`; a plain
      exception or a built-in one is not an `AppError`. */
  lemma HierarchyFacts(e: Exception)
    ensures IsInstance(e, ExceptionType)
    ensures IsInstance(e, AppErrorType) <==> e.App?
  {
  }

  /** `AppError()` and `ShortUrlTaken()` are server errors with an empty
      message; the three URL errors carry the distinct client-error codes 400,
      404 and 410 whatever the URL. */
  lemma StatusCodeTaxonomy(url: string)
    ensures StatusCode(AppError()) == 500 && Message(AppError()) == ""
    ensures StatusCode(ShortUrlTaken()) == 500 && Message(ShortUrlTaken()) == ""
    ensures StatusCode(InvalidUrl(url)) == 400
    ensures StatusCode(UrlNotFound(url)) == 404
    ensures StatusCode(ExpiredUrl(url)) == 410
  {
  }

  /** The message of `InvalidUrl(url)` quotes a non-empty URL and asks for one
      when it is empty; the message of `UrlNotFound(url)` always quotes it. */
  lemma UrlMessagesQuoteTheUrl(url: string)
    ensures url != "" ==> Message(InvalidUrl(url))[4..4 + |url|] == url
    ensures url == "" ==> Message(InvalidUrl(url)) == "Please provide a URL"
    ensures Message(UrlNotFound(url))[4..4 + |url|] == url
    ensures Message(ExpiredUrl(url))[4..4 + |url|] == url
  {
  }
}
