/** The retry decorator and the request handler of api/decorators.py. */
module Decorators {
  import opened Errors

  /** The `to_catch` argument: omitted (`None`), a single exception class, or
      a tuple of classes. */
  datatype CatchArg = NoCatch | CatchType(t: ExcType) | CatchTuple(ts: seq<ExcType>)

  /** The `retries` argument: an `int`, or a value of some other type. */
  datatype RetriesArg = IntArg(n: int) | OtherArg

  /** The configuration a successfully built decorator closes over. */
  datatype RetryPolicy = RetryPolicy(toCatch: seq<ExcType>, toRaise: ExcType, errorMessage: string, retries: int)

  predicate ValidPolicy(p: RetryPolicy) {
    p.retries >= 1 && |p.toCatch| > 0
  }

  const RETRIES_ERROR := Builtin("ValueError", "retries must be a positive integer")

  /** `to_catch = to_catch or (Exception,)`, then a lone class is wrapped in a
      tuple. `None` and the empty tuple are the falsy arguments. */
  function NormaliseCatch(toCatch: CatchArg): (ts: seq<ExcType>)
    ensures |ts| > 0
  {
    match toCatch
    case NoCatch => [ExceptionType]
    case CatchType(t) => [t]
    case CatchTuple(ts) => if ts == [] then [ExceptionType] else ts
  }

  /** `except to_catch`: `e` is an instance of some class of the tuple. */
  predicate Caught(e: Exception, toCatch: seq<ExcType>) {
    exists i :: 0 <= i < |toCatch| && IsInstance(e, toCatch[i])
  }

  /** An omitted or empty `to_catch` catches every exception; a single class
      catches exactly its instances; an explicit tuple is kept as given. */
  lemma CatchDefaults(e: Exception, t: ExcType, ts: seq<ExcType>)
    ensures Caught(e, NormaliseCatch(NoCatch)) && Caught(e, NormaliseCatch(CatchTuple([])))
    ensures Caught(e, NormaliseCatch(CatchType(t))) <==> IsInstance(e, t)
    ensures ts != [] ==> NormaliseCatch(CatchTuple(ts)) == ts
  {
    assert IsInstance(e, NormaliseCatch(NoCatch)[0]);
    assert IsInstance(e, NormaliseCatch(CatchTuple([]))[0]);
  }

  /** `retry(to_catch, to_raise, error_message, retries)`: building the
      decorator checks `retries` and normalises `to_catch`. */
  function Retry(toCatch: CatchArg := NoCatch, toRaise: ExcType := ExceptionType,
                 errorMessage: string := "An unexpected error has occurred",
                 retries: RetriesArg := IntArg(3)): (r: Outcome<RetryPolicy>)
    ensures r.Raised? <==> (retries.OtherArg? || retries.n < 1)
    ensures r.Raised? ==> r.exc == RETRIES_ERROR
    ensures r.Ok? ==> ValidPolicy(r.value) && r.value.retries == retries.n
    ensures r.Ok? ==> r.value.toRaise == toRaise && r.value.errorMessage == errorMessage
    ensures r.Ok? ==> r.value.toCatch == NormaliseCatch(toCatch)
  {
    if retries.OtherArg? || retries.n < 1 then Raised(RETRIES_ERROR)
    else Ok(RetryPolicy(NormaliseCatch(toCatch), toRaise, errorMessage, retries.n))
  }

  /** An attempt ends the retry loop when it returns, or when it raises an
      exception the policy does not catch. */
  predicate Stops<T>(o: Outcome<T>, toCatch: seq<ExcType>) {
    o.Ok? || !Caught(o.exc, toCatch)
  }

  /** The specification of a retried call allowed `attempts` attempts, where
      `f(j)` is what the call numbered `j` (from 0) does: the wrapper makes
      `calls` calls, the last of them the first attempt that stops; it
      returns or propagates that attempt's outcome, and when every allowed
      attempt raised a caught exception it raises `to_raise(error_message)`. */
  ghost predicate RetryResult<T>(p: RetryPolicy, f: nat -> Outcome<T>, attempts: nat, r: Outcome<T>, calls: nat) {
    && 1 <= calls <= attempts
    && (forall j :: 0 <= j < calls - 1 ==> !Stops(f(j), p.toCatch))
    && (if Stops(f(calls - 1), p.toCatch) then r == f(calls - 1)
        else calls == attempts && r == Raised(Construct(p.toRaise, p.errorMessage)))
  }

  /** A retried call has exactly one outcome and one number of calls. */
  lemma RetryResultIsUnique<T>(p: RetryPolicy, f: nat -> Outcome<T>, attempts: nat,
                               r1: Outcome<T>, c1: nat, r2: Outcome<T>, c2: nat)
    requires RetryResult(p, f, attempts, r1, c1) && RetryResult(p, f, attempts, r2, c2)
    ensures r1 == r2 && c1 == c2
  {
  }

  /** When the attempts before `k` all raise caught exceptions and attempt `k`
      stops, the wrapper returns attempt `k`'s outcome after `k + 1` calls,
      provided `k` is within the allowance. */
  lemma FirstStopWins<T>(p: RetryPolicy, f: nat -> Outcome<T>, attempts: nat, k: nat, r: Outcome<T>, calls: nat)
    requires k < attempts
    requires forall j :: 0 <= j < k ==> !Stops(f(j), p.toCatch)
    requires Stops(f(k), p.toCatch)
    requires RetryResult(p, f, attempts, r, calls)
    ensures r == f(k) && calls == k + 1
  {
  }

  /** When every allowed attempt raises a caught exception, the wrapper makes
      all of them and raises `to_raise(error_message)`. */
  lemma AllCaughtExhausts<T>(p: RetryPolicy, f: nat -> Outcome<T>, attempts: nat, r: Outcome<T>, calls: nat)
    requires forall j :: 0 <= j < attempts ==> !Stops(f(j), p.toCatch)
    requires RetryResult(p, f, attempts, r, calls)
    ensures calls == attempts && r == Raised(Construct(p.toRaise, p.errorMessage))
  {
    assert !Stops(f(calls - 1), p.toCatch);
  }

  /** `f_retry`: the loop `for retry in range(retries - 1, -1, -1)`, which
      runs `retries` times. `f(j)` stands for the `j`-th invocation of the
      decorated function. */
  method FRetry<T>(p: RetryPolicy, f: nat -> Outcome<T>) returns (r: Outcome<T>, calls: nat)
    requires ValidPolicy(p)
    ensures RetryResult(p, f, p.retries, r, calls)
  {
    calls := 0;
    for retry := p.retries downto 0
      invariant calls == p.retries - retry
      invariant retry == 0 ==> calls == 0
      invariant forall j :: 0 <= j < calls ==> !Stops(f(j), p.toCatch)
    {
      var o := f(calls);
      calls := calls + 1;
      match o {
        case Ok(_) =>
          return o, calls;
        case Raised(e) =>
          if !Caught(e, p.toCatch) {
            return o, calls;
          }
          if retry != 0 {
            continue;
          }
          return Raised(Construct(p.toRaise, p.errorMessage)), calls;
      }
    }
    assert false;
  }

  /** A body of an HTTP response. */
  datatype Body = Json(key: string, value: string) | Text(content: string)

  datatype Response = Response(status: int, body: Body)

  const UNEXPECTED_PREFIX := "An unexpected error occurred while processing request: "

  /** `request_handler`: a view's own response passes through; an `AppError`
      becomes a JSON response with its status code and `{"App error": str(e)}`;
      any other exception becomes a 500 response naming it. */
  function RequestHandler(o: Outcome<Response>): (resp: Response)
    ensures o.Ok? ==> resp == o.value
    ensures o.Raised? && o.exc.App? ==> resp == Response(StatusCode(o.exc.error), Json("App error", Message(o.exc.error)))
    ensures o.Raised? && !o.exc.App? ==> resp == Response(500, Text(UNEXPECTED_PREFIX + Str(o.exc)))
  {
    match o
    case Ok(resp) => resp
    case Raised(App(err)) => Response(StatusCode(err), Json("App error", Message(err)))
    case Raised(e) => Response(500, Text(UNEXPECTED_PREFIX + Str(e)))
  }

  /** The HTTP statuses of the service's failures: 400 for an invalid URL,
      404 for an unknown key, 410 for an expired one, and 500 for an
      exhausted allocation or any exception outside the hierarchy. */
  lemma FailureStatuses(url: string, message: string, e: Exception)
    ensures RequestHandler(Raised(App(InvalidUrl(url)))).status == 400
    ensures RequestHandler(Raised(App(UrlNotFound(url)))).status == 404
    ensures RequestHandler(Raised(App(ExpiredUrl(url)))).status == 410
    ensures RequestHandler(Raised(Construct(AppErrorType, message))) == Response(500, Json("App error", message))
    ensures !e.App? ==> RequestHandler(Raised(e)).status == 500 && RequestHandler(Raised(e)).body.Text?
  {
  }
}
