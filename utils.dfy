/** The older copy of the retry decorator in api/utils.py. Its argument checks
    and its request handler are the same as in api/decorators.py and share
    their model (`Decorators.Retry`, `Decorators.RequestHandler`); its loop
    starts one higher. */
module Utils {
  import opened Errors
  import opened Decorators

  /** `f_retry` of api/utils.py: the loop `for retry in range(retries, -1, -1)`,
      which runs `retries + 1` times. */
  method FRetry<T>(p: RetryPolicy, f: nat -> Outcome<T>) returns (r: Outcome<T>, calls: nat)
    requires ValidPolicy(p)
    ensures RetryResult(p, f, p.retries + 1, r, calls)
  {
    calls := 0;
    for retry := p.retries + 1 downto 0
      invariant calls == p.retries + 1 - retry
      invariant retry == 0 ==> calls == 0
      invariant forall j :: 0 <= j < calls ==> !Stops(f(j), p.toCatch)
    {
      var o := f(calls);
      calls := calls + 1;
      match o {
        case Ok(_) =>
          return o, calls;
        case Raised(e) =>
          if !Caught(e, p.toCatch) {
            return o, calls;
          }
          if retry != 0 {
            continue;
          }
          return Raised(Construct(p.toRaise, p.errorMessage)), calls;
      }
    }
    assert false;
  }

  /** The two loops disagree only when every attempt fails: against a function
      that always raises a caught exception, api/decorators.py calls it
      `retries` times and api/utils.py `retries + 1` times, and both then
      raise the same `to_raise(error_message)`. */
  lemma UtilsRetriesOnceMore<T>(p: RetryPolicy, f: nat -> Outcome<T>,
                                r1: Outcome<T>, c1: nat, r2: Outcome<T>, c2: nat)
    requires ValidPolicy(p)
    requires forall j :: !Stops(f(j), p.toCatch)
    requires RetryResult(p, f, p.retries, r1, c1)
    requires RetryResult(p, f, p.retries + 1, r2, c2)
    ensures c1 == p.retries && c2 == p.retries + 1
    ensures r1 == r2 == Raised(Construct(p.toRaise, p.errorMessage))
  {
    AllCaughtExhausts(p, f, p.retries, r1, c1);
    AllCaughtExhausts(p, f, p.retries + 1, r2, c2);
  }

  /** Otherwise they agree: when some attempt `k < retries` stops, both return
      its outcome after `k + 1` calls. */
  lemma VariantsAgreeWithinAllowance<T>(p: RetryPolicy, f: nat -> Outcome<T>, k: nat,
                                        r1: Outcome<T>, c1: nat, r2: Outcome<T>, c2: nat)
    requires k < p.retries
    requires forall j :: 0 <= j < k ==> !Stops(f(j), p.toCatch)
    requires Stops(f(k), p.toCatch)
    requires RetryResult(p, f, p.retries, r1, c1)
    requires RetryResult(p, f, p.retries + 1, r2, c2)
    ensures r1 == r2 == f(k) && c1 == c2 == k + 1
  {
    FirstStopWins(p, f, p.retries, k, r1, c1);
    FirstStopWins(p, f, p.retries + 1, k, r2, c2);
  }
}
