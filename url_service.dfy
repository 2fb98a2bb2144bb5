/** The service functions of api/services/url_service.py over the `Url`
    table. Randomness, the clock and Django's URL validator are parameters:
    `draws` are the alphabet positions `random.choice` picks, `now` is
    `timezone.now()`, and `isUrlValid` is the validator. */
module UrlService {
  import opened Consts
  import opened Errors
  import opened Models
  import opened Decorators

  /** One key's worth of random picks: a position in the alphabet per character. */
  type Draws = d: seq<nat> | |d| == SHORT_URL_LENGTH && forall i :: 0 <= i < |d| ==> d[i] < |ALLOWED_CHARACTERS|
    witness [0, 0, 0, 0, 0, 0, 0]

  /** Django's `URLValidator`, assumed only to reject the empty string. */
  type UrlValidator = v: string -> bool | !v("") witness (s: string) => false

  /** `_generate_short_url`: `SHORT_URL_LENGTH` characters chosen from the alphabet. */
  function GenerateShortUrl(draws: Draws): (key: string)
    ensures IsShortKey(key)
    ensures forall i :: 0 <= i < |key| ==> key[i] == ALLOWED_CHARACTERS[draws[i]]
  {
    AlphabetLayout();
    var key := seq(SHORT_URL_LENGTH, i requires 0 <= i < SHORT_URL_LENGTH => ALLOWED_CHARACTERS[draws[i]]);
    AllAlphanumericAt(key);
    key
  }

  /** Every short key can be drawn, and by exactly one choice of positions:
      the generator is a bijection between draws and short keys. */
  lemma GeneratorIsBijective(key: string, d1: Draws, d2: Draws)
    requires IsShortKey(key)
    ensures exists d: Draws :: GenerateShortUrl(d) == key
    ensures GenerateShortUrl(d1) == GenerateShortUrl(d2) ==> d1 == d2
  {
    AlphabetFacts();
    AlphabetLayout();
    AllAlphanumericAt(key);
    var d := seq(SHORT_URL_LENGTH, i requires 0 <= i < SHORT_URL_LENGTH => AlphabetIndex(key[i]));
    assert GenerateShortUrl(d) == key;
    if GenerateShortUrl(d1) == GenerateShortUrl(d2) {
      forall i | 0 <= i < SHORT_URL_LENGTH ensures d1[i] == d2[i] {
        assert GenerateShortUrl(d1)[i] == GenerateShortUrl(d2)[i];
      }
    }
  }

  /** `_get_url_entry_from_short_url`: the row with that key, or `UrlNotFound`. */
  method GetUrlEntryFromShortUrl(table: Table, shortUrl: string) returns (r: Outcome<Url>)
    ensures shortUrl in table.records ==> r == Ok(table.records[shortUrl])
    ensures shortUrl !in table.records ==> r == Raised(App(UrlNotFound(shortUrl)))
  {
    if shortUrl in table.records {
      r := Ok(table.records[shortUrl]);
    } else {
      r := Raised(App(UrlNotFound(shortUrl)));
    }
  }

  /** `get_redirect_url`: an unknown key raises `UrlNotFound` and an expired
      record `ExpiredUrl`, both leaving the table as it was; a live record has
      its hit count raised by one and its long URL returned. */
  method GetRedirectUrl(table: Table, shortUrl: string, now: int) returns (r: Outcome<string>)
    requires table.Valid()
    modifies table
    ensures table.Valid()
    ensures shortUrl !in old(table.records) ==>
      r == Raised(App(UrlNotFound(shortUrl))) && table.records == old(table.records)
    ensures shortUrl in old(table.records) && IsExpired(old(table.records)[shortUrl], now) ==>
      r == Raised(App(ExpiredUrl(shortUrl))) && table.records == old(table.records)
    ensures shortUrl in old(table.records) && !IsExpired(old(table.records)[shortUrl], now) ==>
      r == Ok(old(table.records)[shortUrl].long)
      && table.records == old(table.records)[shortUrl := WithHit(old(table.records)[shortUrl])]
  {
    var entry := GetUrlEntryFromShortUrl(table, shortUrl);
    if entry.Raised? {
      return Raised(entry.exc);
    }
    var url := entry.value;
    if IsExpired(url, now) {
      return Raised(App(ExpiredUrl(url.short)));
    }
    table.Save(WithHit(url));
    r := Ok(url.long);
  }

  const CLASH_ERROR_MESSAGE := "Error generating short URL, please try again momentarily"

  /** The policy `_create_url_entry_with_retry` is decorated with. */
  const CLASH_RETRY: RetryPolicy :=
    Retry(CatchType(ShortUrlTakenType), AppErrorType, CLASH_ERROR_MESSAGE, IntArg(MAX_RETRIES_FOR_URL_CLASH)).value

  lemma ClashRetryPolicy()
    ensures ValidPolicy(CLASH_RETRY) && CLASH_RETRY.retries == MAX_RETRIES_FOR_URL_CLASH
    ensures forall e :: Caught(e, CLASH_RETRY.toCatch) <==> e.App? && e.error.ShortUrlTaken?
    ensures Construct(CLASH_RETRY.toRaise, CLASH_RETRY.errorMessage) == App(AppError(CLASH_ERROR_MESSAGE))
  {
    forall e ensures Caught(e, CLASH_RETRY.toCatch) <==> e.App? && e.error.ShortUrlTaken? {
      if e.App? && e.error.ShortUrlTaken? {
        assert IsInstance(e, CLASH_RETRY.toCatch[0]);
      }
    }
  }

  /** One invocation of the body of `_create_url_entry_with_retry`, with the
      store's create-if-absent on the primary key: a free key yields a new
      record, a taken one raises `ShortUrlTaken()`. */
  function CreateIfAbsent(records: map<string, Url>, longUrl: string, now: int, draws: Draws): (o: Outcome<Url>)
    ensures o.Ok? <==> GenerateShortUrl(draws) !in records
    ensures o.Ok? ==> o.value == NewUrl(GenerateShortUrl(draws), longUrl, now)
    ensures o.Raised? ==> o.exc == App(ShortUrlTaken())
  {
    var key := GenerateShortUrl(draws);
    if key in records then Raised(App(ShortUrlTaken())) else Ok(NewUrl(key, longUrl, now))
  }

  const INTEGRITY_ERROR := Builtin("IntegrityError", "duplicate key value violates unique constraint")

  /** The same body as written: `get_or_create(short=..., long=...)` looks a
      row up by both columns, so a key held by a row with a different long URL
      is not found, and inserting under it violates the primary key. */
  function GetOrCreateAsWritten(records: map<string, Url>, longUrl: string, now: int, draws: Draws): (o: Outcome<Url>)
    ensures o.Ok? <==> GenerateShortUrl(draws) !in records
    ensures o.Raised? ==> (o.exc == App(ShortUrlTaken()) <==> records[GenerateShortUrl(draws)].long == longUrl)
  {
    var key := GenerateShortUrl(draws);
    if key in records && records[key].long == longUrl then Raised(App(ShortUrlTaken()))
    else if key in records then Raised(INTEGRITY_ERROR)
    else Ok(NewUrl(key, longUrl, now))
  }

  /** As written, a key clash with a row for another long URL is not retried:
      the first attempt's `IntegrityError` escapes the decorator after one call. */
  lemma ClashWithOtherUrlIsNotRetried(records: map<string, Url>, longUrl: string, now: int, draws: nat -> Draws,
                                      f: nat -> Outcome<Url>, r: Outcome<Url>, calls: nat)
    requires forall i :: f(i) == GetOrCreateAsWritten(records, longUrl, now, draws(i))
    requires GenerateShortUrl(draws(0)) in records && records[GenerateShortUrl(draws(0))].long != longUrl
    requires RetryResult(CLASH_RETRY, f, MAX_RETRIES_FOR_URL_CLASH, r, calls)
    ensures calls == 1 && r == Raised(INTEGRITY_ERROR)
  {
    ClashRetryPolicy();
    assert Stops(f(0), CLASH_RETRY.toCatch);
  }

  /** With the create-if-absent the retry was written for, the same clash is
      retried: attempt 0 raises `ShortUrlTaken`, which the policy catches. */
  lemma ClashWithOtherUrlIsRetried(records: map<string, Url>, longUrl: string, now: int, draws: nat -> Draws,
                                   f: nat -> Outcome<Url>, r: Outcome<Url>, calls: nat)
    requires forall i :: f(i) == CreateIfAbsent(records, longUrl, now, draws(i))
    requires GenerateShortUrl(draws(0)) in records && records[GenerateShortUrl(draws(0))].long != longUrl
    requires RetryResult(CLASH_RETRY, f, MAX_RETRIES_FOR_URL_CLASH, r, calls)
    ensures calls >= 2 && r != Raised(INTEGRITY_ERROR)
  {
    ClashRetryPolicy();
    ClashRetryOutcome(records, longUrl, now, draws, f, r, calls);
    assert !Stops(f(0), CLASH_RETRY.toCatch);
  }

  /** The keys drawn by the first `n` attempts are all taken. */
  predicate AllTaken(records: map<string, Url>, draws: nat -> Draws, n: nat) {
    forall j :: 0 <= j < n ==> GenerateShortUrl(draws(j)) in records
  }

  /** What the retried creation does, read off the retry specification:
      attempt `k` wins when its key is the first free one among the first
      `MAX_RETRIES_FOR_URL_CLASH` draws; if all of them are taken, the
      generic `AppError` is raised after that many attempts. */
  lemma ClashRetryOutcome(records: map<string, Url>, longUrl: string, now: int, draws: nat -> Draws,
                          f: nat -> Outcome<Url>, r: Outcome<Url>, calls: nat)
    requires forall i :: f(i) == CreateIfAbsent(records, longUrl, now, draws(i))
    requires RetryResult(CLASH_RETRY, f, MAX_RETRIES_FOR_URL_CLASH, r, calls)
    ensures r.Ok? ==>
      && AllTaken(records, draws, calls - 1)
      && GenerateShortUrl(draws(calls - 1)) !in records
      && r.value == NewUrl(GenerateShortUrl(draws(calls - 1)), longUrl, now)
    ensures r.Raised? <==> AllTaken(records, draws, MAX_RETRIES_FOR_URL_CLASH)
    ensures r.Raised? ==> r == Raised(App(AppError(CLASH_ERROR_MESSAGE))) && calls == MAX_RETRIES_FOR_URL_CLASH
  {
    ClashRetryPolicy();
    var p := CLASH_RETRY;
    forall j | 0 <= j < calls - 1 ensures GenerateShortUrl(draws(j)) in records {
      assert !Stops(f(j), p.toCatch);
    }
    if Stops(f(calls - 1), p.toCatch) {
      assert f(calls - 1).Ok?;
    } else {
      assert AllTaken(records, draws, MAX_RETRIES_FOR_URL_CLASH) by {
        assert calls == MAX_RETRIES_FOR_URL_CLASH;
        assert f(calls - 1).Raised?;
      }
    }
  }

  /** `_create_url_entry_with_retry`. An attempt that finds its key taken
      writes nothing, so the attempts are run against the table as it was
      and only the winning attempt's insert is applied. */
  method CreateUrlEntryWithRetry(table: Table, longUrl: string, now: int, draws: nat -> Draws) returns (r: Outcome<Url>)
    requires table.Valid()
    modifies table
    ensures table.Valid()
    ensures r.Ok? ==>
      && IsShortKey(r.value.short)
      && r.value.short !in old(table.records)
      && r.value == NewUrl(r.value.short, longUrl, now)
      && table.records == old(table.records)[r.value.short := r.value]
      && exists k :: 0 <= k < MAX_RETRIES_FOR_URL_CLASH && AllTaken(old(table.records), draws, k)
           && r.value.short == GenerateShortUrl(draws(k))
    ensures r.Raised? <==> AllTaken(old(table.records), draws, MAX_RETRIES_FOR_URL_CLASH)
    ensures r.Raised? ==> r == Raised(App(AppError(CLASH_ERROR_MESSAGE))) && table.records == old(table.records)
  {
    ClashRetryPolicy();
    var snapshot := table.records;
    var f := (i: nat) => CreateIfAbsent(snapshot, longUrl, now, draws(i));
    var calls;
    r, calls := FRetry(CLASH_RETRY, f);
    ClashRetryOutcome(snapshot, longUrl, now, draws, f, r, calls);
    if r.Ok? {
      table.Save(r.value);
    }
  }

  /** `get_or_create_short_url`: an invalid URL (the empty one among them)
      raises `InvalidUrl` and writes nothing; otherwise the retried creation
      either stores a fresh record with no hits under a new short key and
      returns the key, or raises the generic `AppError` and writes nothing. */
  method GetOrCreateShortUrl(table: Table, isUrlValid: UrlValidator, longUrl: string, now: int, draws: nat -> Draws)
    returns (r: Outcome<string>)
    requires table.Valid()
    modifies table
    ensures table.Valid()
    ensures !isUrlValid(longUrl) ==> r == Raised(App(InvalidUrl(longUrl))) && table.records == old(table.records)
    ensures longUrl == "" ==> r == Raised(App(InvalidUrl(""))) && Message(r.exc.error) == "Please provide a URL"
    ensures r.Ok? ==>
      && isUrlValid(longUrl)
      && IsShortKey(r.value)
      && r.value !in old(table.records)
      && table.records == old(table.records)[r.value := NewUrl(r.value, longUrl, now)]
    ensures isUrlValid(longUrl) ==>
      (r.Raised? <==> AllTaken(old(table.records), draws, MAX_RETRIES_FOR_URL_CLASH))
    ensures isUrlValid(longUrl) && r.Raised? ==>
      r == Raised(App(AppError(CLASH_ERROR_MESSAGE))) && table.records == old(table.records)
  {
    if !isUrlValid(longUrl) {
      return Raised(App(InvalidUrl(longUrl)));
    }
    var entry := CreateUrlEntryWithRetry(table, longUrl, now, draws);
    if entry.Raised? {
      return Raised(entry.exc);
    }
    r := Ok(entry.value.short);
  }

  /** `retrieve_expired_urls(grace_days)` at `now`: the keys of records that
      expire before `now + grace_days`, each once, ordered by creation time. */
  method RetrieveExpiredUrls(table: Table, graceDays: int, now: int) returns (keys: seq<string>)
    ensures IsExpiryQuery(table.records, now + Days(graceDays), keys)
  {
    var cutoffTime := now + Days(graceDays);
    keys := table.FindExpiredBefore(cutoffTime);
  }

  /** Creating a short URL and redirecting through it at once yields the long
      URL and leaves the new record with one hit. */
  method CreateThenRedirect(table: Table, isUrlValid: UrlValidator, longUrl: string, now: int, draws: nat -> Draws)
    returns (created: Outcome<string>, redirected: Outcome<string>)
    requires table.Valid()
    modifies table
    ensures created.Ok? ==>
      && redirected == Ok(longUrl)
      && created.value in table.records
      && table.records[created.value].hits == 1
  {
    created := GetOrCreateShortUrl(table, isUrlValid, longUrl, now, draws);
    if created.Raised? {
      redirected := created;
      return;
    }
    FreshUrlIsLive(created.value, longUrl, now, now);
    redirected := GetRedirectUrl(table, created.value, now);
  }
}
