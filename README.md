# URL shortener core, modelled in Dafny

This project models the core of a small Django URL shortener.

- **Allocation.** The service draws a random 7-character key from a 62-character alphabet and creates a record only if the key is free.
- **Retry.** On a clash it retries under a bounded retry decorator. When every attempt clashes it fails with a generic `AppError`.
- **Resolution.** `get_redirect_url` turns a key into its long URL. It raises `UrlNotFound` for an unknown key and `ExpiredUrl` for an expired record. Otherwise it adds one hit and returns the long URL.
- **Retention sweep.** The `remove_expired_urls` management command:
  - selects the records expiring before `now + grace_period`, ordered by creation time;
  - counts them;
  - stages their keys in a file, one per line;
  - reads the file back and deletes the stripped keys in batches of `batch_size`;
  - removes the file.
- **Error taxonomy.** The application's error classes map to HTTP statuses and messages, and `request_handler` turns them into responses.

The modules follow the source files:

| module | source |
|---|---|
| `Consts` | `api/consts.py` |
| `Errors` | `api/errors.py` plus the slice of Python's exception model the code relies on |
| `Models` | `api/models.py`: the record and the `Url` table (class `Table`) |
| `Decorators` | `api/decorators.py` |
| `Utils` | `api/utils.py` |
| `UrlService` | `api/services/url_service.py` |
| `RemoveExpiredUrls` | `api/management/commands/remove_expired_urls.py` |

Modelling choices:

- **Time.** Time is integer seconds, and `Days(d)` is `d * 86400`.
- **Records.** A record holds `createdAt` and a time to live `ttl`, and its expiry instant is their sum. `api/models.py:15` declares an absolute `expiry_time` column. The expiry query at `api/services/url_service.py:67` computes the instant as `created_at + time_to_live`. The model takes the second form, so the expiry predicate and the sweep read the same instant.
- **The table.** It is a class holding a `map` from primary key to record. Its invariant `Valid` says that each row is stored under its own `short` and that each key is a short key.
- **Randomness.** `random.choice` becomes an oracle `draws`: the alphabet positions picked at each attempt.
- **Validation.** Django's `URLValidator` is a function parameter. The only assumption about it is that it rejects the empty string.
- **The clock.** `timezone.now()` is a parameter `now`.
- **The staging file.** It is a pair of fields of `Command`: whether the file exists, and its text.
- **Retry.** A retried call is specified by the predicate `Decorators.RetryResult`. Both `f_retry` loops are proved against it.
  - The `api/decorators.py` loop makes `retries` attempts.
  - The `api/utils.py` loop makes `retries + 1` attempts.
  - `Utils.UtilsRetriesOnceMore` and `Utils.VariantsAgreeWithinAllowance` state exactly where the two disagree.

Behaviour of the code worth noting:

- **Expiry is strict.** `is_expired` compares with `>` (`api/models.py:20`), so a record is still live at its exact expiry instant.
- **Every record expires.** `expiry_time` is a non-nullable column with a default (`api/models.py:15`), so no record lives forever.
- **Attempt counts.** `api/services/url_service.py:11` imports `retry` from `api/decorators.py`, not from `api/utils.py`. With the arguments at `api/services/url_service.py:41-46`, URL creation makes exactly `MAX_RETRIES_FOR_URL_CLASH` attempts, that is 10.
- **Two copies of the decorators.** `api/utils.py:7-33` is an older `retry`, modelled as `Utils.FRetry`. `api/utils.py:36-49` is a `request_handler` that matches `api/decorators.py:61-74` except for logging, so `Decorators.RequestHandler` stands for both.

## Model

| member | source | states |
|---|---|---|
| `Consts.AlphabetAt` | api/consts.py:4 | The character at each of the 62 positions is an ASCII letter or digit |
| `Consts.AlphabetIndex` | api/consts.py:4 | Every letter or digit sits at a position below 62, and that position maps back to it |
| `Consts.AlphabetLayout` | api/consts.py:4 | The alphabet has 62 characters: digits, then lower case, then upper case |
| `Consts.AlphabetFacts` | api/consts.py:4 | The 62 characters are pairwise distinct, and a character is in the alphabet exactly when it is an ASCII letter or digit (so no whitespace and no line break) |
| `Consts.AllAlphanumericAt` | api/consts.py:4 | The recursive "all letters and digits" test holds exactly when every position passes it |
| `Consts.ConfigurationIsPositive` | api/consts.py:7-10 | The retry bound passes the `retries >= 1` guard; the grace period, batch size and expiration period are positive |
| `Errors.StatusCode` | api/errors.py:1-26 | Definition: `e.status_code`, 400, 404 and 410 for the three URL errors and the carried code, 500 by default, for `AppError` and `ShortUrlTaken` |
| `Errors.Message` | api/errors.py:1-26 | Definition: `str(e)` of an application error, the message each URL error class builds from the URL and the message `AppError` and `ShortUrlTaken` are given |
| `Errors.Str` | api/errors.py:1-26 | Definition: `str(e)` of any exception, the message it carries |
| `Errors.Construct` | api/errors.py:1-26 | Calling an exception class with a message yields an instance of exactly that class. A non-URL class carries the message itself. It is an application error exactly when the class is an `AppError` subclass |
| `Errors.HierarchyFacts` | api/errors.py:1-26 | Every error is an `Exception`; it is an `AppError` exactly when it comes from the application's hierarchy |
| `Errors.StatusCodeTaxonomy` | api/errors.py:1-26 | `AppError()` and `ShortUrlTaken()` have status 500 and an empty message; `InvalidUrl`, `UrlNotFound` and `ExpiredUrl` have 400, 404 and 410 |
| `Errors.UrlMessagesQuoteTheUrl` | api/errors.py:7-22 | `InvalidUrl` quotes a non-empty URL and otherwise says "Please provide a URL"; `UrlNotFound` and `ExpiredUrl` quote the URL |
| `Decorators.NormaliseCatch` | api/decorators.py:32-34 | The normalised `to_catch` tuple is never empty |
| `Decorators.Caught` | api/decorators.py:42 | Definition: `except to_catch` catches an exception exactly when it is an instance of one of the tuple's classes |
| `Decorators.CatchDefaults` | api/decorators.py:32-34 | An omitted or empty `to_catch` catches everything; a single class catches exactly its instances; a non-empty tuple is kept |
| `Decorators.Retry` | api/decorators.py:10-34 | Building the decorator raises `ValueError` exactly when `retries` is not an int or is below 1; otherwise the policy keeps `retries`, `to_raise`, the message and the normalised `to_catch` |
| `Decorators.RetryResult` | api/decorators.py:38-45 | Definition: the specification both `f_retry` loops are proved against. Attempts run until one returns or raises an uncaught exception, whose outcome is the result; if every allowed attempt raises a caught exception, `to_raise(error_message)` is raised after all of them |
| `Decorators.RetryResultIsUnique` | api/decorators.py:38-45 | A retried call has a single outcome and a single number of calls |
| `Decorators.FirstStopWins` | api/decorators.py:40-42 | When attempt `k` is the first that returns or raises an uncaught exception, its outcome is the result and no further attempt is made |
| `Decorators.AllCaughtExhausts` | api/decorators.py:43-45 | When every allowed attempt raises a caught exception, all are made and `to_raise(error_message)` is raised |
| `Decorators.FRetry` | api/decorators.py:38-45 | The countdown loop meets the retry specification with `retries` attempts |
| `Decorators.RequestHandler` | api/decorators.py:61-74 | A response passes through; an `AppError` becomes its status with the JSON body `{"App error": message}`; any other exception becomes a plain-text 500 response quoting its message (`str(e)`). The same holds for the copy at `api/utils.py:36-49` |
| `Decorators.FailureStatuses` | api/decorators.py:61-74 | The service's failures become responses 400, 404, 410 and 500, and an exception outside the hierarchy is a plain-text 500 |
| `Utils.FRetry` | api/utils.py:22-29 | The countdown loop of the older copy meets the retry specification with `retries + 1` attempts |
| `Utils.UtilsRetriesOnceMore` | api/utils.py:23 | Against a function that always raises a caught exception, the older copy makes one call more than `api/decorators.py`; both then raise the same error |
| `Utils.VariantsAgreeWithinAllowance` | api/utils.py:23-25 | When an attempt below `retries` stops, the two copies return the same outcome after the same number of calls |
| `Models.GetDefaultExpiryTime` | api/models.py:7-8 | The default expiry is `DEFAULT_EXPIRATION_PERIOD_DAYS` days after now, so it lies in the future |
| `Models.NewUrl` | api/models.py:11-16 | A new row keeps its key and long URL, is created now, starts at 0 hits and expires at the default expiry time |
| `Models.IsExpired` | api/models.py:19-20 | Definition: a record is expired exactly when now is strictly after its expiry instant |
| `Models.WithHit` | api/models.py:22-23 | `increment_hits` raises `hits` by exactly one and leaves the key, the long URL, the creation time and the time to live alone |
| `Models.ExpiryIsStrict` | api/models.py:19-20 | A record is live at its exact expiry instant and expired one second later; once expired it stays expired |
| `Models.FreshUrlIsLive` | api/models.py:7-20 | A record created now is live at every instant up to its default expiry |
| `Models.ExpiresBefore` | api/services/url_service.py:67-68 | Definition: a record is selected when `created_at + time_to_live` lies strictly before the cutoff, the filter of the expiry query |
| `Models.OrderedPairs` | api/services/url_service.py:69 | Creation order between neighbours implies creation order between any two positions |
| `Models.DistinctCardinality` | api/services/url_service.py:66-71 | A key sequence has as many distinct keys as positions exactly when no key repeats |
| `Models.QueryKeysAreSelected` | api/services/url_service.py:67-68 | Every key a correct expiry query returns names a record that expires before the cutoff |
| `Models.QueryIsDistinctAndOrdered` | api/services/url_service.py:66-71 | The keys of a correct expiry query are pairwise distinct and ascending by `created_at` between any two positions |
| `Models.ExpiryQueryCount` | api/services/url_service.py:66-71 | A correct expiry query returns as many keys as records it selects, and exactly those keys |
| `Models.EarliestExists` | api/services/url_service.py:69 | Every non-empty set of stored keys has one created first |
| `Models.SelectionStep` | api/services/url_service.py:69 | Emitting the earliest remaining selected key keeps the selection ordered, duplicate-free and complete |
| `Models.Table.constructor` | api/models.py:11-12 | An empty table is valid |
| `Models.Table.Save` | api/models.py:12 | Saving writes the row under its primary key, replacing any row with that key, and keeps the table valid |
| `Models.Table.Delete` | api/management/commands/remove_expired_urls.py:87 | Deleting by a set of keys removes exactly those rows, ignores absent keys and touches nothing else |
| `Models.Table.FindExpiredBefore` | api/services/url_service.py:66-71 | The query returns exactly the keys of records expiring strictly before the cutoff, each once, ordered by `created_at` |
| `UrlService.GenerateShortUrl` | api/services/url_service.py:16-17 | A generated key is a short key: 7 characters, each the alphabet character at the drawn position |
| `UrlService.GeneratorIsBijective` | api/services/url_service.py:16-17 | Every short key can be drawn, and by only one choice of positions |
| `UrlService.GetUrlEntryFromShortUrl` | api/services/url_service.py:20-24 | Looking a key up yields its row, or raises `UrlNotFound(key)` when there is none |
| `UrlService.GetRedirectUrl` | api/services/url_service.py:27-32 | An unknown key raises `UrlNotFound` and an expired record `ExpiredUrl`, both with the table unchanged; a live record returns its long URL and the table changes only in that record's hit count, raised by one |
| `UrlService.ClashRetryPolicy` | api/services/url_service.py:41-46 | The creation retry makes 10 attempts, catches exactly `ShortUrlTaken`, and raises `AppError` with the retry-later message when attempts run out |
| `UrlService.CreateIfAbsent` | api/services/url_service.py:47-54 | One attempt succeeds exactly when the drawn key is free, with a fresh record for the long URL; otherwise it raises `ShortUrlTaken()` |
| `UrlService.GetOrCreateAsWritten` | api/services/url_service.py:48-54 | As written, an attempt raises `ShortUrlTaken` only when the key's row has the same long URL; a clash with another long URL raises something else |
| `UrlService.ClashWithOtherUrlIsNotRetried` | api/services/url_service.py:41-54 | As written, a first draw that clashes with another URL's key makes the call fail with the integrity error after one attempt |
| `UrlService.ClashWithOtherUrlIsRetried` | api/services/url_service.py:41-54 | With create-if-absent, the same clash is retried and never surfaces as an integrity error |
| `UrlService.ClashRetryOutcome` | api/services/url_service.py:41-54 | The retried creation wins with the first free key among the first 10 draws, after the taken ones. It fails with the generic `AppError` after 10 attempts exactly when all 10 keys are taken |
| `UrlService.CreateUrlEntryWithRetry` | api/services/url_service.py:41-54 | On success the table gains exactly one fresh record, under a previously free short key that is the first free draw. The call fails, writing nothing, exactly when all 10 draws are taken |
| `UrlService.GetOrCreateShortUrl` | api/services/url_service.py:35-38 | An invalid URL, the empty one included, raises `InvalidUrl` and writes nothing. Otherwise the call returns a new short key stored with the long URL and 0 hits, or fails with the generic `AppError` exactly when all draws clash, writing nothing |
| `UrlService.RetrieveExpiredUrls` | api/services/url_service.py:64-71 | The result is exactly the keys of records expiring before `now + grace_days`, each once, ordered by creation |
| `UrlService.CreateThenRedirect` | api/services/url_service.py:27-38 | Resolving a key right after allocating it returns the long URL and leaves the record at one hit |
| `RemoveExpiredUrls.IterateInBatches` | api/management/commands/remove_expired_urls.py:79-83 | Definition: the items cut into consecutive slices of `batch_size`, the last possibly shorter |
| `RemoveExpiredUrls.BatchesAreSlices` | api/management/commands/remove_expired_urls.py:79-83 | Batches are non-empty, hold at most `batch_size` items (all but the last exactly that many), and concatenate to the items |
| `RemoveExpiredUrls.BatchCount` | api/management/commands/remove_expired_urls.py:79-83 | There are `ceil(n / batch_size)` batches |
| `RemoveExpiredUrls.DefaultBatchesOf2500` | api/management/commands/remove_expired_urls.py:79-83 | 2500 keys at the default batch size make three batches, the last of 500. Because `Command.Handle` states that its delete calls are exactly these batches of the staged keys, a sweep of 2500 records makes three delete calls, of 1000, 1000 and 500 keys |
| `RemoveExpiredUrls.BatchText` | api/management/commands/remove_expired_urls.py:74-75 | Definition: the text written for one batch, its keys joined by line breaks, plus a final line break |
| `RemoveExpiredUrls.BatchTextIsTerminated` | api/management/commands/remove_expired_urls.py:74-75 | The text written for a non-empty batch is each of its keys followed by a line break |
| `RemoveExpiredUrls.FirstLineLength` | api/management/commands/remove_expired_urls.py:80 | The first line of a non-empty text is non-empty and fits in it |
| `RemoveExpiredUrls.FirstLineIsALine` | api/management/commands/remove_expired_urls.py:80 | The first line ends at the first line break, or at the end of the text |
| `RemoveExpiredUrls.ReadLines` | api/management/commands/remove_expired_urls.py:80 | Definition: `file.readlines()`, the text cut after each line break, with a last unterminated line kept |
| `RemoveExpiredUrls.ReadLinesFlatten` | api/management/commands/remove_expired_urls.py:80 | The lines read back concatenate to the file's text |
| `RemoveExpiredUrls.ReadLinesAreLines` | api/management/commands/remove_expired_urls.py:80 | Each line read back is non-empty and has no inner line break, and every line but the last ends with one |
| `RemoveExpiredUrls.ReadLinesOfTerminated` | api/management/commands/remove_expired_urls.py:74-80 | Reading back keys written one per line gives each key with its line break, in order |
| `RemoveExpiredUrls.Strip` | api/management/commands/remove_expired_urls.py:84 | Definition: `str.strip`, dropping leading and then trailing whitespace in the sense of `str.isspace` |
| `RemoveExpiredUrls.StripLeadingSuffix` | api/management/commands/remove_expired_urls.py:84 | `lstrip` leaves a suffix of its argument |
| `RemoveExpiredUrls.StripLeadingIsSuffix` | api/management/commands/remove_expired_urls.py:84 | `lstrip` removes exactly the longest all-whitespace prefix |
| `RemoveExpiredUrls.StripTrailingPrefix` | api/management/commands/remove_expired_urls.py:84 | `rstrip` leaves a prefix of its argument |
| `RemoveExpiredUrls.StripTrailingIsPrefix` | api/management/commands/remove_expired_urls.py:84 | `rstrip` removes exactly the longest all-whitespace suffix |
| `RemoveExpiredUrls.StripIsTrimmed` | api/management/commands/remove_expired_urls.py:84 | A stripped line has no whitespace at either end |
| `RemoveExpiredUrls.StripAll` | api/management/commands/remove_expired_urls.py:84 | Stripping a batch keeps one key per line |
| `RemoveExpiredUrls.StripAllAt` | api/management/commands/remove_expired_urls.py:84 | Each stripped key is the strip of the line at its position |
| `RemoveExpiredUrls.StripKeyLine` | api/management/commands/remove_expired_urls.py:84 | A key without whitespace survives the strip of its staged line |
| `RemoveExpiredUrls.ShortKeyCharIsNotSpace` | api/consts.py:4 | No character of a short key is whitespace or a line break |
| `RemoveExpiredUrls.StripAllWithLineBreaks` | api/management/commands/remove_expired_urls.py:84 | Stripping keys without whitespace, each with its line break, gives back the keys |
| `RemoveExpiredUrls.ReadBackWithoutSpaces` | api/management/commands/remove_expired_urls.py:74-84 | Keys without whitespace or line breaks, written one per line and read back and stripped, come back unchanged |
| `RemoveExpiredUrls.ShortKeysHaveNoSpace` | api/consts.py:4 | Short keys contain neither whitespace nor line breaks |
| `RemoveExpiredUrls.StagedKeysReadBack` | api/management/commands/remove_expired_urls.py:74-84 | Short keys staged in the file read back unchanged, in order |
| `RemoveExpiredUrls.StripBatches` | api/management/commands/remove_expired_urls.py:79-84 | One tuple of stripped keys per batch of lines, so as many delete calls as batches |
| `RemoveExpiredUrls.StripBatchesAppend` | api/management/commands/remove_expired_urls.py:79-84 | Another batch of lines adds one delete call, its stripped keys, at the end |
| `RemoveExpiredUrls.StripBatchesOfBatches` | api/management/commands/remove_expired_urls.py:79-84 | Stripping each batch of lines gives the same calls as batching the stripped keys |
| `RemoveExpiredUrls.FlattenStripBatches` | api/management/commands/remove_expired_urls.py:79-84 | The delete calls together name the stripped lines, in order |
| `RemoveExpiredUrls.StripBatchesSizes` | api/management/commands/remove_expired_urls.py:84 | Each delete call has as many keys as its batch has lines |
| `RemoveExpiredUrls.DeleteCalls` | api/management/commands/remove_expired_urls.py:79-87 | The delete calls for the lines name the stripped lines in order. Each has between 1 and `batch_size` keys, and all but the last exactly `batch_size` |
| `RemoveExpiredUrls.QueryKeysAreShort` | api/services/url_service.py:64-71 | The keys an expiry query returns from a valid table are short keys |
| `RemoveExpiredUrls.SweepOutcome` | api/management/commands/remove_expired_urls.py:57-64 | Staging a correct query and deleting what is read back removes exactly the selected records, and the delete calls are exactly the consecutive `batch_size` slices of the selected keys in query order |
| `RemoveExpiredUrls.DeleteStep` | api/management/commands/remove_expired_urls.py:79-87 | Each pass of the delete loop appends the next batch's stripped lines as one more delete call, and extends the deleted keys by them |
| `RemoveExpiredUrls.Command.constructor` | api/management/commands/remove_expired_urls.py:19-23 | A new command has nothing staged and no file, and its file name is the job prefix followed by the date |
| `RemoveExpiredUrls.Command.WriteExpiredUrlsToFile` | api/management/commands/remove_expired_urls.py:67-75 | After writing, the file exists and holds exactly the selected keys, in query order, one per line |
| `RemoveExpiredUrls.Command.RemoveExpiredUrls` | api/management/commands/remove_expired_urls.py:77-87 | With the file present, exactly the stripped keys of its lines are deleted, and the delete calls are the file's lines, cut into batches of `batch_size` and stripped, in order. A missing file fails before anything is deleted |
| `RemoveExpiredUrls.Command.DeleteLines` | api/management/commands/remove_expired_urls.py:79-87 | The batched delete loop removes exactly the stripped lines' keys and leaves every other record alone. It makes one delete call per batch of `batch_size` lines, holding that batch's stripped keys |
| `RemoveExpiredUrls.Command.DeleteFile` | api/management/commands/remove_expired_urls.py:89-90 | Afterwards no file exists; removing a missing file fails |
| `RemoveExpiredUrls.Command.StageExpiredUrls` | api/management/commands/remove_expired_urls.py:57-62 | The staged keys are a correct expiry query for `now + grace_period`, the total is the number of selected records, and the file holds the keys one per line |
| `RemoveExpiredUrls.Command.RemoveStagedUrls` | api/management/commands/remove_expired_urls.py:63-64 | With a correct expiry query staged, exactly the selected records are deleted. The delete calls are the consecutive `batch_size` slices of the staged keys, and the file is removed |
| `RemoveExpiredUrls.Command.Handle` | api/management/commands/remove_expired_urls.py:46-65 | Exactly the records expiring before `now + grace_period` are gone and every other record is untouched. The reported total is the number selected before any deletion. The delete calls are exactly the consecutive `batch_size` slices of the staged keys, so there are `ceil(n / batch_size)` of them and all but the last hold `batch_size` keys. The staging file no longer exists |

## Left out

- The HTTP layer, `api/views.py` and `api/urls.py`: routing, JSON parsing and redirect responses lie outside the core. `request_handler` is modelled on the outcome a view produces.
- The seeding command, `api/management/commands/insert_dummy_urls.py`: it is a random bulk-insert script.
- Randomness: `random.choice` becomes the oracle `draws`, so no statement is made about how likely a clash is.
- `_is_url_valid`, and Django's `URLValidator` behind it: a foreign library, modelled as a parameter that rejects the empty string and is otherwise unconstrained.
- Django's `get_or_create` internals: only the outcome on the primary key is modelled. See the finding below.
- Concurrency: the read-modify-write race in `increment_hits` and concurrent allocation are out of scope for a sequential model.
- File I/O, logging, `datetime.now` and `timezone.now`:
  - The file is two fields of the command.
  - The date and `now` are parameters.
  - The final log line of `handle` is not modelled.
- `iterate_in_batches`: it is imported from `api.utils` but not defined in that file.
  - It is modelled as consecutive slices.
  - The model assumes that `total` equals the number of items, as it does at both call sites.
  - It requires `batch_size >= 1`; the behaviour for a zero or negative batch size is not modelled.
- Python's universal-newline translation on read: the staged text contains only `\n` line breaks, so it makes no difference here.
- Exception chaining (`raise ... from e`) and Python's deeper built-in exception hierarchy: `Exception` has direct subclasses only, named by a string.
- `Models.Table.Valid`: it states the key length as exactly `SHORT_URL_LENGTH`, stronger than the column's `max_length`, because every writer of the table draws keys from the generator.
- The 255-character bound on `long`: the database would reject longer values, and the model does not.
- The 64-bit bound on `hits`: the column is a `BigIntegerField` (`api/models.py:16`), so the database would reject a count above 2^63 - 1, while the model's `hits` is an unbounded `nat`.
- `UrlService.GetOrCreateAsWritten`: the text of the integrity error is a fixed placeholder, because the real text comes from the database driver.

## Findings

| source | as written | input that shows it | evidently intended | confidence | as-written member | corrected member |
|---|---|---|---|---|---|---|
| api/services/url_service.py:48-54 | `get_or_create(short=key, long=long_url)` looks up on both columns, so a drawn key already held by a row for a different long URL is not found. The insert then violates the primary key, and the database's integrity error escapes the retry, which catches only `ShortUrlTaken` | a table holding key `0000000` for `https://a.example/`, a request for `https://b.example/`, and a first draw of seven zeros | Any taken key is a clash that raises `ShortUrlTaken` and is retried (create-if-absent on the primary key) | medium, not executed | `UrlService.ClashWithOtherUrlIsNotRetried` | `UrlService.ClashWithOtherUrlIsRetried` |
