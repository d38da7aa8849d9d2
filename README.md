# A verified model of davinci_crawling's network helpers

This project models the network helpers of the crawler framework
(`davinci_crawling/net.py`) in Dafny, in three modules:

- `Http` (`http.dfy`): the `Page` and `File` values, `parse_json`, the
  requests the primitive fetchers issue (`fetch_page`, `post_json`,
  `post_form`) with their timeout defaulting, and the status branching of
  `fetch_json` and `fetch_html` (status classes as in section 15 of
  RFC 9110: below 400 the body is parsed, otherwise the raw text is kept).
- `Retry` (`retry.dfy`): the retry engine `fetch_tenaciously` /
  `__maybe_retry`. The two mutually recursive Python functions are two
  mutually recursive Dafny functions. The fetcher is given by what each of
  its successive calls produces: a page, or an exception with a message.
  The error callback is optional; when present it answers true or false, or
  raises. A run of the engine returns a page or lets an exception escape,
  and every fetcher call and every sleep is recorded in a trace, so fetch
  and sleep counts are exact. Beside the engine as written, the module
  defines the engine as evidently intended (see Findings) and a
  `while`-loop method proved to compute it.
- `Download` (`download.dfy`): `fetch_file`. It checks the
  `Content-Disposition` filename parameter (section 4 of RFC 6266), then the
  exact 200 status. It takes the base name of the filename, writes the
  non-empty chunks into a temporary file object (a class whose list of
  writes grows), and asks `copy_file` for `base_path/filename`. Every
  failure comes back as a `DownloadError` carrying the URL.

Points where the code is followed closely:

- The engine decrements its counter before calling the fetcher. Any `n`,
  including 0 or a negative number, therefore gives at least one call.
  A caller may expect `n` attempts; when nothing raises, the code makes at
  most `max(n, 1)` (`Retry.Budget`), and exactly that many when every
  attempt fails and the callback approves every page.
- The engine reads the status from `page.response.status_code`, not from
  `page.status`. A returned page without a response raises an
  `AttributeError` inside the `try`. That becomes an internal-error page
  (status 999) carrying that exception's message.
- The callback is asked before the counter is tested, so it is consulted,
  and may raise, even when no attempt is left.
- `time.sleep` raises `ValueError` for a negative interval, so a negative
  `s` never sleeps: a retry that is due raises instead.
- The retry decision for a failing status is taken inside the `try`. An
  exception it lets out (from the callback, from `sleep`, or from a deeper
  attempt) is caught by the same attempt's `except`, which decides once
  more, on an internal-error page, with the same counter. The decision for
  a caught exception is taken in the `except` handler, so what it raises
  leaves the attempt.
- `fetch_json` stores `response.json` without calling it. The body of a
  successful page is the decoder bound to the response text
  (`Body.JsonAccessor`), not a decoded value.
- `fetch_page` does not default its timeout; only its callers do.
- A filename parameter whose base name is empty, `.` or `..` passes both
  checks. Opening it inside the temporary directory then names a directory,
  so the download fails after the status check and before any write.

## Model

| member | source | states |
|---|---|---|
| `Http.EffectiveTimeout` | davinci_crawling/net.py:72 | a falsy timeout (None or 0) becomes DEFAULT_TIMEOUT = 60, a truthy one is kept; the result is never falsy |
| `Http.ParseJson` | davinci_crawling/net.py:110-114 | None exactly for absent or empty input, otherwise the decoder's result on the text (the decoder's own None for the text "null" is inside that result) |
| `Http.FetchPage` | davinci_crawling/net.py:101-107 | fetch_page issues a GET with the given timeout, undefaulted, on both connect and read |
| `Http.PostJson` | davinci_crawling/net.py:63-80 | post_json issues a JSON POST whose connect and read timeouts are both the defaulted timeout |
| `Http.PostForm` | davinci_crawling/net.py:83-98 | post_form issues a form POST whose connect and read timeouts are both the defaulted timeout |
| `Http.FetchJson` | davinci_crawling/net.py:117-124 | issues fetch_page with the defaulted timeout; the page keeps the response's status and the response itself; its body is raw text exactly when status >= 400, and otherwise the response's json accessor |
| `Http.FetchHtml` | davinci_crawling/net.py:127-135 | the same, with an HTML document built from the text below 400 |
| `Http.FetchersAgreeOnFailure` | davinci_crawling/net.py:117-135 | both fetchers issue the same request and build identical pages exactly when the status is >= 400 |
| `Retry.ConstantlyTrue` | davinci_crawling/net.py:138-139 | the default callback approves every page and never raises |
| `Retry.Approves` | davinci_crawling/net.py:167 | `error_callback and error_callback(page)` holds exactly when a callback is present and answers true for the page: a missing callback, an answer of false or a raise withholds approval; the default callback approves every page |
| `Retry.InternalErrorPage` | davinci_crawling/net.py:161-162 | the page for a caught exception has status 999, body str(ex) and no response |
| `Retry.Judge` | davinci_crawling/net.py:145-163 | an attempt passes exactly when it returned a page whose response status is below 400, and then that page is kept unchanged; a page with a response and status >= 400 goes to the decision inside the `try` as is; a raised exception, or a page without a response, becomes an internal-error page for the `except` handler |
| `Retry.Payload` | davinci_crawling/net.py:146 | the payload is passed to the fetcher exactly when it is present and non-empty |
| `Retry.Budget` | davinci_crawling/net.py:144 | the number of calls the decremented counter allows is exactly n for n >= 1 and exactly 1 for n <= 0 |
| `Retry.FetchTenaciously` | davinci_crawling/net.py:142-163 | every run starts with a call of the fetcher with the url and the payload |
| `Retry.MaybeRetry` | davinci_crawling/net.py:166-175 | a retry decision does nothing more, or starts with a sleep of s seconds, and the latter only when the callback approved the page, the counter is positive and s is not negative |
| `Retry.EngineShape` | davinci_crawling/net.py:142-175 | whatever n, s and the callback, the trace alternates calls (all with the same url and payload) and sleeps of s seconds, starting and ending with a call; with a negative s the fetcher is called exactly once |
| `Retry.RetryShape` | davinci_crawling/net.py:166-175 | a retry decision adds nothing, or sleeps alternating with calls; with a negative s it adds nothing |
| `Retry.EngineEscapes` | davinci_crawling/net.py:155-175 | the only exceptions that leave the engine are ones the callback raises and sleep's ValueError for a negative s; an exception of the fetcher never escapes; with s >= 0 and a callback that never raises, a page is always returned |
| `Retry.RetryEscapes` | davinci_crawling/net.py:166-175 | the same for a retry decision |
| `Retry.EngineCounts` | davinci_crawling/net.py:142-175 | at least one call and exactly one sleep fewer; exactly one call when s < 0; at most max(n, 1) calls when the callback never raises |
| `Retry.ReturnsLastAttempt` | davinci_crawling/net.py:142-175 | with s >= 0 and a callback that never raises, the returned page is the judged page of the last attempt: the fetched page if it passed, its failure page otherwise |
| `Retry.RetriesOnlyApprovedFailures` | davinci_crawling/net.py:147-149 | when the callback never raises, every attempt before the last failed and was approved by the callback |
| `Retry.ExhaustsBudget` | davinci_crawling/net.py:144-175 | when every attempt fails and the callback approves every page: with s >= 0, exactly max(n, 1) calls, one sleep fewer, and the last failure page returned; with s < 0, one call, then sleep's ValueError if n > 1, else the first failure page |
| `Retry.NegativeIntervalStops` | davinci_crawling/net.py:167-171 | with s < 0, an approving callback and a failing first attempt, the ValueError of sleep escapes when a retry is due, and otherwise the first failure page is returned |
| `Retry.PassEndsRun` | davinci_crawling/net.py:147-149 | whatever the callback and s, every attempt before the last failed, and a passing last attempt's page is what the engine returns, unchanged: no fetch or sleep follows a status below 400 |
| `Retry.EngineStops` | davinci_crawling/net.py:144-163 | the engine from attempt k makes at least one call and stops at its first passing attempt: every earlier attempt failed, and a passing last attempt is what the run returns |
| `Retry.EngineStopsRetriedTwice` | davinci_crawling/net.py:145-163 | the same when the decision for a failing page raised and the attempt decided again |
| `Retry.RetryStops` | davinci_crawling/net.py:166-175 | the same for a retry decision, whatever the callback and s |
| `Retry.StopsAfterTwoDecisions` | davinci_crawling/net.py:145-163 | a failing attempt, a first decision that raised and a second decision that stopped at its first pass together stop at their first pass: the first decision's attempts all failed, since a pass would have been returned rather than raised |
| `Retry.ImmediateSuccess` | davinci_crawling/net.py:144-149 | a passing first attempt is returned unchanged after one call and no sleep |
| `Retry.RetryDecision` | davinci_crawling/net.py:166-175 | a raising callback lets its exception out; a missing or rejecting callback, or a used-up counter, returns the page with nothing done; an approved page with a positive counter leads to sleep's ValueError when s < 0, and otherwise to a sleep and a further call |
| `Retry.AlwaysRaising` | davinci_crawling/net.py:157-163 | a fetcher that always raises, with the default callback, yields Page(999, message) after max(n, 1) calls when s >= 0; when s < 0 and n > 1, sleep's ValueError after one call |
| `Retry.ThreeFailingAttempts` | davinci_crawling/net.py:138-175 | with n = 3, s = 0 and failing statuses, three calls and two sleeps are made, and the third attempt's status is returned |
| `Retry.FetchJsonPagesJudged` | davinci_crawling/net.py:122-124 | a fetch_json page passes the engine exactly when its body was not kept as raw text |
| `Retry.CaughtRetryExceedsBudget` | davinci_crawling/net.py:145-163 | with n = 3, a fetcher whose second call raises and a callback that raises on that call's internal-error page, the fetcher is called four times |
| `Retry.AgreesWhenNothingRaises` | davinci_crawling/net.py:142-175 | with s >= 0 and a callback that never raises, the engine as written and the intended engine produce the same outcome and trace |
| `Retry.RetryAgreesWhenNothingRaises` | davinci_crawling/net.py:166-175 | the same for a retry decision |
| `Retry.FetchTenaciouslyIntended` | davinci_crawling/net.py:142-163 | the intended engine also starts every run with a call of the fetcher |
| `Retry.MaybeRetryIntended` | davinci_crawling/net.py:166-175 | its retry decision sleeps only after approval, with a positive counter and s >= 0 |
| `Retry.IntendedShape` | davinci_crawling/net.py:142-175 | the intended engine's trace alternates calls and sleeps, with at most 2 max(n, 1) - 1 events |
| `Retry.IntendedRetryShape` | davinci_crawling/net.py:166-175 | its retry decision adds at most 2 max(n, 0) events, alternating sleeps and calls |
| `Retry.IntendedCounts` | davinci_crawling/net.py:142-175 | whatever the callback and s do, the intended engine calls the fetcher between 1 and max(n, 1) times, with one sleep fewer |
| `Retry.IntendedReturnsLast` | davinci_crawling/net.py:142-175 | when the intended engine returns a page, it is the judged page of its last attempt; with s >= 0 and a callback that never raises, it always returns one |
| `Retry.IntendedRetryReturnsLast` | davinci_crawling/net.py:166-175 | its retry decision returns its own page when it makes no call, and otherwise the judged page of the last call |
| `Retry.IntendedRetriesOnlyApproved` | davinci_crawling/net.py:147-149 | in the intended engine, every attempt before the last failed and was approved by the callback |
| `Retry.IntendedExhausts` | davinci_crawling/net.py:144-175 | in the intended engine, with s >= 0, failing attempts and an approving callback, exactly max(n, 1) calls and one sleep fewer are made and the last failure page is returned |
| `Retry.FetchTenaciouslyLoop` | davinci_crawling/net.py:142-175 | the loop form of the intended engine returns the same outcome and trace as its recursive definition, and, when nothing can raise, as the engine as written |
| `Download.DownloadRequest` | davinci_crawling/net.py:187-188 | the download is a streamed GET with 1800 seconds on both connect and read |
| `Download.Basename` | davinci_crawling/net.py:195 | the base name is the longest '/'-free suffix of the path |
| `Download.BasenameAfterSlash` | davinci_crawling/net.py:195 | a '/'-free name after a '/' (or alone) is the path's base name |
| `Download.BasenameIdempotent` | davinci_crawling/net.py:195 | taking the base name of a base name changes nothing |
| `Download.JoinPath` | davinci_crawling/net.py:196 | an absolute name replaces the directory; otherwise the result is the directory, a '/' exactly when the directory is non-empty and does not end in one, then the name, and its length is the sum of those parts |
| `Download.JoinedNameIsBasename` | davinci_crawling/net.py:195-196 | a '/'-free name joined to any directory is the base name of the joined path |
| `Download.BasePath` | davinci_crawling/net.py:207 | base_path from the options, "." when absent |
| `Download.DestinationPath` | davinci_crawling/net.py:209 | the destination is the base path, a '/', then the filename |
| `Download.DestinationNamesFile` | davinci_crawling/net.py:195-209 | the destination and the temporary path both have the downloaded filename as base name |
| `Download.CheckResponse` | davinci_crawling/net.py:190-200 | passes exactly when a filename parameter is present and the status is exactly 200; a missing filename is reported whatever the status; otherwise the status is reported; on success, the filename's base name |
| `Download.CreatedIsRejected` | davinci_crawling/net.py:198-200 | a 201 response with a filename fails with a content error |
| `Download.NonEmptyChunks` | davinci_crawling/net.py:203-205 | the chunks kept are no more than those received, none is empty, and each non-empty chunk is kept as often as it was received |
| `Download.NonEmptyChunksConcat` | davinci_crawling/net.py:203-205 | skipping empty chunks works piece by piece: the chunks kept from a concatenation are those kept from each part, in order |
| `Download.FlattenConcat` | davinci_crawling/net.py:205 | the bytes of consecutive writes are the bytes of each write, in order |
| `Download.SkippingEmptyChunksKeepsBytes` | davinci_crawling/net.py:202-205 | skipping empty chunks keeps every byte in order, and changes nothing when no chunk is empty |
| `Download.TempFile.Open` | davinci_crawling/net.py:202 | a freshly opened file at the given path has had nothing written |
| `Download.TempFile.Write` | davinci_crawling/net.py:205 | a write appends the chunk to the writes and its bytes to the content |
| `Download.FetchFile` | davinci_crawling/net.py:182-215 | the request is the streamed 1800-second GET; every failure carries the URL; a transport failure, a missing filename or a status other than 200 fail before anything is written; a directory-like filename fails at open; otherwise exactly the non-empty chunks are written and copy_file's result, for base_path/filename, becomes File(200, dest, filename, response) or a copy failure |
| `Download.SuccessfulDownload` | davinci_crawling/net.py:190-212 | after a successful check, the status was 200 with a filename, the filename is '/'-free, all bytes reached the file, and the destination's and the temporary path's base name is the filename |

## Findings

| source | as written | input that shows it | evidently intended | confidence | as-written member | corrected member |
|---|---|---|---|---|---|---|
| davinci_crawling/net.py:145-163 | the retry for a failing status (line 155) runs inside the `try`, so an exception escaping it is caught at line 157 and retried again with the same counter | n = 3, s = 0, a fetcher returning a 500 page except on its second call, which raises "E", and a callback that raises "C" on Page(999, "E") and approves every other page | an attempt budget of n calls at most: what the retry decision raises escapes, as it does from the `except` handler | medium, not executed | `Retry.CaughtRetryExceedsBudget` (4 calls for n = 3, against `Retry.EngineCounts`'s bound when the callback never raises) | `Retry.FetchTenaciouslyIntended` with `Retry.IntendedCounts` (at most max(n, 1) calls whatever raises) and `Retry.AgreesWhenNothingRaises` |

## Left out

- The HTTP transport (`requests.get` and `requests.post`), the user agent header and disabled certificate verification are not modelled. They are network I/O; only the response they produce (status, text, Content-Disposition parameters, chunks) is a parameter.
- `json.loads`, `json.dumps`, `BeautifulSoup` and `cgi.parse_header` are not modelled. They are library calls: `ParseJson` takes the decoder as a parameter, a parsed body is represented by the text it is parsed from, and the Content-Disposition parameters arrive already parsed.
- Http.ParseJson: an exception raised by `json.loads` on malformed text is not modelled; the decoder is total. A decoded JSON `null` is the decoder's own value inside `Some`, not the `None` of an empty input.
- The payload encoding of `post_json` and `post_form` and the re-raise of `RequestException` are not modelled. Re-raising the same exception after logging changes no result.
- Timeouts and sleep intervals are integers; fractional seconds are not modelled. Python truthiness is modelled for None, 0 and the empty string only; a callback answers a boolean, not an arbitrary truthy value.
- Retry.FetchTenaciously: the fetcher's outcomes depend only on the attempt number, not on its url and payload arguments. The arguments are recorded in each `Fetch` event.
- Retry.FetchTenaciously: Python's recursion limit is not modelled. Each retry nests further calls; past the limit a `RecursionError` would be raised and caught by the `except Exception` of an enclosing attempt, which the model's unbounded recursion never does.
- Retry.ExhaustsBudget: holds for budgets whose nested retries stay below Python's recursion limit (about a thousand frames); beyond it the recursion error changes the outcome and the counts.
- Retry.EngineCounts: the same recursion limit bounds the budgets it describes.
- Retry.AlwaysRaising: the same recursion limit applies.
- Sleeping is recorded as an event with its duration; elapsed wall-clock time is not modelled. Logging calls are not modelled, nor the exceptions a logging call could raise.
- The creation and removal of the temporary directory are not modelled. The directory path is a parameter, and its removal on every exit path belongs to the `with` block.
- copy_file is not part of this model. Its module (`.io`) is not available; it is a parameter giving the final path or a failure message.
- Download.FetchFile: an exception raised by `iter_content` in the middle of the stream is not modelled, nor are write errors other than opening a directory.
- `davinci_crawling/example/bovespa/crawling_parts/process_file.py` is not modelled. It is database glue: one lookup, one external loader call and one status update, with no logic of its own.
