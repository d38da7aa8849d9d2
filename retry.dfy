/** The retry engine of davinci_crawling/net.py: fetch_tenaciously and
    __maybe_retry, two mutually recursive functions that retry a fetcher a
    bounded number of times with a fixed sleep between attempts.

    The fetcher is modelled by what its successive calls produce: attempt
    number k (counting from 0) either returns a page or raises an exception
    with a message. The error callback either answers or raises. A run of
    the engine either returns a page or lets an exception escape, and each
    call to the fetcher and each sleep is recorded, in order, in a trace of
    events, so the number of fetches and of sleeps can be stated exactly.

    Where an exception is raised matters. The retry decision for a failing
    status is taken inside the `try` of fetch_tenaciously, so an exception
    raised while retrying (by the callback, by `sleep`, or escaping a deeper
    attempt) is caught there and decided on once more; the retry decision
    for a caught exception is taken inside the `except` handler, so what it
    raises escapes.
 */
module Retry {
  import opened Http

  /** What one call of the fetcher produced, and what a run of the engine
      produces: a page, or an exception with its message. */
  datatype Outcome = Returned(page: Page) | Raised(message: string)

  /** The observable steps of the engine: a call of the fetcher with its
      arguments (the payload only when one is passed), or a sleep. */
  datatype Event = Fetch(url: string, data: Option<string>) | Sleep(seconds: int)

  /** How the `try` block of fetch_tenaciously ends for one attempt: a page
      returned at once, a failing page handed to the retry decision inside
      the `try`, or the internal-error page the `except` handler hands to it. */
  datatype Verdict = Passed(page: Page) | Failed(page: Page) | Caught(page: Page)

  /** What a run of the engine produces: its outcome, and its trace. */
  datatype Run = Run(outcome: Outcome, trace: seq<Event>)

  /** The error callback: absent (None or another falsy value), or a
      function that answers with a truth value or raises with a message. */
  type Callback = Option<Page -> Result<bool, string>>

  /** str(ex) of the AttributeError raised when a returned page has no
      response whose status_code could be read. */
  const NoResponseMessage: string := "'NoneType' object has no attribute 'status_code'"

  /** str(ex) of the ValueError time.sleep raises for a negative interval. */
  const NegativeSleepMessage: string := "sleep length must be non-negative"

  /** __constatly_true, the default error callback. */
  function ConstantlyTrue(page: Page): (r: Result<bool, string>)
    ensures r == Success(true)
  {
    Success(true)
  }

  const DefaultCallback: Callback := Some(ConstantlyTrue)

  /** `error_callback and error_callback(page)` is true. */
  function Approves(callback: Callback, page: Page): (b: bool)
    ensures b <==> callback.Some? && callback.value(page) == Success(true)
    ensures callback == DefaultCallback ==> b
  {
    callback.Some? && callback.value(page) == Success(true)
  }

  /** The callback never raises. */
  ghost predicate NeverRaises(callback: Callback) {
    callback.Some? ==> forall p: Page :: callback.value(p).Success?
  }

  /** The callback raises with this message on some page. */
  ghost predicate RaisesWith(callback: Callback, message: string) {
    callback.Some? && exists p: Page :: callback.value(p) == Failure(message)
  }

  /** The page built for a caught exception: Page(HTTP_INTERNAL_ERROR, str(ex)). */
  function InternalErrorPage(message: string): (p: Page)
    ensures p.status == HttpInternalError && p.body == Text(message) && p.response.None?
  {
    Page(HttpInternalError, Text(message), None)
  }

  /** The `try` block of fetch_tenaciously for one attempt: the status is
      read from the page's response; below 400 the page itself is returned,
      otherwise it goes to the retry decision; any exception, including the
      one raised when there is no response to read, becomes an
      internal-error page that the `except` handler hands on. */
  function Judge(o: Outcome): (v: Verdict)
    ensures v.Passed? <==>
      o.Returned? && o.page.response.Some? && o.page.response.value.status < HttpBadRequest
    ensures v.Failed? <==>
      o.Returned? && o.page.response.Some? && o.page.response.value.status >= HttpBadRequest
    ensures v.Passed? || v.Failed? ==> v.page == o.page
    ensures o.Raised? ==> v == Caught(InternalErrorPage(o.message))
    ensures o.Returned? && o.page.response.None? ==> v == Caught(InternalErrorPage(NoResponseMessage))
  {
    match o
    case Raised(message) => Caught(InternalErrorPage(message))
    case Returned(page) =>
      if page.response.None? then Caught(InternalErrorPage(NoResponseMessage))
      else if page.response.value.status < HttpBadRequest then Passed(page)
      else Failed(page)
  }

  /** `fetcher(url) if not data else fetcher(url, data)`: an absent or empty
      payload is not passed. */
  function Payload(data: Option<string>): (r: Option<string>)
    ensures r.Some? <==> data.Some? && data.value != []
    ensures r.Some? ==> r == data
  {
    if data.Some? && data.value != [] then data else None
  }

  /** The number of fetcher calls the engine allows itself when started
      with n: n, but never fewer than one. */
  function Budget(n: int): (r: nat)
    ensures r >= 1 && r >= n
    ensures n >= 1 ==> r == n
    ensures n < 1 ==> r == 1
  {
    if n > 1 then n else 1
  }

  function Prepend(e: Event, r: Run): Run {
    Run(r.outcome, [e] + r.trace)
  }

  /** fetch_tenaciously, started at attempt number k with counter n: the
      counter is decremented and the fetcher called; a passing page is
      returned; a failing page goes to the retry decision inside the `try`,
      and an exception escaping that decision is caught and decided on once
      more, with the same counter, as an internal-error page; a caught
      exception goes to the retry decision in the `except` handler. */
  function FetchTenaciously(fetcher: nat -> Outcome, url: string, n: int, s: int,
                            data: Option<string>, callback: Callback, k: nat): (r: Run)
    ensures r.trace != [] && r.trace[0] == Fetch(url, Payload(data))
    decreases if n > 0 then n else 0, 1
  {
    var call := Fetch(url, Payload(data));
    match Judge(fetcher(k))
    case Passed(page) => Run(Returned(page), [call])
    case Caught(page) => Prepend(call, MaybeRetry(fetcher, url, n - 1, s, data, callback, k + 1, page))
    case Failed(page) =>
      var first := MaybeRetry(fetcher, url, n - 1, s, data, callback, k + 1, page);
      if first.outcome.Returned? then Prepend(call, first)
      else
        var second := MaybeRetry(fetcher, url, n - 1, s, data, callback, k + 1 + FetchCount(first.trace),
                                 InternalErrorPage(first.outcome.message));
        Run(second.outcome, [call] + first.trace + second.trace)
  }

  /** __maybe_retry with the already decremented counter n: the callback is
      asked first (and may raise); when it approves and n is still positive
      the engine sleeps (a negative interval makes sleep raise) and tries
      again; otherwise the page is returned. */
  function MaybeRetry(fetcher: nat -> Outcome, url: string, n: int, s: int,
                      data: Option<string>, callback: Callback, k: nat, page: Page): (r: Run)
    ensures r.trace == [] || r.trace[0] == Sleep(s)
    ensures r.trace != [] ==> Approves(callback, page) && n > 0 && s >= 0
    decreases if n + 1 > 0 then n + 1 else 0, 0
  {
    if callback.None? then Run(Returned(page), [])
    else
      match callback.value(page)
      case Failure(message) => Run(Raised(message), [])
      case Success(approved) =>
        if !approved || n <= 0 then Run(Returned(page), [])
        else if s < 0 then Run(Raised(NegativeSleepMessage), [])
        else Prepend(Sleep(s), FetchTenaciously(fetcher, url, n, s, data, callback, k))
  }

  /** The engine as evidently intended: the retry decision taken outside the
      `try`, so that what the callback or sleep raises escapes instead of
      being retried by an outer attempt. */
  function FetchTenaciouslyIntended(fetcher: nat -> Outcome, url: string, n: int, s: int,
                                    data: Option<string>, callback: Callback, k: nat): (r: Run)
    ensures r.trace != [] && r.trace[0] == Fetch(url, Payload(data))
    decreases if n > 0 then n else 0, 1
  {
    var call := Fetch(url, Payload(data));
    match Judge(fetcher(k))
    case Passed(page) => Run(Returned(page), [call])
    case Failed(page) => Prepend(call, MaybeRetryIntended(fetcher, url, n - 1, s, data, callback, k + 1, page))
    case Caught(page) => Prepend(call, MaybeRetryIntended(fetcher, url, n - 1, s, data, callback, k + 1, page))
  }

  /** The retry decision of the intended engine. */
  function MaybeRetryIntended(fetcher: nat -> Outcome, url: string, n: int, s: int,
                              data: Option<string>, callback: Callback, k: nat, page: Page): (r: Run)
    ensures r.trace == [] || r.trace[0] == Sleep(s)
    ensures r.trace != [] ==> Approves(callback, page) && n > 0 && s >= 0
    decreases if n + 1 > 0 then n + 1 else 0, 0
  {
    if callback.None? then Run(Returned(page), [])
    else
      match callback.value(page)
      case Failure(message) => Run(Raised(message), [])
      case Success(approved) =>
        if !approved || n <= 0 then Run(Returned(page), [])
        else if s < 0 then Run(Raised(NegativeSleepMessage), [])
        else Prepend(Sleep(s), FetchTenaciouslyIntended(fetcher, url, n, s, data, callback, k))
  }

  function FetchCount(trace: seq<Event>): nat {
    if trace == [] then 0 else (if trace[0].Fetch? then 1 else 0) + FetchCount(trace[1..])
  }

  function SleepCount(trace: seq<Event>): nat {
    if trace == [] then 0 else (if trace[0].Sleep? then 1 else 0) + SleepCount(trace[1..])
  }

  /** A trace that starts and ends with the call and alternates calls with
      sleeps of s seconds. */
  ghost predicate Alternates(trace: seq<Event>, call: Event, s: int) {
    |trace| % 2 == 1 &&
    forall i :: 0 <= i < |trace| ==> trace[i] == if i % 2 == 0 then call else Sleep(s)
  }

  /** What a retry decision adds: nothing, or sleeps alternating with calls,
      starting with a sleep and ending with a call. */
  ghost predicate Retries(trace: seq<Event>, call: Event, s: int) {
    |trace| % 2 == 0 &&
    forall i :: 0 <= i < |trace| ==> trace[i] == if i % 2 == 0 then Sleep(s) else call
  }

  lemma PrependCounts(e: Event, trace: seq<Event>)
    ensures FetchCount([e] + trace) == (if e.Fetch? then 1 else 0) + FetchCount(trace)
    ensures SleepCount([e] + trace) == (if e.Sleep? then 1 else 0) + SleepCount(trace)
  {
    assert ([e] + trace)[1..] == trace;
  }

  lemma AlternatesFromRetries(call: Event, s: int, trace: seq<Event>)
    requires Retries(trace, call, s)
    ensures Alternates([call] + trace, call, s)
  {
    var t := [call] + trace;
    forall i | 0 <= i < |t|
      ensures t[i] == if i % 2 == 0 then call else Sleep(s)
    {
      if i > 0 { assert t[i] == trace[i - 1]; }
    }
  }

  lemma RetriesFromAlternates(call: Event, s: int, trace: seq<Event>)
    requires Alternates(trace, call, s)
    ensures Retries([Sleep(s)] + trace, call, s)
  {
    var t := [Sleep(s)] + trace;
    forall i | 0 <= i < |t|
      ensures t[i] == if i % 2 == 0 then Sleep(s) else call
    {
      if i > 0 { assert t[i] == trace[i - 1]; }
    }
  }

  lemma RetriesJoin(call: Event, s: int, t1: seq<Event>, t2: seq<Event>)
    requires Retries(t1, call, s) && Retries(t2, call, s)
    ensures Retries(t1 + t2, call, s)
  {
    var t := t1 + t2;
    forall i | 0 <= i < |t|
      ensures t[i] == if i % 2 == 0 then Sleep(s) else call
    {
      if i < |t1| {
        assert t[i] == t1[i];
      } else {
        var j := i - |t1|;
        assert t[i] == t2[j];
        assert j % 2 == i % 2 by {
          assert i == j + 2 * (|t1| / 2);
        }
      }
    }
  }

  /** A retry trace holds as many calls as sleeps, half its length each. */
  lemma {:induction false} RetriesCounts(call: Event, s: int, trace: seq<Event>)
    requires call.Fetch? && Retries(trace, call, s)
    ensures FetchCount(trace) == |trace| / 2 && SleepCount(trace) == |trace| / 2
    decreases |trace|
  {
    if trace != [] {
      var rest := trace[2..];
      forall i | 0 <= i < |rest|
        ensures rest[i] == if i % 2 == 0 then Sleep(s) else call
      {
        assert rest[i] == trace[i + 2];
      }
      RetriesCounts(call, s, rest);
      PrependCounts(trace[1], rest);
      assert trace[1..] == [trace[1]] + rest;
      PrependCounts(trace[0], trace[1..]);
      assert trace == [trace[0]] + trace[1..];
    }
  }

  /** An alternating trace holds one call more than it holds sleeps. */
  lemma AlternatesCounts(call: Event, s: int, trace: seq<Event>)
    requires call.Fetch? && Alternates(trace, call, s)
    ensures FetchCount(trace) == |trace| / 2 + 1 && SleepCount(trace) == |trace| / 2
  {
    var rest := trace[1..];
    forall i | 0 <= i < |rest|
      ensures rest[i] == if i % 2 == 0 then Sleep(s) else call
    {
      assert rest[i] == trace[i + 1];
    }
    RetriesCounts(call, s, rest);
    PrependCounts(trace[0], rest);
    assert trace == [trace[0]] + rest;
  }

  // ---------------------------------------------------------------------
  // The engine as written.

  /** Whatever n, s and the callback are, the trace alternates calls (all
      with the same url and payload) and sleeps of s seconds, starting and
      ending with a call; with a negative interval nothing sleeps, so the
      fetcher is called exactly once. */
  lemma {:induction false} EngineShape(fetcher: nat -> Outcome, url: string, n: int, s: int,
                                        data: Option<string>, callback: Callback, k: nat)
    ensures var r := FetchTenaciously(fetcher, url, n, s, data, callback, k);
      Alternates(r.trace, Fetch(url, Payload(data)), s) &&
      (s < 0 ==> r.trace == [Fetch(url, Payload(data))])
    decreases if n > 0 then n else 0, 2
  {
    var call := Fetch(url, Payload(data));
    var v := Judge(fetcher(k));
    if v.Passed? {
      AlternatesFromRetries(call, s, []);
    } else {
      var first := MaybeRetry(fetcher, url, n - 1, s, data, callback, k + 1, v.page);
      RetryShape(fetcher, url, n - 1, s, data, callback, k + 1, v.page);
      if v.Failed? && first.outcome.Raised? {
        EngineShapeRetriedTwice(fetcher, url, n, s, data, callback, k);
      } else {
        AlternatesFromRetries(call, s, first.trace);
      }
    }
  }

  /** The case of EngineShape where the retry decision for a failing page
      raised, and the attempt's `try` decided once more. */
  lemma {:induction false} EngineShapeRetriedTwice(fetcher: nat -> Outcome, url: string, n: int, s: int,
                                                    data: Option<string>, callback: Callback, k: nat)
    requires Judge(fetcher(k)).Failed?
    requires MaybeRetry(fetcher, url, n - 1, s, data, callback, k + 1, Judge(fetcher(k)).page).outcome.Raised?
    ensures var r := FetchTenaciously(fetcher, url, n, s, data, callback, k);
      Alternates(r.trace, Fetch(url, Payload(data)), s) &&
      (s < 0 ==> r.trace == [Fetch(url, Payload(data))])
    decreases if n > 0 then n else 0, 1
  {
    var call := Fetch(url, Payload(data));
    var page := Judge(fetcher(k)).page;
    var first := MaybeRetry(fetcher, url, n - 1, s, data, callback, k + 1, page);
    var k2 := k + 1 + FetchCount(first.trace);
    var errorPage := InternalErrorPage(first.outcome.message);
    var second := MaybeRetry(fetcher, url, n - 1, s, data, callback, k2, errorPage);
    assert FetchTenaciously(fetcher, url, n, s, data, callback, k).trace == [call] + first.trace + second.trace;
    RetryShape(fetcher, url, n - 1, s, data, callback, k + 1, page);
    RetryShape(fetcher, url, n - 1, s, data, callback, k2, errorPage);
    AlternatesFromTwoRetries(call, s, first.trace, second.trace);
  }

  lemma AlternatesFromTwoRetries(call: Event, s: int, t1: seq<Event>, t2: seq<Event>)
    requires Retries(t1, call, s) && Retries(t2, call, s)
    requires s < 0 ==> t1 == [] && t2 == []
    ensures Alternates([call] + t1 + t2, call, s)
    ensures s < 0 ==> [call] + t1 + t2 == [call]
  {
    RetriesJoin(call, s, t1, t2);
    AlternatesFromRetries(call, s, t1 + t2);
    assert [call] + t1 + t2 == [call] + (t1 + t2);
  }

  /** A retry decision adds nothing, or (with a non-negative interval only)
      a sleep followed by a run of the engine. */
  lemma {:induction false} RetryShape(fetcher: nat -> Outcome, url: string, n: int, s: int,
                                       data: Option<string>, callback: Callback, k: nat, page: Page)
    ensures var r := MaybeRetry(fetcher, url, n, s, data, callback, k, page);
      Retries(r.trace, Fetch(url, Payload(data)), s) && (s < 0 ==> r.trace == [])
    decreases if n + 1 > 0 then n + 1 else 0, 0
  {
    if Approves(callback, page) && n > 0 && s >= 0 {
      var rest := FetchTenaciously(fetcher, url, n, s, data, callback, k);
      EngineShape(fetcher, url, n, s, data, callback, k);
      RetriesFromAlternates(Fetch(url, Payload(data)), s, rest.trace);
    }
  }

  /** The only exceptions that leave the engine are those the callback
      raises and the one sleep raises for a negative interval: an exception
      of the fetcher never escapes as such. So when the interval is not
      negative and the callback never raises, a page is always returned. */
  lemma {:induction false} EngineEscapes(fetcher: nat -> Outcome, url: string, n: int, s: int,
                                          data: Option<string>, callback: Callback, k: nat)
    ensures var r := FetchTenaciously(fetcher, url, n, s, data, callback, k);
      (r.outcome.Raised? ==>
        (s < 0 && r.outcome.message == NegativeSleepMessage) || RaisesWith(callback, r.outcome.message)) &&
      (s >= 0 && NeverRaises(callback) ==> r.outcome.Returned?)
    decreases if n > 0 then n else 0, 2
  {
    var v := Judge(fetcher(k));
    if !v.Passed? {
      var first := MaybeRetry(fetcher, url, n - 1, s, data, callback, k + 1, v.page);
      if v.Failed? && first.outcome.Raised? {
        EngineEscapesRetriedTwice(fetcher, url, n, s, data, callback, k);
      } else {
        RetryEscapes(fetcher, url, n - 1, s, data, callback, k + 1, v.page);
      }
    }
  }

  /** The case of EngineEscapes where the retry decision for a failing page
      raised: only the second decision's outcome leaves the attempt. */
  lemma {:induction false} EngineEscapesRetriedTwice(fetcher: nat -> Outcome, url: string, n: int, s: int,
                                                      data: Option<string>, callback: Callback, k: nat)
    requires Judge(fetcher(k)).Failed?
    requires MaybeRetry(fetcher, url, n - 1, s, data, callback, k + 1, Judge(fetcher(k)).page).outcome.Raised?
    ensures var r := FetchTenaciously(fetcher, url, n, s, data, callback, k);
      (r.outcome.Raised? ==>
        (s < 0 && r.outcome.message == NegativeSleepMessage) || RaisesWith(callback, r.outcome.message)) &&
      (s >= 0 && NeverRaises(callback) ==> r.outcome.Returned?)
    decreases if n > 0 then n else 0, 1
  {
    var page := Judge(fetcher(k)).page;
    var first := MaybeRetry(fetcher, url, n - 1, s, data, callback, k + 1, page);
    var k2 := k + 1 + FetchCount(first.trace);
    var errorPage := InternalErrorPage(first.outcome.message);
    var second := MaybeRetry(fetcher, url, n - 1, s, data, callback, k2, errorPage);
    assert FetchTenaciously(fetcher, url, n, s, data, callback, k).outcome == second.outcome;
    RetryEscapes(fetcher, url, n - 1, s, data, callback, k2, errorPage);
  }

  lemma {:induction false} RetryEscapes(fetcher: nat -> Outcome, url: string, n: int, s: int,
                                         data: Option<string>, callback: Callback, k: nat, page: Page)
    ensures var r := MaybeRetry(fetcher, url, n, s, data, callback, k, page);
      (r.outcome.Raised? ==>
        (s < 0 && r.outcome.message == NegativeSleepMessage) || RaisesWith(callback, r.outcome.message)) &&
      (s >= 0 && NeverRaises(callback) ==> r.outcome.Returned?)
    decreases if n + 1 > 0 then n + 1 else 0, 0
  {
    if callback.Some? {
      match callback.value(page)
      case Failure(message) =>
        assert callback.value(page) == Failure(message);
      case Success(approved) =>
        if approved && n > 0 && s >= 0 {
          EngineEscapes(fetcher, url, n, s, data, callback, k);
        }
    }
  }

  /** When the callback never raises and the interval is not negative, the
      engine as written does exactly what the intended engine does. */
  lemma {:induction false} AgreesWhenNothingRaises(fetcher: nat -> Outcome, url: string, n: int, s: int,
                                                    data: Option<string>, callback: Callback, k: nat)
    ensures s >= 0 && NeverRaises(callback) ==>
      FetchTenaciously(fetcher, url, n, s, data, callback, k) ==
      FetchTenaciouslyIntended(fetcher, url, n, s, data, callback, k)
    decreases if n > 0 then n else 0, 1
  {
    if s >= 0 && NeverRaises(callback) {
      match Judge(fetcher(k))
      case Passed(page) =>
      case Caught(page) =>
        RetryAgreesWhenNothingRaises(fetcher, url, n - 1, s, data, callback, k + 1, page);
      case Failed(page) =>
        RetryAgreesWhenNothingRaises(fetcher, url, n - 1, s, data, callback, k + 1, page);
        IntendedRetryReturnsLast(fetcher, url, n - 1, s, data, callback, k + 1, page);
    }
  }

  lemma {:induction false} RetryAgreesWhenNothingRaises(fetcher: nat -> Outcome, url: string, n: int, s: int,
                                                         data: Option<string>, callback: Callback, k: nat, page: Page)
    ensures s >= 0 && NeverRaises(callback) ==>
      MaybeRetry(fetcher, url, n, s, data, callback, k, page) ==
      MaybeRetryIntended(fetcher, url, n, s, data, callback, k, page)
    decreases if n + 1 > 0 then n + 1 else 0, 0
  {
    if s >= 0 && NeverRaises(callback) && Approves(callback, page) && n > 0 {
      AgreesWhenNothingRaises(fetcher, url, n, s, data, callback, k);
    }
  }

  /** The counts of the engine as written: at least one call, exactly one
      sleep fewer than calls, a single call when the interval is negative,
      and at most Budget(n) calls when the callback never raises. */
  lemma EngineCounts(fetcher: nat -> Outcome, url: string, n: int, s: int,
                     data: Option<string>, callback: Callback, k: nat)
    ensures var r := FetchTenaciously(fetcher, url, n, s, data, callback, k);
      Alternates(r.trace, Fetch(url, Payload(data)), s) &&
      FetchCount(r.trace) >= 1 &&
      SleepCount(r.trace) == FetchCount(r.trace) - 1 &&
      (s < 0 ==> FetchCount(r.trace) == 1) &&
      (NeverRaises(callback) ==> FetchCount(r.trace) <= Budget(n))
  {
    var r := FetchTenaciously(fetcher, url, n, s, data, callback, k);
    EngineShape(fetcher, url, n, s, data, callback, k);
    AlternatesCounts(Fetch(url, Payload(data)), s, r.trace);
    AgreesWhenNothingRaises(fetcher, url, n, s, data, callback, k);
    if s >= 0 && NeverRaises(callback) {
      IntendedCounts(fetcher, url, n, s, data, callback, k);
    }
  }

  /** When the callback never raises and the interval is not negative, the
      engine returns the page of its last attempt as judged: the fetched
      page itself when it passed, its failure page otherwise (an exception
      of the fetcher is returned as an internal-error page). */
  lemma ReturnsLastAttempt(fetcher: nat -> Outcome, url: string, n: int, s: int,
                           data: Option<string>, callback: Callback, k: nat)
    ensures var r := FetchTenaciously(fetcher, url, n, s, data, callback, k);
      FetchCount(r.trace) >= 1 &&
      (s >= 0 && NeverRaises(callback) ==>
        r.outcome == Returned(Judge(fetcher(k + FetchCount(r.trace) - 1)).page))
  {
    AgreesWhenNothingRaises(fetcher, url, n, s, data, callback, k);
    IntendedReturnsLast(fetcher, url, n, s, data, callback, k);
  }

  /** When the callback never raises, every attempt before the last failed
      and its page was approved by the callback: the engine never retries
      past a passing page or a page the callback rejects. */
  lemma RetriesOnlyApprovedFailures(fetcher: nat -> Outcome, url: string, n: int, s: int,
                                    data: Option<string>, callback: Callback, k: nat)
    ensures var r := FetchTenaciously(fetcher, url, n, s, data, callback, k);
      NeverRaises(callback) ==>
        forall i :: k <= i < k + FetchCount(r.trace) - 1 ==>
          !Judge(fetcher(i)).Passed? && Approves(callback, Judge(fetcher(i)).page)
  {
    EngineCounts(fetcher, url, n, s, data, callback, k);
    AgreesWhenNothingRaises(fetcher, url, n, s, data, callback, k);
    IntendedRetriesOnlyApproved(fetcher, url, n, s, data, callback, k);
  }

  /** When every attempt fails and the callback approves every page, the
      engine spends its whole budget: Budget(n) calls, one sleep fewer, and
      the last attempt's failure page is returned. A negative interval
      instead stops it after one call, and when a retry was due the
      ValueError of sleep escapes. */
  lemma ExhaustsBudget(fetcher: nat -> Outcome, url: string, n: int, s: int,
                       data: Option<string>, callback: Callback, k: nat)
    requires forall i: nat :: k <= i ==> !Judge(fetcher(i)).Passed?
    requires forall p: Page :: Approves(callback, p)
    ensures var r := FetchTenaciously(fetcher, url, n, s, data, callback, k);
      FetchCount(r.trace) == (if s >= 0 then Budget(n) else 1) &&
      SleepCount(r.trace) == FetchCount(r.trace) - 1 &&
      r.outcome == if s < 0 && n > 1 then Raised(NegativeSleepMessage)
                   else Returned(Judge(fetcher(k + FetchCount(r.trace) - 1)).page)
  {
    EngineCounts(fetcher, url, n, s, data, callback, k);
    if s >= 0 {
      ApprovingNeverRaises(callback);
      AgreesWhenNothingRaises(fetcher, url, n, s, data, callback, k);
      IntendedExhausts(fetcher, url, n, s, data, callback, k);
    } else {
      NegativeIntervalStops(fetcher, url, n, s, data, callback, k);
    }
  }

  /** A callback that approves every page never raises. */
  lemma ApprovingNeverRaises(callback: Callback)
    requires forall p: Page :: Approves(callback, p)
    ensures NeverRaises(callback)
  {
    assert Approves(callback, InternalErrorPage([]));
    forall p: Page
      ensures callback.value(p).Success?
    {
      assert Approves(callback, p);
    }
  }

  /** With a negative interval, an approving callback and a first attempt
      that fails, the engine as written raises the ValueError of sleep when
      a retry is due, and otherwise returns the first failure page. */
  lemma NegativeIntervalStops(fetcher: nat -> Outcome, url: string, n: int, s: int,
                              data: Option<string>, callback: Callback, k: nat)
    requires s < 0
    requires !Judge(fetcher(k)).Passed?
    requires forall p: Page :: Approves(callback, p)
    ensures FetchTenaciously(fetcher, url, n, s, data, callback, k).outcome ==
      if n > 1 then Raised(NegativeSleepMessage) else Returned(Judge(fetcher(k)).page)
  {
    var page := Judge(fetcher(k)).page;
    assert Approves(callback, page);
    var first := MaybeRetry(fetcher, url, n - 1, s, data, callback, k + 1, page);
    assert first.outcome == if n > 1 then Raised(NegativeSleepMessage) else Returned(page);
    if n > 1 {
      var errorPage := InternalErrorPage(NegativeSleepMessage);
      assert Approves(callback, errorPage);
      var second := MaybeRetry(fetcher, url, n - 1, s, data, callback, k + 1 + FetchCount(first.trace), errorPage);
      assert second.outcome == Raised(NegativeSleepMessage);
    }
  }

  /** The c attempts from attempt lo on all fail. */
  ghost predicate FailsFrom(fetcher: nat -> Outcome, lo: nat, c: nat)
    decreases c
  {
    c == 0 || (!Judge(fetcher(lo)).Passed? && FailsFrom(fetcher, lo + 1, c - 1))
  }

  /** A run that made c calls starting at attempt k stopped at its first
      passing attempt: every attempt before the last failed, and when the
      last one passed, its page is what the run returned. */
  ghost predicate StopsAtFirstPass(fetcher: nat -> Outcome, k: nat, c: nat, outcome: Outcome)
    decreases c
  {
    if c == 0 then true
    else if c == 1 then Judge(fetcher(k)).Passed? ==> outcome == Returned(Judge(fetcher(k)).page)
    else !Judge(fetcher(k)).Passed? && StopsAtFirstPass(fetcher, k + 1, c - 1, outcome)
  }

  /** StopsAtFirstPass says what its name says. */
  lemma {:induction false} StopsAtFirstPassMeans(fetcher: nat -> Outcome, k: nat, c: nat, outcome: Outcome)
    requires c >= 1
    ensures StopsAtFirstPass(fetcher, k, c, outcome) <==>
      FailsFrom(fetcher, k, c - 1) &&
      (Judge(fetcher(k + c - 1)).Passed? ==> outcome == Returned(Judge(fetcher(k + c - 1)).page))
    decreases c
  {
    if c > 1 {
      StopsAtFirstPassMeans(fetcher, k + 1, c - 1, outcome);
    }
  }

  /** A run that raised after stopping at its first pass never passed. */
  lemma {:induction false} RaisedRunFailed(fetcher: nat -> Outcome, k: nat, c: nat, outcome: Outcome)
    requires outcome.Raised? && StopsAtFirstPass(fetcher, k, c, outcome)
    ensures FailsFrom(fetcher, k, c)
    decreases c
  {
    if c > 1 {
      RaisedRunFailed(fetcher, k + 1, c - 1, outcome);
    }
  }

  /** Failing attempts followed by a run that stopped at its first pass
      stopped there too. */
  lemma {:induction false} FailuresThenStop(fetcher: nat -> Outcome, k: nat, x: nat, y: nat, outcome: Outcome)
    requires FailsFrom(fetcher, k, x) && StopsAtFirstPass(fetcher, k + x, y, outcome)
    ensures StopsAtFirstPass(fetcher, k, x + y, outcome)
    decreases x
  {
    if x > 0 {
      FailuresThenStop(fetcher, k + 1, x - 1, y, outcome);
    }
  }

  /** FailsFrom says what its name says. */
  lemma {:induction false} FailsFromMeans(fetcher: nat -> Outcome, lo: nat, c: nat)
    ensures FailsFrom(fetcher, lo, c) <==> forall i: nat :: lo <= i < lo + c ==> !Judge(fetcher(i)).Passed?
    decreases c
  {
    if c > 0 {
      FailsFromMeans(fetcher, lo + 1, c - 1);
    }
  }

  lemma {:induction false} FetchCountConcat(a: seq<Event>, b: seq<Event>)
    ensures FetchCount(a + b) == FetchCount(a) + FetchCount(b)
    decreases |a|
  {
    if a != [] {
      assert (a + b)[1..] == a[1..] + b;
      FetchCountConcat(a[1..], b);
    } else {
      assert a + b == b;
    }
  }

  /** Whatever the callback and the interval, the engine as written never
      calls the fetcher again after a passing attempt, and returns that
      attempt's page unchanged. */
  lemma PassEndsRun(fetcher: nat -> Outcome, url: string, n: int, s: int,
                    data: Option<string>, callback: Callback, k: nat)
    ensures var r := FetchTenaciously(fetcher, url, n, s, data, callback, k);
      var last := k + FetchCount(r.trace) - 1;
      FetchCount(r.trace) >= 1 &&
      (forall i: nat :: k <= i < last ==> !Judge(fetcher(i)).Passed?) &&
      (Judge(fetcher(last)).Passed? ==> r.outcome == Returned(fetcher(last).page))
  {
    var r := FetchTenaciously(fetcher, url, n, s, data, callback, k);
    EngineStops(fetcher, url, n, s, data, callback, k);
    StopsAtFirstPassMeans(fetcher, k, FetchCount(r.trace), r.outcome);
    FailsFromMeans(fetcher, k, FetchCount(r.trace) - 1);
  }

  lemma {:induction false} EngineStops(fetcher: nat -> Outcome, url: string, n: int, s: int,
                                        data: Option<string>, callback: Callback, k: nat)
    ensures var r := FetchTenaciously(fetcher, url, n, s, data, callback, k);
      FetchCount(r.trace) >= 1 && StopsAtFirstPass(fetcher, k, FetchCount(r.trace), r.outcome)
    decreases if n > 0 then n else 0, 2
  {
    var call := Fetch(url, Payload(data));
    var v := Judge(fetcher(k));
    var r := FetchTenaciously(fetcher, url, n, s, data, callback, k);
    if v.Passed? {
      assert r == Run(Returned(v.page), [call]);
      PrependCounts(call, []);
    } else {
      var first := MaybeRetry(fetcher, url, n - 1, s, data, callback, k + 1, v.page);
      if v.Failed? && first.outcome.Raised? {
        EngineStopsRetriedTwice(fetcher, url, n, s, data, callback, k);
      } else {
        assert r == Prepend(call, first);
        PrependCounts(call, first.trace);
        RetryStops(fetcher, url, n - 1, s, data, callback, k + 1, v.page);
        StopsAfterFailure(fetcher, k, FetchCount(first.trace), FetchCount(r.trace), r.outcome);
      }
    }
  }

  /** The case of EngineStops where the retry decision for a failing page
      raised and the attempt decided again. */
  lemma {:induction false} EngineStopsRetriedTwice(fetcher: nat -> Outcome, url: string, n: int, s: int,
                                                    data: Option<string>, callback: Callback, k: nat)
    requires Judge(fetcher(k)).Failed?
    requires MaybeRetry(fetcher, url, n - 1, s, data, callback, k + 1, Judge(fetcher(k)).page).outcome.Raised?
    ensures var r := FetchTenaciously(fetcher, url, n, s, data, callback, k);
      FetchCount(r.trace) >= 1 && StopsAtFirstPass(fetcher, k, FetchCount(r.trace), r.outcome)
    decreases if n > 0 then n else 0, 1
  {
    var call := Fetch(url, Payload(data));
    var page := Judge(fetcher(k)).page;
    var first := MaybeRetry(fetcher, url, n - 1, s, data, callback, k + 1, page);
    var k2 := k + 1 + FetchCount(first.trace);
    var errorPage := InternalErrorPage(first.outcome.message);
    var second := MaybeRetry(fetcher, url, n - 1, s, data, callback, k2, errorPage);
    var r := FetchTenaciously(fetcher, url, n, s, data, callback, k);
    assert r.outcome == second.outcome && FetchCount(r.trace) == 1 + FetchCount(first.trace) + FetchCount(second.trace) by {
      assert r == Run(second.outcome, [call] + first.trace + second.trace);
      ThreePartCount(call, first.trace, second.trace);
    }
    assert StopsAtFirstPass(fetcher, k + 1, FetchCount(first.trace), first.outcome) by {
      RetryStops(fetcher, url, n - 1, s, data, callback, k + 1, page);
    }
    assert StopsAtFirstPass(fetcher, k2, FetchCount(second.trace), second.outcome) by {
      RetryStops(fetcher, url, n - 1, s, data, callback, k2, errorPage);
    }
    StopsAfterTwoDecisions(fetcher, k, FetchCount(first.trace), FetchCount(second.trace), FetchCount(r.trace),
                           first.outcome, second.outcome, r.outcome);
  }

  lemma ThreePartCount(call: Event, t1: seq<Event>, t2: seq<Event>)
    requires call.Fetch?
    ensures FetchCount([call] + t1 + t2) == 1 + FetchCount(t1) + FetchCount(t2)
  {
    FetchCountConcat([call] + t1, t2);
    FetchCountConcat([call], t1);
    PrependCounts(call, []);
  }

  lemma {:induction false} RetryStops(fetcher: nat -> Outcome, url: string, n: int, s: int,
                                       data: Option<string>, callback: Callback, k: nat, page: Page)
    ensures var r := MaybeRetry(fetcher, url, n, s, data, callback, k, page);
      StopsAtFirstPass(fetcher, k, FetchCount(r.trace), r.outcome)
    decreases if n + 1 > 0 then n + 1 else 0, 0
  {
    var r := MaybeRetry(fetcher, url, n, s, data, callback, k, page);
    if Approves(callback, page) && n > 0 && s >= 0 {
      var inner := FetchTenaciously(fetcher, url, n, s, data, callback, k);
      assert r == Prepend(Sleep(s), inner);
      PrependCounts(Sleep(s), inner.trace);
      EngineStops(fetcher, url, n, s, data, callback, k);
    } else {
      assert r.trace == [];
    }
  }

  /** A failing attempt followed by a run that stopped at its first pass
      stopped there too. */
  lemma StopsAfterFailure(fetcher: nat -> Outcome, k: nat, c: nat, total: nat, outcome: Outcome)
    requires !Judge(fetcher(k)).Passed?
    requires StopsAtFirstPass(fetcher, k + 1, c, outcome)
    requires total == 1 + c
    ensures total >= 1 && StopsAtFirstPass(fetcher, k, total, outcome)
  {
    FailuresThenStop(fetcher, k, 1, c, outcome);
  }

  /** A failing attempt, a first decision that raised after c1 calls, and a
      second decision that stopped at its first pass after c2 calls: the
      last call of the first decision failed (a pass would have been
      returned, not raised), so the whole stopped at its first pass. */
  lemma StopsAfterTwoDecisions(fetcher: nat -> Outcome, k: nat, c1: nat, c2: nat, total: nat,
                                first: Outcome, second: Outcome, outcome: Outcome)
    requires !Judge(fetcher(k)).Passed?
    requires first.Raised? && StopsAtFirstPass(fetcher, k + 1, c1, first)
    requires StopsAtFirstPass(fetcher, k + 1 + c1, c2, second)
    requires total == 1 + c1 + c2 && outcome == second
    ensures total >= 1 && StopsAtFirstPass(fetcher, k, total, outcome)
  {
    RaisedRunFailed(fetcher, k + 1, c1, first);
    FailuresThenStop(fetcher, k, 1 + c1, c2, outcome);
  }

  /** A first attempt that passes is returned unchanged after exactly one
      call and no sleep. */
  lemma ImmediateSuccess(fetcher: nat -> Outcome, url: string, n: int, s: int,
                         data: Option<string>, callback: Callback, k: nat)
    requires Judge(fetcher(k)).Passed?
    ensures FetchTenaciously(fetcher, url, n, s, data, callback, k)
      == Run(Returned(fetcher(k).page), [Fetch(url, Payload(data))])
  {
  }

  /** The retry decision: a missing callback, a rejecting callback or a
      used-up counter return the page with nothing done; a raising callback
      lets its exception out; an approved page with a positive counter
      leads to a sleep and a further call, or, when the interval is
      negative, to the ValueError of sleep. */
  lemma RetryDecision(fetcher: nat -> Outcome, url: string, n: int, s: int,
                      data: Option<string>, callback: Callback, k: nat, page: Page)
    ensures var r := MaybeRetry(fetcher, url, n, s, data, callback, k, page);
      (callback.Some? && callback.value(page).Failure? ==>
        r == Run(Raised(callback.value(page).error), [])) &&
      (!Approves(callback, page) && (callback.Some? ==> callback.value(page).Success?) ==>
        r == Run(Returned(page), [])) &&
      (Approves(callback, page) && n <= 0 ==> r == Run(Returned(page), [])) &&
      (Approves(callback, page) && n > 0 && s < 0 ==> r == Run(Raised(NegativeSleepMessage), [])) &&
      (Approves(callback, page) && n > 0 && s >= 0 ==>
        |r.trace| >= 2 && r.trace[0] == Sleep(s) && r.trace[1] == Fetch(url, Payload(data)))
  {
  }

  /** A fetcher that raises on every call, with the default callback: after
      Budget(n) calls the engine returns the internal-error page carrying
      the exception's message; with a negative interval and a retry due,
      the ValueError of the first sleep escapes after one call. */
  lemma AlwaysRaising(message: string, url: string, n: int, s: int, data: Option<string>)
    ensures var r := FetchTenaciously((i: nat) => Raised(message), url, n, s, data, DefaultCallback, 0);
      FetchCount(r.trace) == (if s >= 0 then Budget(n) else 1) &&
      SleepCount(r.trace) == FetchCount(r.trace) - 1 &&
      r.outcome == if s < 0 && n > 1 then Raised(NegativeSleepMessage)
                   else Returned(Page(HttpInternalError, Text(message), None))
  {
    ExhaustsBudget((i: nat) => Raised(message), url, n, s, data, DefaultCallback, 0);
  }

  /** Three attempts that each return a failing status, no sleep interval,
      the default callback: three calls, two sleeps, and the third
      attempt's page (with its status) is returned. */
  lemma ThreeFailingAttempts(status: nat -> int, url: string)
    requires forall i: nat :: status(i) >= HttpBadRequest
    ensures var fetcher := (i: nat) => Returned(Page(status(i), Text([]), Some(Response(status(i), [], map[], []))));
      var r := FetchTenaciously(fetcher, url, 3, 0, None, DefaultCallback, 0);
      FetchCount(r.trace) == 3 && SleepCount(r.trace) == 2 &&
      r.outcome.Returned? && r.outcome.page.status == status(2)
  {
    var fetcher := (i: nat) => Returned(Page(status(i), Text([]), Some(Response(status(i), [], map[], []))));
    ExhaustsBudget(fetcher, url, 3, 0, None, DefaultCallback, 0);
  }

  /** A page built by fetch_json passes the engine exactly when its body was
      kept as a decoder rather than raw text, that is, below status 400. */
  lemma FetchJsonPagesJudged(url: string, timeout: Option<int>, response: Response)
    ensures var page := FetchJson(url, timeout, response).1;
      Judge(Returned(page)).Passed? <==> !page.body.Text?
  {
  }

  /** The engine as written can exceed its budget: with n = 3, a fetcher
      whose second call raises and a callback that raises on the resulting
      internal-error page, the callback's exception escapes the second
      attempt, the first attempt's `try` catches it and retries again, and
      the fetcher is called four times. */
  lemma CaughtRetryExceedsBudget()
    ensures var page := Page(500, Text([]), Some(Response(500, [], map[], [])));
      var fetcher := (i: nat) => if i == 1 then Raised("E") else Returned(page);
      var callback: Callback := Some((p: Page) => if p == InternalErrorPage("E") then Failure("C") else Success(true));
      var r := FetchTenaciously(fetcher, "u", 3, 0, None, callback, 0);
      FetchCount(r.trace) == 4 && Budget(3) == 3 && r.outcome == Returned(page)
  {
    var page := Page(500, Text([]), Some(Response(500, [], map[], [])));
    var fetcher := (i: nat) => if i == 1 then Raised("E") else Returned(page);
    var callback: Callback := Some((p: Page) => if p == InternalErrorPage("E") then Failure("C") else Success(true));
    var call := Fetch("u", None);
    assert callback.value(page) == Success(true);
    assert callback.value(InternalErrorPage("C")) == Success(true);
    assert callback.value(InternalErrorPage("E")) == Failure("C");
    // The second attempt raises "E"; the callback raises "C" on its page.
    assert MaybeRetry(fetcher, "u", 1, 0, None, callback, 2, InternalErrorPage("E")) == Run(Raised("C"), []);
    assert FetchTenaciously(fetcher, "u", 2, 0, None, callback, 1) == Run(Raised("C"), [call]);
    var first := MaybeRetry(fetcher, "u", 2, 0, None, callback, 1, page);
    assert first == Run(Raised("C"), [Sleep(0), call]);
    PrependCounts(Sleep(0), [call]);
    PrependCounts(call, []);
    assert FetchCount(first.trace) == 1;
    // The first attempt catches "C" and retries with its own counter.
    assert MaybeRetry(fetcher, "u", 0, 0, None, callback, 4, page) == Run(Returned(page), []);
    assert FetchTenaciously(fetcher, "u", 1, 0, None, callback, 3) == Run(Returned(page), [call]);
    assert MaybeRetry(fetcher, "u", 1, 0, None, callback, 3, page) == Run(Returned(page), [Sleep(0), call]);
    assert FetchTenaciously(fetcher, "u", 2, 0, None, callback, 2) == Run(Returned(page), [call, Sleep(0), call]);
    var second := MaybeRetry(fetcher, "u", 2, 0, None, callback, 2, InternalErrorPage("C"));
    assert second == Run(Returned(page), [Sleep(0), call, Sleep(0), call]);
    var r := FetchTenaciously(fetcher, "u", 3, 0, None, callback, 0);
    assert r == Run(Returned(page), [call] + first.trace + second.trace);
    EngineShape(fetcher, "u", 3, 0, None, callback, 0);
    AlternatesCounts(call, 0, r.trace);
    assert |r.trace| == 7;
  }

  // ---------------------------------------------------------------------
  // The intended engine.

  /** Whatever n, s and the callback are, the intended engine calls the
      fetcher at least once and at most Budget(n) times, alternating calls
      with sleeps of s seconds. */
  lemma {:induction false} IntendedShape(fetcher: nat -> Outcome, url: string, n: int, s: int,
                                          data: Option<string>, callback: Callback, k: nat)
    ensures var r := FetchTenaciouslyIntended(fetcher, url, n, s, data, callback, k);
      Alternates(r.trace, Fetch(url, Payload(data)), s) && |r.trace| <= 2 * Budget(n) - 1
    decreases if n > 0 then n else 0, 1
  {
    var call := Fetch(url, Payload(data));
    var v := Judge(fetcher(k));
    if v.Passed? {
      AlternatesFromRetries(call, s, []);
    } else {
      var rest := MaybeRetryIntended(fetcher, url, n - 1, s, data, callback, k + 1, v.page);
      IntendedRetryShape(fetcher, url, n - 1, s, data, callback, k + 1, v.page);
      AlternatesFromRetries(call, s, rest.trace);
    }
  }

  lemma {:induction false} IntendedRetryShape(fetcher: nat -> Outcome, url: string, n: int, s: int,
                                               data: Option<string>, callback: Callback, k: nat, page: Page)
    ensures var r := MaybeRetryIntended(fetcher, url, n, s, data, callback, k, page);
      Retries(r.trace, Fetch(url, Payload(data)), s) && |r.trace| <= 2 * (if n > 0 then n else 0)
    decreases if n + 1 > 0 then n + 1 else 0, 0
  {
    if Approves(callback, page) && n > 0 && s >= 0 {
      var rest := FetchTenaciouslyIntended(fetcher, url, n, s, data, callback, k);
      IntendedShape(fetcher, url, n, s, data, callback, k);
      RetriesFromAlternates(Fetch(url, Payload(data)), s, rest.trace);
    }
  }

  /** The intended engine never calls the fetcher more than Budget(n)
      times, whatever the callback and the interval do. */
  lemma IntendedCounts(fetcher: nat -> Outcome, url: string, n: int, s: int,
                       data: Option<string>, callback: Callback, k: nat)
    ensures var r := FetchTenaciouslyIntended(fetcher, url, n, s, data, callback, k);
      1 <= FetchCount(r.trace) <= Budget(n) &&
      SleepCount(r.trace) == FetchCount(r.trace) - 1
  {
    var r := FetchTenaciouslyIntended(fetcher, url, n, s, data, callback, k);
    IntendedShape(fetcher, url, n, s, data, callback, k);
    AlternatesCounts(Fetch(url, Payload(data)), s, r.trace);
  }

  /** The intended engine returns, when it returns a page at all, the page
      of its last attempt as judged; it always returns one when the
      interval is not negative and the callback never raises. */
  lemma {:induction false} IntendedReturnsLast(fetcher: nat -> Outcome, url: string, n: int, s: int,
                                                data: Option<string>, callback: Callback, k: nat)
    ensures var r := FetchTenaciouslyIntended(fetcher, url, n, s, data, callback, k);
      FetchCount(r.trace) >= 1 &&
      (r.outcome.Returned? ==> r.outcome.page == Judge(fetcher(k + FetchCount(r.trace) - 1)).page) &&
      (s >= 0 && NeverRaises(callback) ==> r.outcome.Returned?)
    decreases if n > 0 then n else 0, 1
  {
    var call := Fetch(url, Payload(data));
    var v := Judge(fetcher(k));
    if v.Passed? {
      PrependCounts(call, []);
    } else {
      var rest := MaybeRetryIntended(fetcher, url, n - 1, s, data, callback, k + 1, v.page);
      IntendedRetryReturnsLast(fetcher, url, n - 1, s, data, callback, k + 1, v.page);
      PrependCounts(call, rest.trace);
    }
  }

  lemma {:induction false} IntendedRetryReturnsLast(fetcher: nat -> Outcome, url: string, n: int, s: int,
                                                     data: Option<string>, callback: Callback, k: nat, page: Page)
    ensures var r := MaybeRetryIntended(fetcher, url, n, s, data, callback, k, page);
      (r.outcome.Returned? && FetchCount(r.trace) == 0 ==> r.outcome.page == page) &&
      (r.outcome.Returned? && FetchCount(r.trace) > 0 ==>
        r.outcome.page == Judge(fetcher(k + FetchCount(r.trace) - 1)).page) &&
      (s >= 0 && NeverRaises(callback) ==> r.outcome.Returned?)
    decreases if n + 1 > 0 then n + 1 else 0, 0
  {
    if Approves(callback, page) && n > 0 && s >= 0 {
      var rest := FetchTenaciouslyIntended(fetcher, url, n, s, data, callback, k);
      IntendedReturnsLast(fetcher, url, n, s, data, callback, k);
      PrependCounts(Sleep(s), rest.trace);
    }
  }

  /** In the intended engine, every attempt before the last failed and its
      page was approved by the callback. */
  lemma {:induction false} IntendedRetriesOnlyApproved(fetcher: nat -> Outcome, url: string, n: int, s: int,
                                                        data: Option<string>, callback: Callback, k: nat)
    ensures var r := FetchTenaciouslyIntended(fetcher, url, n, s, data, callback, k);
      forall i :: k <= i < k + FetchCount(r.trace) - 1 ==>
        !Judge(fetcher(i)).Passed? && Approves(callback, Judge(fetcher(i)).page)
    decreases if n > 0 then n else 0
  {
    var call := Fetch(url, Payload(data));
    var v := Judge(fetcher(k));
    if v.Passed? {
      PrependCounts(call, []);
    } else {
      var rest := MaybeRetryIntended(fetcher, url, n - 1, s, data, callback, k + 1, v.page);
      assert FetchTenaciouslyIntended(fetcher, url, n, s, data, callback, k) == Prepend(call, rest);
      PrependCounts(call, rest.trace);
      if Approves(callback, v.page) && n - 1 > 0 && s >= 0 {
        var inner := FetchTenaciouslyIntended(fetcher, url, n - 1, s, data, callback, k + 1);
        assert rest == Prepend(Sleep(s), inner);
        IntendedRetriesOnlyApproved(fetcher, url, n - 1, s, data, callback, k + 1);
        PrependCounts(Sleep(s), inner.trace);
      } else {
        assert rest.trace == [];
      }
    }
  }

  /** In the intended engine, when every attempt fails, the callback
      approves every page and the interval is not negative, the whole
      budget is spent and the last failure page returned. */
  lemma {:induction false} IntendedExhausts(fetcher: nat -> Outcome, url: string, n: int, s: int,
                                             data: Option<string>, callback: Callback, k: nat)
    requires s >= 0
    requires forall i: nat :: k <= i ==> !Judge(fetcher(i)).Passed?
    requires forall p: Page :: Approves(callback, p)
    ensures var r := FetchTenaciouslyIntended(fetcher, url, n, s, data, callback, k);
      FetchCount(r.trace) == Budget(n) &&
      SleepCount(r.trace) == Budget(n) - 1 &&
      r.outcome == Returned(Judge(fetcher(k + Budget(n) - 1)).page)
    decreases if n > 0 then n else 0, 1
  {
    if n > 1 {
      IntendedExhaustsStep(fetcher, url, n, s, data, callback, k);
    } else {
      var call := Fetch(url, Payload(data));
      var page := Judge(fetcher(k)).page;
      assert !Judge(fetcher(k)).Passed? && Approves(callback, page);
      var rest := MaybeRetryIntended(fetcher, url, n - 1, s, data, callback, k + 1, page);
      assert rest == Run(Returned(page), []);
      assert FetchTenaciouslyIntended(fetcher, url, n, s, data, callback, k) == Prepend(call, rest);
      PrependCounts(call, []);
    }
  }

  /** The case n > 1 of IntendedExhausts: a failing call and a sleep, then
      the engine again with one attempt fewer. */
  lemma {:induction false} IntendedExhaustsStep(fetcher: nat -> Outcome, url: string, n: int, s: int,
                                                 data: Option<string>, callback: Callback, k: nat)
    requires s >= 0 && n > 1
    requires forall i: nat :: k <= i ==> !Judge(fetcher(i)).Passed?
    requires forall p: Page :: Approves(callback, p)
    ensures var r := FetchTenaciouslyIntended(fetcher, url, n, s, data, callback, k);
      FetchCount(r.trace) == n && SleepCount(r.trace) == n - 1 &&
      r.outcome == Returned(Judge(fetcher(k + n - 1)).page)
    decreases n, 0
  {
    var call := Fetch(url, Payload(data));
    var page := Judge(fetcher(k)).page;
    assert !Judge(fetcher(k)).Passed? && Approves(callback, page);
    var inner := FetchTenaciouslyIntended(fetcher, url, n - 1, s, data, callback, k + 1);
    var rest := MaybeRetryIntended(fetcher, url, n - 1, s, data, callback, k + 1, page);
    assert rest == Prepend(Sleep(s), inner);
    assert FetchTenaciouslyIntended(fetcher, url, n, s, data, callback, k) == Prepend(call, rest);
    IntendedExhausts(fetcher, url, n - 1, s, data, callback, k + 1);
    PrependCounts(Sleep(s), inner.trace);
    PrependCounts(call, rest.trace);
  }

  /** What `callback(page)` answers in a round of the loop below: nothing
      to retry (false) when the attempt passed or there is no callback. */
  function Answer(verdict: Verdict, callback: Callback): Result<bool, string> {
    if verdict.Passed? || callback.None? then Success(false) else callback.value(verdict.page)
  }

  /** One round of the intended engine, after the events `done`: it ends
      the run with the answer's exception, with the attempt's page, or with
      the ValueError of sleep, or it records a call and a sleep and goes on
      with one attempt fewer. */
  lemma IntendedRound(fetcher: nat -> Outcome, url: string, m: int, s: int,
                      data: Option<string>, callback: Callback, k: nat, done: seq<Event>)
    ensures var v := Judge(fetcher(k));
      var call := Fetch(url, Payload(data));
      var answer := Answer(v, callback);
      Continue(done, FetchTenaciouslyIntended(fetcher, url, m, s, data, callback, k)) ==
        if answer.Failure? then Run(Raised(answer.error), done + [call])
        else if !answer.value || m - 1 <= 0 then Run(Returned(v.page), done + [call])
        else if s < 0 then Run(Raised(NegativeSleepMessage), done + [call])
        else Continue(done + [call, Sleep(s)], FetchTenaciouslyIntended(fetcher, url, m - 1, s, data, callback, k + 1))
  {
    var v := Judge(fetcher(k));
    var call := Fetch(url, Payload(data));
    var answer := Answer(v, callback);
    if answer.Success? && answer.value && m - 1 > 0 && s >= 0 {
      var more := FetchTenaciouslyIntended(fetcher, url, m - 1, s, data, callback, k + 1);
      assert done + ([call] + ([Sleep(s)] + more.trace)) == done + [call, Sleep(s)] + more.trace;
    }
  }

  /** The intended engine as a loop: the counter is decremented and the
      fetcher called each time round; the loop leaves with a passing page,
      with a page the callback rejects or that used up the counter, or with
      the exception the callback or sleep raised. When nothing can raise,
      this is also exactly what the engine as written does. */
  method FetchTenaciouslyLoop(fetcher: nat -> Outcome, url: string, n: int, s: int,
                              data: Option<string>, callback: Callback)
    returns (outcome: Outcome, trace: seq<Event>)
    ensures Run(outcome, trace) == FetchTenaciouslyIntended(fetcher, url, n, s, data, callback, 0)
    ensures s >= 0 && NeverRaises(callback) ==>
      Run(outcome, trace) == FetchTenaciously(fetcher, url, n, s, data, callback, 0)
  {
    ghost var whole := FetchTenaciouslyIntended(fetcher, url, n, s, data, callback, 0);
    var m, k := n, 0;
    trace := [];
    assert whole == Continue(trace, whole);
    while true
      invariant whole == Continue(trace, FetchTenaciouslyIntended(fetcher, url, m, s, data, callback, k))
      decreases if m > 0 then m else 0
    {
      IntendedRound(fetcher, url, m, s, data, callback, k, trace);
      var verdict := Judge(fetcher(k));
      var call := Fetch(url, Payload(data));
      var answer := Answer(verdict, callback);
      m, k := m - 1, k + 1;
      if answer.Failure? {
        outcome, trace := Raised(answer.error), trace + [call];
        break;
      } else if !answer.value || m <= 0 {
        outcome, trace := Returned(verdict.page), trace + [call];
        break;
      } else if s < 0 {
        outcome, trace := Raised(NegativeSleepMessage), trace + [call];
        break;
      }
      trace := trace + [call, Sleep(s)];
    }
    AgreesWhenNothingRaises(fetcher, url, n, s, data, callback, 0);
  }

  /** A run whose trace is preceded by the events already recorded. */
  function Continue(done: seq<Event>, r: Run): Run {
    Run(r.outcome, done + r.trace)
  }
}
