/**
 * The per-URL retry policy of the asynchronous client (`fetch_url`).
 *
 * The HTTP client and the clock are replaced by a sequence of attempt
 * outcomes: `outcomes[n]` is what attempt `n` (0-based) would produce if it
 * were made. A response that `raise_for_status` rejects is a `Failure`, like a
 * transport error; an exception of any other kind escapes the retry loop.
 */
module FetchRetry {

  /** What one GET attempt produces. */
  datatype Outcome =
    | Success(status: int, elapsed: real)     // response accepted by raise_for_status
    | Failure(error: string, elapsed: real)   // RequestError or HTTPStatusError, with str(e)
    | Unhandled(error: string)                // any other exception: not caught by fetch_url

  /**
   * The record fetch_url returns. Its `status` is an HTTP code or the marker
   * "failed"; the `error` key exists exactly for the "failed" records, which
   * this type states by construction.
   */
  datatype FetchResult =
    | Fetched(url: string, status: int, time: real)
    | FetchFailed(url: string, time: real, error: string)

  /**
   * What a fetch_url task leaves in the gathered list: a record, an exception
   * object (gather is called with return_exceptions=True), or Python's `None`
   * when the retry loop runs zero times (a negative `retries`).
   */
  datatype Entry =
    | Record(result: FetchResult)
    | Raised(error: string)
    | Missing

  /** The retry count the client uses (the default of `retries`). */
  const DefaultRetries: int := 2

  /** The fixed pause, in seconds, after a failed attempt that is not the last. */
  const RetryDelay: real := 0.5

  /** An entry together with the attempts made and the total time slept. */
  datatype Run = Run(entry: Entry, attempts: nat, slept: real)

  /** The run of the retry loop from attempt `n` on, all earlier attempts having failed. */
  function RunFrom(url: string, outcomes: seq<Outcome>, retries: int, n: nat): (r: Run)
    requires n <= retries < |outcomes|
    ensures n + 1 <= r.attempts <= retries + 1
    decreases retries - n
  {
    match outcomes[n]
    case Success(status, elapsed) =>
      Run(Record(Fetched(url, status, elapsed)), n + 1, (n as real) * RetryDelay)
    case Unhandled(error) =>
      Run(Raised(error), n + 1, (n as real) * RetryDelay)
    case Failure(error, elapsed) =>
      if n == retries then
        Run(Record(FetchFailed(url, elapsed, error)), n + 1, (n as real) * RetryDelay)
      else
        RunFrom(url, outcomes, retries, n + 1)
  }

  /** The whole run of fetch_url on `url` with the given retry count. */
  function Fetch(url: string, outcomes: seq<Outcome>, retries: int): (r: Run)
    requires retries < |outcomes|
    ensures r.attempts <= if retries < 0 then 0 else retries + 1
  {
    if retries < 0 then Run(Missing, 0, 0.0) else RunFrom(url, outcomes, retries, 0)
  }

  /**
   * The retry loop itself: up to `retries + 1` attempts, returning on the
   * first success, pausing after each failure but the last, and returning a
   * "failed" record for the last failure. Also reports how many attempts it
   * made and how long it slept.
   */
  method FetchUrl(url: string, outcomes: seq<Outcome>, retries: int)
    returns (entry: Entry, attempts: nat, slept: real)
    requires retries < |outcomes|
    ensures Run(entry, attempts, slept) == Fetch(url, outcomes, retries)
  {
    attempts, slept := 0, 0.0;
    var attempt: nat := 0;
    while attempt <= retries
      invariant attempt <= if retries < 0 then 0 else retries
      invariant attempts == attempt && slept == (attempt as real) * RetryDelay
      invariant retries >= 0 ==> Fetch(url, outcomes, retries) == RunFrom(url, outcomes, retries, attempt)
      decreases retries - attempt
    {
      attempts := attempts + 1;
      match outcomes[attempt] {
        case Success(status, elapsed) =>
          entry := Record(Fetched(url, status, elapsed));
          return;
        case Unhandled(error) =>
          entry := Raised(error);
          return;
        case Failure(error, elapsed) =>
          if attempt == retries {
            entry := Record(FetchFailed(url, elapsed, error));
            return;
          }
      }
      slept := slept + RetryDelay;
      attempt := attempt + 1;
    }
    entry := Missing;
  }

  /** The entry a terminating attempt produces. */
  function Conclude(url: string, o: Outcome): Entry
  {
    match o
    case Success(status, elapsed) => Record(Fetched(url, status, elapsed))
    case Failure(error, elapsed) => Record(FetchFailed(url, elapsed, error))
    case Unhandled(error) => Raised(error)
  }

  /** The shape of a run from attempt `n`: where it stops and why. */
  lemma {:induction false} RunFromStops(url: string, outcomes: seq<Outcome>, retries: int, n: nat)
    requires n <= retries < |outcomes|
    ensures var r := RunFrom(url, outcomes, retries, n);
      && r.slept == ((r.attempts - 1) as real) * RetryDelay
      && (forall j :: n <= j < r.attempts - 1 ==> outcomes[j].Failure?)
      && (r.attempts - 1 == retries || !outcomes[r.attempts - 1].Failure?)
      && r.entry == Conclude(url, outcomes[r.attempts - 1])
    decreases retries - n
  {
    if outcomes[n].Failure? && n < retries {
      RunFromStops(url, outcomes, retries, n + 1);
    }
  }

  /**
   * At most `retries + 1` attempts, at least one when `retries` is not
   * negative; one pause of RetryDelay after every attempt but the last.
   */
  lemma FetchAttemptsBounded(url: string, outcomes: seq<Outcome>, retries: int)
    requires retries < |outcomes|
    ensures var r := Fetch(url, outcomes, retries);
      && (retries < 0 ==> r == Run(Missing, 0, 0.0))
      && (retries >= 0 ==>
            (1 <= r.attempts <= retries + 1 && r.slept == ((r.attempts - 1) as real) * RetryDelay))
  {
    if retries >= 0 {
      RunFromStops(url, outcomes, retries, 0);
    }
  }

  /**
   * The attempt that ends the run is the first one that did not fail, or the
   * last allowed one; the entry is built from that attempt's data alone.
   */
  lemma FetchStopsAtTerminalAttempt(url: string, outcomes: seq<Outcome>, retries: int)
    requires 0 <= retries < |outcomes|
    ensures var r := Fetch(url, outcomes, retries);
      && 1 <= r.attempts
      && (forall j :: 0 <= j < r.attempts - 1 ==> outcomes[j].Failure?)
      && (r.attempts - 1 == retries || !outcomes[r.attempts - 1].Failure?)
      && r.entry == Conclude(url, outcomes[r.attempts - 1])
  {
    RunFromStops(url, outcomes, retries, 0);
  }

  /**
   * If attempt `k` is the first success, no later attempt is made and the
   * record carries that attempt's status and elapsed time, and no error.
   */
  lemma FetchFirstSuccess(url: string, outcomes: seq<Outcome>, retries: int, k: nat)
    requires k <= retries < |outcomes|
    requires outcomes[k].Success?
    requires forall j :: 0 <= j < k ==> outcomes[j].Failure?
    ensures Fetch(url, outcomes, retries)
         == Run(Record(Fetched(url, outcomes[k].status, outcomes[k].elapsed)), k + 1, (k as real) * RetryDelay)
  {
    RunFromStops(url, outcomes, retries, 0);
  }

  /**
   * If every allowed attempt fails, exactly `retries + 1` attempts are made
   * and the "failed" record carries the error and elapsed time of the last one.
   */
  lemma FetchExhausted(url: string, outcomes: seq<Outcome>, retries: int)
    requires 0 <= retries < |outcomes|
    requires forall j :: 0 <= j <= retries ==> outcomes[j].Failure?
    ensures Fetch(url, outcomes, retries)
         == Run(Record(FetchFailed(url, outcomes[retries].elapsed, outcomes[retries].error)),
                retries + 1, (retries as real) * RetryDelay)
  {
    RunFromStops(url, outcomes, retries, 0);
  }

  /**
   * An exception fetch_url does not catch ends the run at that attempt and
   * becomes the gathered result for that URL.
   */
  lemma FetchRaises(url: string, outcomes: seq<Outcome>, retries: int, k: nat)
    requires k <= retries < |outcomes|
    requires outcomes[k].Unhandled?
    requires forall j :: 0 <= j < k ==> outcomes[j].Failure?
    ensures Fetch(url, outcomes, retries) == Run(Raised(outcomes[k].error), k + 1, (k as real) * RetryDelay)
  {
    RunFromStops(url, outcomes, retries, 0);
  }

  /** Every record names the URL that was fetched. */
  lemma FetchKeepsUrl(url: string, outcomes: seq<Outcome>, retries: int)
    requires retries < |outcomes|
    ensures Fetch(url, outcomes, retries).entry.Record? ==> Fetch(url, outcomes, retries).entry.result.url == url
  {
    if retries >= 0 {
      RunFromStops(url, outcomes, retries, 0);
    }
  }

  /**
   * Outcomes of attempts that are never made do not matter: two outcome
   * sequences that agree on the attempts actually made give the same run.
   */
  lemma FetchIgnoresUnmadeAttempts(url: string, outcomes: seq<Outcome>, other: seq<Outcome>, retries: int)
    requires retries < |outcomes| && retries < |other|
    requires forall j :: 0 <= j < Fetch(url, outcomes, retries).attempts ==> other[j] == outcomes[j]
    ensures Fetch(url, other, retries) == Fetch(url, outcomes, retries)
  {
    if retries >= 0 {
      RunFromStops(url, outcomes, retries, 0);
      RunFromStops(url, other, retries, 0);
    }
  }
}
