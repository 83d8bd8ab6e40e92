# Retrying batch HTTP client and counter service, modelled in Dafny

This project models two small Python programs.

The first, `async_api_client.py`, fetches a list of URLs concurrently. Each
URL goes through a bounded retry loop, `fetch_url`: up to `retries + 1` GET
attempts (default `retries = 2`), returning on the first success, sleeping
0.5 s after every failed attempt but the last, and returning a `"failed"`
record carrying the last attempt's error and elapsed time when every attempt
failed. `main` gathers one result per URL, in input order, and prints a
report: total URL count, successful count, total time, fastest, slowest and
average response time among the successes ("N/A" when there are none), and
one `Failed: <url> - <error>` line per failed URL, in input order.

The second, `rest_api_server.py`, is a counter service: `POST /numbers`
appends an integer to a list held in memory and echoes it back, and
`GET /average` returns the mean of the list, or a 404 error
"No numbers submitted" when the list is empty.

Modules:

- `Wrappers` (`wrappers.dfy`): `Option` and `Result`.
- `Stats` (`stats.dfy`): sum, minimum, maximum and mean over exact reals, and
  the lemma that the mean lies between the minimum and the maximum.
- `FetchRetry` (`fetch_retry.dfy`): `fetch_url`. The network is replaced by a
  sequence of attempt outcomes, where `outcomes[n]` is what attempt `n` would
  produce: `Success(status, elapsed)` for a response that passes
  `raise_for_status`, `Failure(error, elapsed)` for an `httpx.RequestError`
  or `httpx.HTTPStatusError` (its `str(e)` and the attempt's elapsed time),
  and `Unhandled(error)` for any other exception, which `fetch_url` does not
  catch. The method `FetchUrl` is the loop itself. It also reports how many
  attempts it made and how long it slept. It is proved equal to the function
  `Fetch`, and the lemmas about `Fetch` state the retry policy.
- `BatchReport` (`batch_report.dfy`): `main` from the gather on. It covers:
  - the fan-out `FetchAll`;
  - the partition into successes and failure lines;
  - the statistics;
  - the report as a structured `Summary`;
  - the two scenarios: one batch with a success, a retried success and an
    exhausted URL, and one empty batch.
- `NumberStore` (`number_store.dfy`): the service state as a class `Store`
  with a `seq<int>` field. `AddNumber` and `GetAverage` are its methods.

Choices the source forces:

- `fetch_url` returns one type, a dict, whose keys differ between its two
  returns: line 14 has no `"error"` key and line 17 has one. `FetchResult`
  has one constructor per return. `Fetched(url, status, time)` has no
  `error`. `FetchFailed(url, time, error)` has one. So "the `error` key
  exists exactly when the status is `"failed"`" holds by construction.
- `asyncio.gather` is called with `return_exceptions=True`. So an exception
  that escapes `fetch_url` lands in the result list as an exception object.
  `fetch_url` also returns `None` when its loop runs zero times, which happens
  for a negative `retries`. In both cases `r["status"]` on line 35 raises a
  `TypeError`, and no report line is printed. The model keeps this.
  `Summarize` returns `None` exactly when some gathered entry is not a record.
  It invents no recovery.
- A failed record's error is `str(e)`, which can be empty. The model allows
  an empty error.
- With no successes, lines 42-44 print the bare line `N/A`, without its
  label. The model records this as `NotApplicable`.
- Elapsed times and means are exact `real`s. The mean of the store's
  integers is taken over their exact real values.

The report itself is the function `BatchReport.Report` over the records.
`BatchReport.Summarize` applies it to the gathered list, and
`BatchReport.Batch` is the whole run (lines 29-47). `BatchReport.IsFailed`
is the status test of lines 35 and 46, and `BatchReport.LineOf`
is the failure line of line 47. `Stats.Mean` is `statistics.mean`: the sum
over the count. These carry no contract of their own; the lemmas below
state what they compute.

## Model

| member | source | states |
|---|---|---|
| `FetchRetry.FetchUrl` | async_api_client.py:8-18 | the retry loop returns exactly the entry, attempt count and sleep time of the run `Fetch` describes, for every outcome sequence and every retry count, negative ones included |
| `FetchRetry.RunFrom` | async_api_client.py:9-18 | a run that starts at attempt `n`, all earlier attempts having failed, makes at least `n + 1` and at most `retries + 1` attempts |
| `FetchRetry.Fetch` | async_api_client.py:8-18 | a whole run makes at most `retries + 1` attempts, and none when `retries` is negative |
| `FetchRetry.RunFromStops` | async_api_client.py:9-18 | the run stops at the first attempt that did not fail, or at the last allowed one; every attempt before it failed; the entry is built from that attempt alone; one pause per attempt but the last |
| `FetchRetry.FetchAttemptsBounded` | async_api_client.py:9-18 | between 1 and `retries + 1` attempts when `retries >= 0`, and `None` after no attempt otherwise; the time slept is 0.5 s times the attempts minus one |
| `FetchRetry.FetchStopsAtTerminalAttempt` | async_api_client.py:9-17 | every attempt before the terminating one failed; the terminating one is the last allowed one or did not fail; the entry comes from its outcome only |
| `FetchRetry.FetchFirstSuccess` | async_api_client.py:12-14 | if attempt `k` is the first success, exactly `k + 1` attempts are made, `k` pauses, and the record has that attempt's status and elapsed time and no error |
| `FetchRetry.FetchExhausted` | async_api_client.py:15-17 | if every allowed attempt fails, exactly `retries + 1` attempts are made, and the "failed" record has the last attempt's error and elapsed time only |
| `FetchRetry.FetchRaises` | async_api_client.py:11-15 | an exception the except clause does not name ends the run at that attempt and becomes the gathered result for that URL |
| `FetchRetry.FetchKeepsUrl` | async_api_client.py:14-17 | every record carries the URL passed in |
| `FetchRetry.FetchIgnoresUnmadeAttempts` | async_api_client.py:9-18 | outcomes of attempts after the terminating one do not affect the run: no further attempts are made |
| `BatchReport.FetchAll` | async_api_client.py:31-32 | one gathered entry per URL, in input order, each the result of `fetch_url` on that URL with the default retry count |
| `BatchReport.FetchAllKeepsUrls` | async_api_client.py:31-32 | the record at position `i` carries the `i`-th URL |
| `BatchReport.Records` | async_api_client.py:32-35 | the status test succeeds on every entry exactly when every entry is a record, and then the records are the entries in order |
| `BatchReport.Successful` | async_api_client.py:35 | every listed success is a record of the input whose status is not "failed", and there are no more of them than records |
| `BatchReport.ResponseTimes` | async_api_client.py:36 | one time per success, position by position the success's elapsed time |
| `BatchReport.FailureLines` | async_api_client.py:45-47 | at most one failure line per record |
| `BatchReport.SuccessfulAppend` | async_api_client.py:35 | the successes of a concatenation are the successes of each part, in order |
| `BatchReport.FailureLinesAppend` | async_api_client.py:45-47 | the failure lines of a concatenation are those of each part, in order |
| `BatchReport.PartitionComplete` | async_api_client.py:35-47 | successes plus failure lines equal the number of records |
| `BatchReport.SuccessfulAt` | async_api_client.py:35 | a success at position `i` appears among the successes right after the successes before position `i`: order kept, none dropped |
| `BatchReport.FailureLinesFromFailed` | async_api_client.py:45-47 | every failure line is the URL-and-error line of some "failed" record |
| `BatchReport.FailureLineAt` | async_api_client.py:45-47 | a "failed" record at position `i` gives its URL-and-error line right after the failure lines of the records before it |
| `BatchReport.SummaryPartition` | async_api_client.py:35-47 | about `Summarize` and `Report`: a report exists exactly when every entry is a record; it carries the given URL count and total time, and its successful count plus its failure lines equal the number of entries |
| `BatchReport.ReportStatistics` | async_api_client.py:36-44 | about `Report` and `Stats.Mean`: fastest, slowest and average are all "N/A" exactly when there is no success; otherwise they are the min, max and mean of the success times, fastest and slowest are among those times and bound all of them, and fastest <= average <= slowest |
| `BatchReport.BatchReportsEveryUrl` | async_api_client.py:29-47 | about `Batch`: with the default retry count, when no URL's run ends in an uncaught exception, a batch always produces a report with one count per URL, successes plus failures |
| `BatchReport.ScenarioFetches` | async_api_client.py:8-32 | for the three-URL scenario, the gathered records are the immediate success, the second-attempt success with its own time, and the "failed" record with the third attempt's error and time, in input order |
| `BatchReport.ScenarioReport` | async_api_client.py:35-47 | over those records the report has 2 successes, fastest 0.1, slowest 0.2, average 0.15 and one failure line |
| `BatchReport.ScenarioOkFlakyDead` | async_api_client.py:8-47 | immediate success, success on the second attempt and three failures give 2 successes, fastest 0.1, slowest 0.2, average 0.15, and one failure line for the dead URL with its last error |
| `BatchReport.ScenarioEmpty` | async_api_client.py:31-47 | an empty URL list gives total 0, successful 0, all statistics "N/A" and no failure line |
| `Stats.Min` | async_api_client.py:42 | the minimum occurs in the list and no element is smaller |
| `Stats.Max` | async_api_client.py:43 | the maximum occurs in the list and no element is larger |
| `Stats.SumAtLeast` | async_api_client.py:44 | a lower bound of every value, times the count, bounds the sum from below |
| `Stats.SumAtMost` | async_api_client.py:44 | an upper bound of every value, times the count, bounds the sum from above |
| `Stats.MeanBetweenMinMax` | async_api_client.py:44 | the mean (sum over count) lies between the minimum and the maximum |
| `NumberStore.AsReals` | rest_api_server.py:26 | the numbers as reals, same length, position by position |
| `NumberStore.Store.constructor` | rest_api_server.py:9 | the service starts with an empty list |
| `NumberStore.Store.AddNumber` | rest_api_server.py:16-19 | the submitted number is appended at the end, the length grows by one, earlier entries are unchanged, and the answer is status "success" with the number echoed |
| `NumberStore.Store.GetAverage` | rest_api_server.py:22-27 | an empty store gives error 404 "No numbers submitted", and only an empty store gives an error; otherwise the answer is the mean (sum over count) of the numbers and lies between their minimum and maximum; the method has no `modifies` clause, so the store is unchanged |

## Left out

- Network I/O through `httpx`: each attempt's outcome is an input. Which
  HTTP statuses `raise_for_status` rejects is not modelled: a rejected
  response is a `Failure` outcome.
- Wall-clock timing with `time.time()`: per-attempt elapsed times come with
  the outcomes. The batch's total time is a parameter of the report.
- Concurrency: `asyncio.gather`, `asyncio.sleep`, the shared `AsyncClient`
  context and the service's `threading.Lock`. Fan-out is a sequential map
  that keeps input order. A sleep is counted in the time slept, not performed.
- Reading `urls.json` and the `FileNotFoundError` branch (file I/O).
- Report formatting (`:.2f`, the exact text of each line) and `print`: the
  report is a structured `Summary` value.
- Floating point: times and means are exact reals, so rounding is not modelled.
- FastAPI routing, pydantic validation of the payload, JSON encoding of the
  answers, and uvicorn startup.
- `NumberStore.Store.GetAverage`: Python's `statistics.mean` returns an `int`
  when the mean of integers is whole. The model always returns a real of the
  same value. When the mean is not whole, `statistics.mean` converts it to a
  float. If the value is beyond float range, that conversion raises
  `OverflowError`, which the framework answers with HTTP 500. The model has
  unbounded reals and does not model this error.
