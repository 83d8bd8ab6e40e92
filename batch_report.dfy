/**
 * The batch side of the asynchronous client (`main`): one fetch_url task per
 * URL, the gathered list of task results in input order, and the summary
 * report over it.
 *
 * The fetches run concurrently in the client; here they are evaluated one after
 * another, which gives the same list since gather keeps input order. The
 * batch's total wall-clock time is a parameter.
 */
module BatchReport {
  import opened Wrappers
  import opened FetchRetry
  import Stats

  /** A statistics line of the report: a number of seconds, or "N/A". */
  datatype Stat = NotApplicable | Seconds(value: real)

  /** A "Failed: <url> - <error>" line. */
  datatype FailureLine = FailureLine(url: string, error: string)

  /** The report: the summary lines, then one line per failed URL. */
  datatype Summary = Summary(
    totalUrls: nat,
    successful: nat,
    totalTime: real,
    fastest: Stat,
    slowest: Stat,
    average: Stat,
    failures: seq<FailureLine>)

  /**
   * The gathered results of one fetch_url task per URL, with the default
   * retry count; `outcomes[i]` holds the attempt outcomes for `urls[i]`.
   */
  function FetchAll(urls: seq<string>, outcomes: seq<seq<Outcome>>): (entries: seq<Entry>)
    requires |outcomes| == |urls|
    requires forall i :: 0 <= i < |outcomes| ==> DefaultRetries < |outcomes[i]|
    ensures |entries| == |urls|
    ensures forall i :: 0 <= i < |urls| ==> entries[i] == Fetch(urls[i], outcomes[i], DefaultRetries).entry
  {
    if urls == [] then []
    else [Fetch(urls[0], outcomes[0], DefaultRetries).entry] + FetchAll(urls[1..], outcomes[1..])
  }

  /** Each gathered record names the URL at its own position. */
  lemma FetchAllKeepsUrls(urls: seq<string>, outcomes: seq<seq<Outcome>>, i: nat)
    requires |outcomes| == |urls|
    requires forall i :: 0 <= i < |outcomes| ==> DefaultRetries < |outcomes[i]|
    requires i < |urls|
    ensures FetchAll(urls, outcomes)[i].Record? ==> FetchAll(urls, outcomes)[i].result.url == urls[i]
  {
  }

  /**
   * The records of the gathered list, or None when some entry is not a
   * record: reading `r["status"]` of an exception object or of `None` raises
   * a TypeError, and no report is printed.
   */
  function Records(entries: seq<Entry>): (rs: Option<seq<FetchResult>>)
    ensures rs.Some? <==> forall i :: 0 <= i < |entries| ==> entries[i].Record?
    ensures rs.Some? ==> |rs.value| == |entries|
    ensures rs.Some? ==> forall i :: 0 <= i < |entries| ==> rs.value[i] == entries[i].result
  {
    if entries == [] then Some([])
    else if !entries[0].Record? then None
    else
      match Records(entries[1..])
      case None => None
      case Some(rest) => Some([entries[0].result] + rest)
  }

  /** The test `r["status"] == "failed"`. */
  predicate IsFailed(r: FetchResult)
  {
    r.FetchFailed?
  }

  /** The records whose status is not "failed", in order. */
  function Successful(rs: seq<FetchResult>): (s: seq<FetchResult>)
    ensures |s| <= |rs|
    ensures forall k :: 0 <= k < |s| ==> s[k] in rs && !IsFailed(s[k])
  {
    if rs == [] then []
    else (if IsFailed(rs[0]) then [] else [rs[0]]) + Successful(rs[1..])
  }

  /** The elapsed times of the given records, in order. */
  function ResponseTimes(s: seq<FetchResult>): (t: seq<real>)
    ensures |t| == |s|
    ensures forall k :: 0 <= k < |s| ==> t[k] == s[k].time
  {
    seq(|s|, k requires 0 <= k < |s| => s[k].time)
  }

  /** The failure line of a "failed" record. */
  function LineOf(r: FetchResult): FailureLine
    requires IsFailed(r)
  {
    FailureLine(r.url, r.error)
  }

  /** One failure line per "failed" record, in order. */
  function FailureLines(rs: seq<FetchResult>): (f: seq<FailureLine>)
    ensures |f| <= |rs|
  {
    if rs == [] then []
    else (if IsFailed(rs[0]) then [LineOf(rs[0])] else []) + FailureLines(rs[1..])
  }

  /**
   * The report over the records: total URL count, successful count, total
   * time, fastest, slowest and average response time among the successes,
   * then the failure lines.
   */
  function Report(totalUrls: nat, totalTime: real, rs: seq<FetchResult>): Summary
  {
    var successful := Successful(rs);
    var times := ResponseTimes(successful);
    Summary(
      totalUrls,
      |successful|,
      totalTime,
      if times == [] then NotApplicable else Seconds(Stats.Min(times)),
      if times == [] then NotApplicable else Seconds(Stats.Max(times)),
      if times == [] then NotApplicable else Seconds(Stats.Mean(times)),
      FailureLines(rs))
  }

  /** The report over the gathered list; None when an entry is not a record. */
  function Summarize(totalUrls: nat, totalTime: real, entries: seq<Entry>): Option<Summary>
  {
    match Records(entries)
    case None => None
    case Some(rs) => Some(Report(totalUrls, totalTime, rs))
  }

  /** The whole run of the client over a URL list. */
  function Batch(urls: seq<string>, outcomes: seq<seq<Outcome>>, totalTime: real): Option<Summary>
    requires |outcomes| == |urls|
    requires forall i :: 0 <= i < |outcomes| ==> DefaultRetries < |outcomes[i]|
  {
    Summarize(|urls|, totalTime, FetchAll(urls, outcomes))
  }

  // ----- The partition of the records -----

  lemma {:induction false} SuccessfulAppend(a: seq<FetchResult>, b: seq<FetchResult>)
    ensures Successful(a + b) == Successful(a) + Successful(b)
  {
    if a != [] {
      assert (a + b)[0] == a[0];
      assert (a + b)[1..] == a[1..] + b;
      SuccessfulAppend(a[1..], b);
      var head := if IsFailed(a[0]) then [] else [a[0]];
      assert Successful(a) == head + Successful(a[1..]);
      assert Successful(a + b) == head + (Successful(a[1..]) + Successful(b));
    } else {
      assert a + b == b;
    }
  }

  lemma {:induction false} FailureLinesAppend(a: seq<FetchResult>, b: seq<FetchResult>)
    ensures FailureLines(a + b) == FailureLines(a) + FailureLines(b)
  {
    if a != [] {
      assert (a + b)[0] == a[0];
      assert (a + b)[1..] == a[1..] + b;
      FailureLinesAppend(a[1..], b);
      var head := if IsFailed(a[0]) then [LineOf(a[0])] else [];
      assert FailureLines(a) == head + FailureLines(a[1..]);
      assert FailureLines(a + b) == head + (FailureLines(a[1..]) + FailureLines(b));
    } else {
      assert a + b == b;
    }
  }

  /** Every record is either a success or a failure line: the counts add up. */
  lemma {:induction false} PartitionComplete(rs: seq<FetchResult>)
    ensures |Successful(rs)| + |FailureLines(rs)| == |rs|
  {
    if rs != [] {
      PartitionComplete(rs[1..]);
    }
  }

  /**
   * A successful record at position `i` is listed among the successes right
   * after the successes before it: order is kept and nothing is dropped.
   */
  lemma SuccessfulAt(rs: seq<FetchResult>, i: nat)
    requires i < |rs| && !IsFailed(rs[i])
    ensures |Successful(rs[..i])| < |Successful(rs)|
    ensures Successful(rs)[|Successful(rs[..i])|] == rs[i]
  {
    assert rs == rs[..i] + [rs[i]] + rs[i + 1..];
    SuccessfulAppend(rs[..i] + [rs[i]], rs[i + 1..]);
    SuccessfulAppend(rs[..i], [rs[i]]);
  }

  /** Every failure line is the line of some "failed" record. */
  lemma {:induction false} FailureLinesFromFailed(rs: seq<FetchResult>)
    ensures forall k :: 0 <= k < |FailureLines(rs)| ==>
      exists i :: 0 <= i < |rs| && IsFailed(rs[i]) && FailureLines(rs)[k] == LineOf(rs[i])
  {
    if rs != [] {
      FailureLinesFromFailed(rs[1..]);
      var head := if IsFailed(rs[0]) then [LineOf(rs[0])] else [];
      assert FailureLines(rs) == head + FailureLines(rs[1..]);
      forall k | 0 <= k < |FailureLines(rs)|
        ensures exists i :: 0 <= i < |rs| && IsFailed(rs[i]) && FailureLines(rs)[k] == LineOf(rs[i])
      {
        if k < |head| {
          assert 0 < |rs| && IsFailed(rs[0]) && FailureLines(rs)[k] == LineOf(rs[0]);
        } else {
          var i :| 0 <= i < |rs[1..]| && IsFailed(rs[1..][i]) && FailureLines(rs[1..])[k - |head|] == LineOf(rs[1..][i]);
          assert FailureLines(rs)[k] == FailureLines(rs[1..])[k - |head|];
          assert 0 <= i + 1 < |rs| && IsFailed(rs[i + 1]) && FailureLines(rs)[k] == LineOf(rs[i + 1]);
        }
      }
    } else {
      assert FailureLines(rs) == [];
    }
  }

  /**
   * A "failed" record at position `i` gives the failure line right after the
   * failure lines of the records before it.
   */
  lemma FailureLineAt(rs: seq<FetchResult>, i: nat)
    requires i < |rs| && IsFailed(rs[i])
    ensures |FailureLines(rs[..i])| < |FailureLines(rs)|
    ensures FailureLines(rs)[|FailureLines(rs[..i])|] == FailureLine(rs[i].url, rs[i].error)
  {
    assert rs == rs[..i] + [rs[i]] + rs[i + 1..];
    FailureLinesAppend(rs[..i] + [rs[i]], rs[i + 1..]);
    FailureLinesAppend(rs[..i], [rs[i]]);
  }

  // ----- The report -----

  /**
   * The report exists exactly when every gathered entry is a record; then
   * the successful count and the failure lines split the records completely.
   */
  lemma SummaryPartition(totalUrls: nat, totalTime: real, entries: seq<Entry>)
    ensures Summarize(totalUrls, totalTime, entries).Some?
        <==> forall i :: 0 <= i < |entries| ==> entries[i].Record?
    ensures Summarize(totalUrls, totalTime, entries).Some? ==>
      var s := Summarize(totalUrls, totalTime, entries).value;
      && s.totalUrls == totalUrls
      && s.totalTime == totalTime
      && s.successful + |s.failures| == |entries|
  {
    var rs := Records(entries);
    if rs.Some? {
      PartitionComplete(rs.value);
    }
  }

  /**
   * With no successes, fastest, slowest and average are "N/A"; otherwise
   * they are the minimum, maximum and mean of the success times: the fastest
   * is some success's time and no success is faster, the slowest likewise,
   * and the average lies between the two.
   */
  lemma ReportStatistics(totalUrls: nat, totalTime: real, rs: seq<FetchResult>)
    ensures var s := Report(totalUrls, totalTime, rs);
      (s.successful == 0 <==> s.fastest == s.slowest == s.average == NotApplicable)
    ensures var s := Report(totalUrls, totalTime, rs);
      var times := ResponseTimes(Successful(rs));
      s.successful > 0 ==>
        && s.fastest == Seconds(Stats.Min(times))
        && s.slowest == Seconds(Stats.Max(times))
        && s.average == Seconds(Stats.Mean(times))
        && s.fastest.value in times && s.slowest.value in times
        && (forall k :: 0 <= k < |times| ==> s.fastest.value <= times[k] <= s.slowest.value)
        && s.fastest.value <= s.average.value <= s.slowest.value
  {
    var times := ResponseTimes(Successful(rs));
    if times != [] {
      Stats.MeanBetweenMinMax(times);
    }
  }

  /**
   * With the default retry count, a batch in which no URL's run ends in an
   * exception fetch_url does not catch always yields a report with one count
   * per URL: successes plus failures is the URL count.
   */
  lemma BatchReportsEveryUrl(urls: seq<string>, outcomes: seq<seq<Outcome>>, totalTime: real)
    requires |outcomes| == |urls|
    requires forall i :: 0 <= i < |outcomes| ==> DefaultRetries < |outcomes[i]|
    requires forall i :: 0 <= i < |outcomes| ==> !Fetch(urls[i], outcomes[i], DefaultRetries).entry.Raised?
    ensures Batch(urls, outcomes, totalTime).Some?
    ensures var s := Batch(urls, outcomes, totalTime).value;
      s.totalUrls == |urls| && s.successful + |s.failures| == |urls|
  {
    var entries := FetchAll(urls, outcomes);
    forall i | 0 <= i < |entries|
      ensures entries[i].Record?
    {
      FetchStopsAtTerminalAttempt(urls[i], outcomes[i], DefaultRetries);
    }
    SummaryPartition(|urls|, totalTime, entries);
  }

  // ----- Two scenarios -----

  /** The URLs of the first scenario. */
  const ScenarioUrls: seq<string> := ["http://ok", "http://flaky", "http://dead"]

  /**
   * Their attempt outcomes: "ok" succeeds at once, "flaky" fails once and
   * then succeeds, "dead" fails all three attempts.
   */
  const ScenarioOutcomes: seq<seq<Outcome>> :=
    [ [Success(200, 0.1), Success(200, 9.0), Success(200, 9.0)],
      [Failure("timeout", 10.0), Success(200, 0.2), Success(200, 9.0)],
      [Failure("refused", 0.01), Failure("refused", 0.02), Failure("refused", 0.03)] ]

  /** The gathered records of the first scenario, in input order. */
  lemma ScenarioFetches()
    ensures |ScenarioOutcomes| == |ScenarioUrls|
    ensures forall i :: 0 <= i < |ScenarioOutcomes| ==> DefaultRetries < |ScenarioOutcomes[i]|
    ensures FetchAll(ScenarioUrls, ScenarioOutcomes)
         == [ Record(Fetched("http://ok", 200, 0.1)),
              Record(Fetched("http://flaky", 200, 0.2)),
              Record(FetchFailed("http://dead", 0.03, "refused")) ]
  {
    FetchFirstSuccess(ScenarioUrls[0], ScenarioOutcomes[0], DefaultRetries, 0);
    FetchFirstSuccess(ScenarioUrls[1], ScenarioOutcomes[1], DefaultRetries, 1);
    FetchExhausted(ScenarioUrls[2], ScenarioOutcomes[2], DefaultRetries);
  }

  /** The report over the first scenario's records. */
  lemma ScenarioReport()
    ensures Report(3, 1.5, [ Fetched("http://ok", 200, 0.1),
                             Fetched("http://flaky", 200, 0.2),
                             FetchFailed("http://dead", 0.03, "refused") ])
         == Summary(3, 2, 1.5, Seconds(0.1), Seconds(0.2), Seconds(0.15),
                    [FailureLine("http://dead", "refused")])
  {
    var ok, flaky, dead :=
      Fetched("http://ok", 200, 0.1), Fetched("http://flaky", 200, 0.2), FetchFailed("http://dead", 0.03, "refused");
    var rs := [ok, flaky, dead];
    assert rs[1..] == [flaky, dead] && rs[1..][1..] == [dead] && [dead][1..] == [];
    assert Successful([dead]) == [];
    assert Successful([flaky, dead]) == [flaky];
    assert Successful(rs) == [ok, flaky];
    assert FailureLines([dead]) == [FailureLine("http://dead", "refused")];
    assert FailureLines([flaky, dead]) == FailureLines([dead]);
    assert FailureLines(rs) == [FailureLine("http://dead", "refused")];
    var times := ResponseTimes([ok, flaky]);
    assert times == [0.1, 0.2];
    assert times[1..] == [0.2] && [0.2][1..] == [];
    assert Stats.Sum([0.2]) == 0.2;
    assert Stats.Sum(times) == 0.3;
    assert Stats.Min(times) == 0.1 && Stats.Max(times) == 0.2 && Stats.Mean(times) == 0.15;
  }

  /**
   * The first scenario end to end: two successes, fastest 0.1, slowest 0.2,
   * average 0.15, and one failure line for "dead" with its last error.
   */
  lemma ScenarioOkFlakyDead()
    ensures |ScenarioOutcomes| == |ScenarioUrls|
    ensures forall i :: 0 <= i < |ScenarioOutcomes| ==> DefaultRetries < |ScenarioOutcomes[i]|
    ensures Batch(ScenarioUrls, ScenarioOutcomes, 1.5)
         == Some(Summary(3, 2, 1.5, Seconds(0.1), Seconds(0.2), Seconds(0.15),
                         [FailureLine("http://dead", "refused")]))
  {
    ScenarioFetches();
    ScenarioReport();
    var entries := FetchAll(ScenarioUrls, ScenarioOutcomes);
    assert Records(entries).value
        == [ Fetched("http://ok", 200, 0.1), Fetched("http://flaky", 200, 0.2),
             FetchFailed("http://dead", 0.03, "refused") ];
  }

  /** An empty URL list: nothing fetched, every statistic "N/A", no failure line. */
  lemma ScenarioEmpty(totalTime: real)
    ensures Batch([], [], totalTime)
         == Some(Summary(0, 0, totalTime, NotApplicable, NotApplicable, NotApplicable, []))
  {
  }
}
