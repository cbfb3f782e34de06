/**
 * `run_query`: walks from the to-date down to the from-date, one calendar day
 * at a time, sends one request per day for the decision date of that day, and
 * accumulates the records of every day whose response has status 200. Days
 * with any other status contribute nothing and do not stop the walk; a
 * failed extraction ends the run with its error.
 *
 * The HTTP client is a parameter: a function from the request URL to the
 * response's status and `results` list.
 */
module Orchestrator {
  import opened Wrappers
  import opened Calendar
  import opened QueryBuilder
  import opened Text
  import opened Params
  import opened Records
  import opened Validation

  const BaseUrl510k: string := "https://api.fda.gov/device/510k.json"
  const SearchQueryKey: string := "search"
  const LimitQueryKey: string := "limit"
  /** The largest number of results one request may return. */
  const MaxQuerySize: nat := 99
  const HttpOk: int := 200

  /** Why a run ends without a record list. */
  datatype RunError =
    | UnreadableDate(text: string)       // `strptime` raises `ValueError`
    | DateOutOfRange                     // the day before 0001-01-01: `OverflowError`
    | ExtractionFailed(cause: ExtractError)

  /** The request URL for one day: the decision-date search and the page-size limit. */
  function QueryUrl(d: Date): string
    requires ValidDate(d)
  {
    BaseUrl510k + "?" +
    ParamString([(SearchQueryKey, Render([Constraint(Leading, DecisionDateKey, Iso(d))])),
                 (LimitQueryKey, Decimal(MaxQuerySize))])
  }

  /** What one response contributes: its records if the status is 200, nothing otherwise. */
  function DayRecords<V>(response: Response<V>): Result<seq<Record<V>>, RunError> {
    if response.status != HttpOk then Ok([])
    else
      match ExtractRecords(response)
      case Ok(records) => Ok(records)
      case Err(e) => Err(ExtractionFailed(e))
  }

  predicate AllValid(days: seq<Date>) {
    forall i :: 0 <= i < |days| ==> ValidDate(days[i])
  }

  /** The request URLs of the days, in order. */
  function QueryUrls(days: seq<Date>): (urls: seq<string>)
    requires AllValid(days)
    ensures |urls| == |days|
    ensures forall i :: 0 <= i < |days| ==> urls[i] == QueryUrl(days[i])
  {
    if |days| == 0 then [] else [QueryUrl(days[0])] + QueryUrls(days[1..])
  }

  /**
   * The records of the responses to the URLs, requested in order; the first
   * failing extraction fails the run.
   */
  function Collect<V>(transport: string -> Response<V>, urls: seq<string>): Result<seq<Record<V>>, RunError> {
    if |urls| == 0 then Ok([])
    else
      match DayRecords(transport(urls[0]))
      case Err(e) => Err(e)
      case Ok(records) => Prepend(records, Collect(transport, urls[1..]))
  }

  /** The URLs requested: all of them, or those up to and including the first failing one. */
  ghost function Requested<V>(transport: string -> Response<V>, urls: seq<string>): seq<string> {
    if |urls| == 0 then []
    else if DayRecords(transport(urls[0])).Err? then [urls[0]]
    else [urls[0]] + Requested(transport, urls[1..])
  }

  /** The days from `to` down to `from`, both included; empty when `from` is the day after `to`. */
  function DaysDescending(to: Date, from: Date): (days: seq<Date>)
    requires ValidDate(to) && ValidDate(from)
    requires DayNumber(from) <= DayNumber(to) + 1
    ensures AllValid(days)
    ensures |days| == DayNumber(to) - DayNumber(from) + 1
    decreases DayNumber(to) - DayNumber(from)
  {
    if DayNumber(to) < DayNumber(from) then []
    else if DayNumber(to) == DayNumber(from) then [to]
    else
      LaterIsNotFirst(to, from);
      PreviousDayIsDayBefore(to);
      var before := PreviousDay(to).value;
      assert DayNumber(before) == DayNumber(to) - 1;
      [to] + DaysDescending(before, from)
  }

  // -------------------------------------------------------------------------
  // The walk

  /**
   * While `to` is not before `from` and is not the first day, the walk visits
   * `to` and continues from the day before `to`.
   */
  lemma DaysDescendingStep(to: Date, from: Date)
    requires ValidDate(to) && ValidDate(from) && to != FirstDate
    requires DayNumber(from) <= DayNumber(to)
    ensures ValidDate(PreviousDay(to).value) && DayNumber(PreviousDay(to).value) == DayNumber(to) - 1
    ensures DaysDescending(to, from) == [to] + DaysDescending(PreviousDay(to).value, from)
  {
    PreviousDayIsDayBefore(to);
    var before := PreviousDay(to).value;
    if DayNumber(to) == DayNumber(from) {
      assert DaysDescending(before, from) == [];
    }
  }

  /** The URLs a run requests when no extraction fails: one per day, from `to` down to `from`. */
  function RunUrls(to: Date, from: Date): (urls: seq<string>)
    requires ValidDate(to) && ValidDate(from)
    requires DayNumber(from) <= DayNumber(to) + 1
    ensures |urls| == DayNumber(to) - DayNumber(from) + 1
  {
    QueryUrls(DaysDescending(to, from))
  }

  /**
   * While `to` is not before `from`, the run requests the URL of `to`, then
   * those from the day before; at the first day there is no day before.
   */
  lemma RunUrlsStep(to: Date, from: Date)
    requires ValidDate(to) && ValidDate(from)
    requires DayNumber(from) <= DayNumber(to)
    ensures to != FirstDate ==>
              ValidDate(PreviousDay(to).value) && DayNumber(PreviousDay(to).value) == DayNumber(to) - 1 &&
              RunUrls(to, from) == [QueryUrl(to)] + RunUrls(PreviousDay(to).value, from)
    ensures to == FirstDate ==> RunUrls(to, from) == [QueryUrl(to)]
  {
    if to != FirstDate {
      DaysDescendingStep(to, from);
      var days := DaysDescending(to, from);
      assert days[1..] == DaysDescending(PreviousDay(to).value, from);
    } else {
      RunUrlsOfFirstDate(from);
    }
  }

  /** A walk that reaches the first day requests that day's URL and nothing after it. */
  lemma RunUrlsOfFirstDate(from: Date)
    requires ValidDate(from) && DayNumber(from) <= DayNumber(FirstDate)
    ensures RunUrls(FirstDate, from) == [QueryUrl(FirstDate)]
  {
    DayNumberPositive(from);
    var days := DaysDescending(FirstDate, from);
    assert days == [FirstDate];
    assert QueryUrls(days)[0] == QueryUrl(FirstDate);
  }

  /** The k-th day of the walk is k days before `to`. */
  lemma {:induction false} DaysDescendingNumbers(to: Date, from: Date)
    requires ValidDate(to) && ValidDate(from)
    requires DayNumber(from) <= DayNumber(to) + 1
    ensures forall k :: 0 <= k < |DaysDescending(to, from)| ==>
              DayNumber(DaysDescending(to, from)[k]) == DayNumber(to) - k
    decreases DayNumber(to) - DayNumber(from)
  {
    if DayNumber(to) > DayNumber(from) {
      LaterIsNotFirst(to, from);
      PreviousDayIsDayBefore(to);
      var before := PreviousDay(to).value;
      DaysDescendingNumbers(before, from);
      var days, rest := DaysDescending(to, from), DaysDescending(before, from);
      assert days == [to] + rest;
      forall k | 0 < k < |days|
        ensures DayNumber(days[k]) == DayNumber(to) - k
      {
        assert days[k] == rest[k - 1];
        assert DayNumber(rest[k - 1]) == DayNumber(before) - (k - 1);
      }
    }
  }

  /**
   * Each day is the day before the one preceding it in the sequence, and the
   * days are in strictly descending calendar order.
   */
  predicate IsChain(days: seq<Date>) {
    AllValid(days) &&
    (forall k :: 0 <= k < |days| - 1 ==> days[k] != FirstDate && PreviousDay(days[k]) == Some(days[k + 1])) &&
    (forall i, j :: 0 <= i < j < |days| ==> Before(days[j], days[i]))
  }

  /**
   * Days whose day numbers count down by one from `top` are a chain of
   * previous days, in strictly descending calendar order.
   */
  lemma CountdownIsChain(days: seq<Date>, top: int)
    requires AllValid(days)
    requires forall k :: 0 <= k < |days| ==> DayNumber(days[k]) == top - k
    ensures IsChain(days)
  {
    forall k | 0 <= k < |days| - 1
      ensures days[k] != FirstDate && PreviousDay(days[k]) == Some(days[k + 1])
    {
      PreviousDayByNumber(days[k], days[k + 1]);
    }
    forall i, j | 0 <= i < j < |days|
      ensures Before(days[j], days[i])
    {
      BeforeIffSmallerDayNumber(days[j], days[i]);
    }
  }

  /**
   * The days visited run from `to` down to `from`: the first is `to`, the
   * last is `from`, each is the day before the previous one, and they are
   * strictly descending, so none repeats and none is skipped.
   */
  lemma DaysDescendingShape(to: Date, from: Date)
    requires ValidDate(to) && ValidDate(from)
    requires DayNumber(from) <= DayNumber(to) + 1
    ensures DayNumber(from) <= DayNumber(to) ==>
              DaysDescending(to, from)[0] == to &&
              DaysDescending(to, from)[|DaysDescending(to, from)| - 1] == from
    ensures IsChain(DaysDescending(to, from))
  {
    var days := DaysDescending(to, from);
    DaysDescendingNumbers(to, from);
    if |days| > 0 {
      DayNumberInjective(days[0], to);
      DayNumberInjective(days[|days| - 1], from);
    }
    CountdownIsChain(days, DayNumber(to));
  }

  // -------------------------------------------------------------------------
  // Accumulation

  /**
   * The records of consecutive stretches of requests concatenate: the run
   * over `a + b` is the run over `a` followed by the run over `b`, and fails
   * with the first failure. Each day's request is independent, so a range may
   * be fetched in pieces and merged in this order.
   */
  lemma {:induction false} CollectConcat<V>(transport: string -> Response<V>, a: seq<string>, b: seq<string>)
    ensures Collect(transport, a + b) ==
              match Collect(transport, a)
              case Err(e) => Err(e)
              case Ok(first) => Prepend(first, Collect(transport, b))
    decreases |a|
  {
    if |a| == 0 {
      assert a + b == b;
      PrependNothing(Collect(transport, b));
    } else {
      assert (a + b)[1..] == a[1..] + b;
      assert (a + b)[0] == a[0];
      CollectConcat(transport, a[1..], b);
      match DayRecords(transport(a[0]))
      case Err(e) =>
      case Ok(records) =>
        match Collect(transport, a[1..])
        case Err(e) =>
        case Ok(rest) =>
          PrependTwice(records, rest, Collect(transport, b));
    }
  }

  /** Requests answered with a status other than 200 contribute nothing and never fail the run. */
  lemma {:induction false} FailedDaysContributeNothing<V>(transport: string -> Response<V>, urls: seq<string>)
    requires forall i :: 0 <= i < |urls| ==> transport(urls[i]).status != HttpOk
    ensures Collect(transport, urls) == Ok([])
    ensures Requested(transport, urls) == urls
    decreases |urls|
  {
    if |urls| > 0 {
      FailedDaysContributeNothing(transport, urls[1..]);
      assert DayRecords(transport(urls[0])) == Ok([]);
      PrependNothing(Collect(transport, urls[1..]));
      assert [urls[0]] + urls[1..] == urls;
    }
  }

  /** A run that succeeds succeeds on its first request and on the requests after it. */
  lemma CollectOkStep<V>(transport: string -> Response<V>, urls: seq<string>)
    requires |urls| > 0 && Collect(transport, urls).Ok?
    ensures DayRecords(transport(urls[0])).Ok? && Collect(transport, urls[1..]).Ok?
    ensures Requested(transport, urls) == [urls[0]] + Requested(transport, urls[1..])
  {
  }

  /** A run that succeeds requested every URL. */
  lemma {:induction false} RequestedAllWhenOk<V>(transport: string -> Response<V>, urls: seq<string>)
    requires Collect(transport, urls).Ok?
    ensures Requested(transport, urls) == urls
    decreases |urls|
  {
    if |urls| > 0 {
      CollectOkStep(transport, urls);
      RequestedAllWhenOk(transport, urls[1..]);
      assert [urls[0]] + urls[1..] == urls;
    }
  }

  /** Past a first request that succeeds, a failing run fails with the error of the remaining ones. */
  lemma CollectOkHead<V>(transport: string -> Response<V>, urls: seq<string>)
    requires |urls| > 0
    requires DayRecords(transport(urls[0])).Ok? && Collect(transport, urls).Err?
    ensures Collect(transport, urls) == Collect(transport, urls[1..])
    ensures Requested(transport, urls) == [urls[0]] + Requested(transport, urls[1..])
  {
  }

  /**
   * A run that fails requested the URLs up to the first whose extraction
   * failed, and none after it; that response's error is the run's error.
   */
  lemma {:induction false} RequestedUpToFailure<V>(transport: string -> Response<V>, urls: seq<string>)
    requires Collect(transport, urls).Err?
    ensures 0 < |Requested(transport, urls)| <= |urls|
    ensures Requested(transport, urls) == urls[..|Requested(transport, urls)|]
    ensures Collect(transport, urls) == DayRecords(transport(urls[|Requested(transport, urls)| - 1]))
    ensures forall i :: 0 <= i < |Requested(transport, urls)| - 1 ==> DayRecords(transport(urls[i])).Ok?
    decreases |urls|
  {
    if DayRecords(transport(urls[0])).Ok? {
      var tail := urls[1..];
      CollectOkHead(transport, urls);
      RequestedUpToFailure(transport, tail);
      var n := |Requested(transport, tail)|;
      HeadThenPrefix(urls, n);
      assert urls[n] == tail[n - 1];
      forall i | 0 <= i < n
        ensures DayRecords(transport(urls[i])).Ok?
      {
        if i > 0 { assert urls[i] == tail[i - 1]; }
      }
    } else {
      assert Requested(transport, urls) == [urls[0]] == urls[..1];
    }
  }

  // -------------------------------------------------------------------------
  // Requests

  lemma SearchOfDecisionDate(date: string)
    ensures Render([Constraint(Leading, DecisionDateKey, date)]) == "decision_date:" + date
  {
    var c := Constraint(Leading, DecisionDateKey, date);
    assert [c][..0] == [];
    assert Render([c]) == Render([]) + Segment(c);
  }

  lemma TwoParams(search: string, limit: string)
    ensures ParamString([(SearchQueryKey, search), (LimitQueryKey, limit)]) ==
              "search=" + search + "&limit=" + limit
  {
    var params := [(SearchQueryKey, search), (LimitQueryKey, limit)];
    var pieces := Pieces(params);
    assert pieces[0] == Piece(params[0]) == "search=" + search;
    assert pieces[1] == Piece(params[1]) == "limit=" + limit;
    assert pieces[1..] == ["limit=" + limit];
    assert Join(pieces, '&') == pieces[0] + "&" + Join(pieces[1..], '&');
  }

  lemma LimitLiteral()
    ensures "&limit=" + "99" == "&limit=99"
  {
  }

  lemma SearchLiteral()
    ensures "search=" + "decision_date:" == "search=decision_date:"
  {
  }

  lemma QueryStartLiteral()
    ensures "?" + "search=decision_date:" == "?search=decision_date:"
  {
  }

  lemma QueryOfDateText(date: string)
    ensures "?" + ParamString([(SearchQueryKey, Render([Constraint(Leading, DecisionDateKey, date)])),
                               (LimitQueryKey, Decimal(MaxQuerySize))])
            == "?search=decision_date:" + date + "&limit=99"
  {
    var search := Render([Constraint(Leading, DecisionDateKey, date)]);
    SearchOfDecisionDate(date);
    DecimalExample();
    TwoParams(search, "99");
    // "?" + ("search=" + ("decision_date:" + date) + "&limit=" + "99"), regrouped
    var head := "search=" + ("decision_date:" + date);
    LimitLiteral();
    SearchLiteral();
    QueryStartLiteral();
    AppendAssociates(head, "&limit=", "99");
    AppendAssociates("search=", "decision_date:", date);
    AppendAssociates("?", head, "&limit=99");
    AppendAssociates("?", "search=decision_date:", date);
  }

  lemma UrlOfDateText(date: string)
    ensures BaseUrl510k + "?" +
            ParamString([(SearchQueryKey, Render([Constraint(Leading, DecisionDateKey, date)])),
                         (LimitQueryKey, Decimal(MaxQuerySize))])
            == BaseUrl510k + "?search=decision_date:" + date + "&limit=99"
  {
    var p := ParamString([(SearchQueryKey, Render([Constraint(Leading, DecisionDateKey, date)])),
                          (LimitQueryKey, Decimal(MaxQuerySize))]);
    QueryOfDateText(date);
    AppendAssociates(BaseUrl510k, "?", p);
    AppendAssociates(BaseUrl510k, "?search=decision_date:" + date, "&limit=99");
    AppendAssociates(BaseUrl510k, "?search=decision_date:", date);
  }

  /** The request for day `d` searches its decision date and asks for at most 99 results. */
  lemma QueryUrlShape(d: Date)
    requires ValidDate(d)
    ensures QueryUrl(d) == BaseUrl510k + "?search=decision_date:" + Iso(d) + "&limit=99"
  {
    UrlOfDateText(Iso(d));
  }

  /** Distinct days are requested with distinct URLs. */
  lemma QueryUrlInjective(d: Date, e: Date)
    requires ValidDate(d) && ValidDate(e)
    requires QueryUrl(d) == QueryUrl(e)
    ensures d == e
  {
    QueryUrlShape(d);
    QueryUrlShape(e);
    var prefix := BaseUrl510k + "?search=decision_date:";
    var n := |prefix|;
    assert Iso(d) == QueryUrl(d)[n..n + 10];
    assert Iso(e) == QueryUrl(e)[n..n + 10];
    ParseIso(d);
    ParseIso(e);
  }

  /** A run over two requests: the first one's records come first. */
  lemma CollectTwo<V>(transport: string -> Response<V>, u: string, v: string)
    ensures Collect(transport, [u, v]) ==
              match DayRecords(transport(u))
              case Err(e) => Err(e)
              case Ok(first) => Prepend(first, DayRecords(transport(v)))
  {
    assert [u, v][1..] == [v];
    assert [v][1..] == [];
    assert Collect(transport, [v]) == DayRecords(transport(v)) by {
      match DayRecords(transport(v))
      case Err(e) =>
      case Ok(r) =>
        assert r + [] == r;
    }
  }

  /**
   * The two-day run of the tests: 2019-12-08 is requested before 2019-12-07,
   * and its records come first, whatever the responses are.
   */
  lemma TwoDayRunOrder<V>(transport: string -> Response<V>)
    ensures ValidDate(Date(2019, 12, 8)) && ValidDate(Date(2019, 12, 7))
    ensures DaysDescending(Date(2019, 12, 8), Date(2019, 12, 7)) == [Date(2019, 12, 8), Date(2019, 12, 7)]
    ensures Collect(transport, RunUrls(Date(2019, 12, 8), Date(2019, 12, 7))) ==
              match DayRecords(transport(QueryUrl(Date(2019, 12, 8))))
              case Err(e) => Err(e)
              case Ok(first) => Prepend(first, DayRecords(transport(QueryUrl(Date(2019, 12, 7)))))
  {
    var d8, d7 := Date(2019, 12, 8), Date(2019, 12, 7);
    PreviousDayIsDayBefore(d8);
    assert DaysDescending(d8, d7) == [d8] + DaysDescending(d7, d7);
    assert RunUrls(d8, d7) == [QueryUrl(d8), QueryUrl(d7)];
    CollectTwo(transport, QueryUrl(d8), QueryUrl(d7));
  }

  /**
   * Input that passes `validate_input` reads as two dates with the from-date
   * not after the to-date, which is what the walk needs.
   */
  lemma AcceptedInputCanRun(fromText: string, toText: string, path: string)
    requires ValidateInput(fromText, toText, path) == Accepted
    ensures ParseDate(toText).Some? && ParseDate(fromText).Some?
    ensures DayNumber(ParseDate(fromText).value) <= DayNumber(ParseDate(toText).value)
  {
    ValidateInputFirstFailure(fromText, toText, path);
    BeforeIffSmallerDayNumber(ParseDate(toText).value, ParseDate(fromText).value);
  }

  // -------------------------------------------------------------------------
  // The run as the source is written
  //
  // The functions above extract with the corrected key list. With the key
  // list as written, a status-200 response with any item raises `NameError`
  // (or a `KeyError` first), so a run never returns a record.

  /** What one response contributes when extraction uses the key list as the source writes it. */
  function DayRecordsAsWritten<V>(response: Response<V>): Result<seq<Record<V>>, RunError> {
    if response.status != HttpOk then Ok([])
    else
      match ExtractRecordsAsWritten(response)
      case Ok(records) => Ok(records)
      case Err(e) => Err(ExtractionFailed(e))
  }

  /** The accumulation of a run over the URLs, with the extraction as written. */
  function CollectAsWritten<V>(transport: string -> Response<V>, urls: seq<string>): Result<seq<Record<V>>, RunError> {
    if |urls| == 0 then Ok([])
    else
      match DayRecordsAsWritten(transport(urls[0]))
      case Err(e) => Err(e)
      case Ok(records) => Prepend(records, CollectAsWritten(transport, urls[1..]))
  }

  /** A response that contributes nothing as written: a status other than 200, or an empty `results` list. */
  predicate ContributesNothing<V>(response: Response<V>) {
    response.status != HttpOk || response.results == Some([])
  }

  /** As written, a day either contributes no records or fails; a day with results fails. */
  lemma DayRecordsAsWrittenEmpty<V>(response: Response<V>)
    ensures DayRecordsAsWritten(response).Ok? ==> DayRecordsAsWritten(response) == Ok([])
    ensures ContributesNothing(response) ==> DayRecordsAsWritten(response) == Ok([])
    ensures response.status == HttpOk && response.results.Some? && |response.results.value| > 0 ==>
              DayRecordsAsWritten(response).Err?
  {
    if response.status == HttpOk && response.results.Some? {
      AsWrittenFailsOnAnyResult(response.results.value);
    }
  }

  /** As written, a run that succeeds returns no record at all. */
  lemma {:induction false} CollectAsWrittenHasNoRecords<V>(transport: string -> Response<V>, urls: seq<string>)
    ensures CollectAsWritten(transport, urls).Ok? ==> CollectAsWritten(transport, urls) == Ok([])
    decreases |urls|
  {
    if |urls| > 0 {
      DayRecordsAsWrittenEmpty(transport(urls[0]));
      CollectAsWrittenHasNoRecords(transport, urls[1..]);
      PrependNothing(CollectAsWritten(transport, urls[1..]));
    }
  }

  /**
   * As written, the run fails with the `NameError` at the first status-200
   * day whose `results` list is not empty, when that list's first item has
   * every key; the days before it contribute nothing.
   */
  lemma {:induction false} CollectAsWrittenFailsAtFirstRecordDay<V>(
    transport: string -> Response<V>, urls: seq<string>, k: nat)
    requires k < |urls|
    requires forall i :: 0 <= i < k ==> ContributesNothing(transport(urls[i]))
    requires transport(urls[k]).status == HttpOk && transport(urls[k]).results.Some?
    requires |transport(urls[k]).results.value| > 0
    requires forall j :: 0 <= j < |DeviceRecordKeys| ==> DeviceRecordKeys[j] in transport(urls[k]).results.value[0]
    ensures CollectAsWritten(transport, urls) == Err(ExtractionFailed(UnboundName("DECISION_DESCRIPTION_FIELD")))
    decreases k
  {
    if k == 0 {
      AsWrittenFailsOnAnyResult(transport(urls[0]).results.value);
    } else {
      DayRecordsAsWrittenEmpty(transport(urls[0]));
      var tail := urls[1..];
      assert tail[k - 1] == urls[k];
      assert forall i :: 0 <= i < k - 1 ==> tail[i] == urls[i + 1];
      CollectAsWrittenFailsAtFirstRecordDay(transport, tail, k - 1);
    }
  }

  // -------------------------------------------------------------------------
  // The loop of run_query

  lemma HeadThenPrefix<T>(s: seq<T>, n: nat)
    requires n < |s|
    ensures [s[0]] + s[1..][..n] == s[..n + 1]
  {
  }

  lemma AppendAssociates<T>(a: seq<T>, b: seq<T>, c: seq<T>)
    ensures a + (b + c) == (a + b) + c
  {
  }

  /**
   * Builds the request URL of one day as `run_query` does: a fresh builder
   * holding the decision-date field, then the `search` and `limit` parameters.
   */
  method DayUrl(d: Date, isoFormattedDate: string) returns (getUrl: string)
    requires ValidDate(d) && isoFormattedDate == Iso(d)
    ensures getUrl == QueryUrl(d)
    ensures getUrl == BaseUrl510k + "?search=decision_date:" + Iso(d) + "&limit=99"
  {
    var queryBuilder := new SearchQueryBuilder();
    var added := queryBuilder.AddFirstQueryField(DecisionDateKey, isoFormattedDate);
    var searchQueryStr := queryBuilder.GetSearchQueryString();
    var params := [(SearchQueryKey, searchQueryStr), (LimitQueryKey, Decimal(MaxQuerySize))];
    var paramsStr := ParamString(params);
    getUrl := BaseUrl510k + "?" + paramsStr;
    QueryUrlShape(d);
  }

  /**
   * One day of the walk: the request for the day's URL and what its response
   * contributes, the records of a status-200 response or nothing otherwise.
   */
  method FetchDay<V>(transport: string -> Response<V>, d: Date, isoFormattedDate: string)
    returns (getUrl: string, day: Result<seq<Record<V>>, RunError>)
    requires ValidDate(d) && isoFormattedDate == Iso(d)
    ensures getUrl == QueryUrl(d)
    ensures transport(getUrl).status != HttpOk ==> day == Ok([])
    ensures transport(getUrl).status == HttpOk ==>
              match ExtractRecords(transport(getUrl))
              case Ok(records) => day == Ok(records)
              case Err(e) => day == Err(ExtractionFailed(e))
  {
    getUrl := DayUrl(d, isoFormattedDate);
    var response := transport(getUrl);
    day := Ok([]);
    if response.status == HttpOk {
      var records := ExtractDeviceRecords(response);
      if records.Err? {
        return getUrl, Err(ExtractionFailed(records.error));
      }
      day := Ok(records.value);
    }
  }

  /**
   * The end of a walk that steps back from 0001-01-01: the `OverflowError`
   * replaces the records gathered so far, unless an extraction failed first.
   */
  function Overflowed<V>(r: Result<seq<Record<V>>, RunError>): (o: Result<seq<Record<V>>, RunError>)
    ensures r.Ok? ==> o == Err(DateOutOfRange)
    ensures r.Err? ==> o == r
  {
    match r
    case Ok(_) => Err(DateOutOfRange)
    case Err(e) => Err(e)
  }

  /**
   * The loop of `run_query`: requests each day from `toDate` down, and
   * accumulates the records of the days answered with status 200, until the
   * current day equals `dayBeforeStop`. `target` is the last day requested:
   * the stop date when the walk meets it, otherwise 0001-01-01, after which
   * stepping back fails. `requested` is the list of URLs sent, in order.
   */
  method Walk<V>(transport: string -> Response<V>, toDate: Date, stopDate: Date, dayBeforeStop: Date,
                 ghost target: Date)
    returns (r: Result<seq<Record<V>>, RunError>, ghost requested: seq<string>)
    requires ValidDate(toDate) && ValidDate(stopDate) && PreviousDay(stopDate) == Some(dayBeforeStop)
    requires ValidDate(target) && DayNumber(target) <= DayNumber(toDate) + 1
    requires target == stopDate || (target == FirstDate && DayNumber(toDate) + 1 < DayNumber(stopDate))
    ensures target == stopDate ==> r == Collect(transport, RunUrls(toDate, target))
    ensures target != stopDate ==> r == Overflowed(Collect(transport, RunUrls(toDate, target)))
    ensures requested == Requested(transport, RunUrls(toDate, target))
  {
    var currentDate := toDate;
    var isoFormattedDate := Iso(currentDate);
    PreviousDayIsDayBefore(stopDate);
    DayNumberPositive(dayBeforeStop);
    ghost var urls := RunUrls(currentDate, target);
    PrependNothing(Collect(transport, urls));
    requested := [];

    var devicesInfo: seq<Record<V>> := [];
    while currentDate != dayBeforeStop
      invariant ValidDate(currentDate) && isoFormattedDate == Iso(currentDate)
      invariant DayNumber(target) <= DayNumber(currentDate) + 1
      invariant target == stopDate || DayNumber(currentDate) + 1 < DayNumber(stopDate)
      invariant Collect(transport, urls) == Prepend(devicesInfo, Collect(transport, RunUrls(currentDate, target)))
      invariant Requested(transport, urls) == requested + Requested(transport, RunUrls(currentDate, target))
      decreases DayNumber(currentDate) - DayNumber(target) + 1
    {
      DayNumberInjective(currentDate, dayBeforeStop);
      DayNumberPositive(currentDate);
      RunUrlsStep(currentDate, target);
      ghost var rest := if currentDate == FirstDate then [] else RunUrls(PreviousDay(currentDate).value, target);

      var getUrl, day := FetchDay(transport, currentDate, isoFormattedDate);
      ghost var requestedBefore := requested;
      requested := requested + [getUrl];
      assert Requested(transport, RunUrls(currentDate, target)) ==
               if day.Err? then [getUrl] else [getUrl] + Requested(transport, rest);
      if day.Err? {
        return day, requested;
      }
      PrependTwice(devicesInfo, day.value, Collect(transport, rest));
      devicesInfo := devicesInfo + day.value;
      AppendAssociates(requestedBefore, [getUrl], Requested(transport, rest));

      var previousDate := PreviousDay(currentDate);
      if previousDate.None? {
        assert requested + [] == requested;
        return Err(DateOutOfRange), requested;
      }
      currentDate := previousDate.value;
      isoFormattedDate := Iso(currentDate);
    }
    assert RunUrls(currentDate, target) == [];
    assert devicesInfo + [] == devicesInfo;
    assert requested + [] == requested;
    r := Ok(devicesInfo);
  }

  /** The last day a walk from `to` requests: `from`, or 0001-01-01 when the walk never meets `from`. */
  lemma WalkTarget(to: Date, from: Date) returns (t: Date)
    requires ValidDate(to) && ValidDate(from)
    ensures ValidDate(t) && DayNumber(t) <= DayNumber(to) + 1
    ensures t == from || (t == FirstDate && DayNumber(to) + 1 < DayNumber(from))
  {
    if DayNumber(from) <= DayNumber(to) + 1 {
      t := from;
    } else {
      t := FirstDate;
      DayNumberPositive(to);
      FirstDateNumber();
    }
  }

  /**
   * `run_query`: reads the two dates, then walks from `to` down to `from`.
   * The loop stops when the current day equals the day before `from`, so the
   * walk ends exactly when `from` is at most one day after `to`. A `from`
   * later than that is never met: the walk goes down to 0001-01-01, requests
   * it, and fails stepping back from it. A `from` of 0001-01-01 fails before
   * any request, since the loop's guard steps back from it.
   */
  method RunQuery<V>(transport: string -> Response<V>, toText: string, fromText: string)
    returns (r: Result<seq<Record<V>>, RunError>, ghost requested: seq<string>)
    ensures ParseDate(toText).None? ==> r == Err(UnreadableDate(toText))
    ensures ParseDate(toText).Some? && ParseDate(fromText).None? ==> r == Err(UnreadableDate(fromText))
    ensures ParseDate(toText).Some? && ParseDate(fromText) == Some(FirstDate) ==> r == Err(DateOutOfRange)
    ensures ParseDate(toText).Some? && ParseDate(fromText).Some? && ParseDate(fromText) != Some(FirstDate) &&
            DayNumber(ParseDate(fromText).value) <= DayNumber(ParseDate(toText).value) + 1 ==>
              r == Collect(transport, RunUrls(ParseDate(toText).value, ParseDate(fromText).value))
    ensures ParseDate(toText).Some? && ParseDate(fromText).Some? && ParseDate(fromText) != Some(FirstDate) &&
            DayNumber(ParseDate(toText).value) + 1 < DayNumber(ParseDate(fromText).value) ==>
              r == Overflowed(Collect(transport, RunUrls(ParseDate(toText).value, FirstDate)))
    // The URLs sent: none before both dates are read and the from-date has a day before it.
    ensures ParseDate(toText).None? || ParseDate(fromText).None? || ParseDate(fromText) == Some(FirstDate) ==>
              requested == []
    ensures ParseDate(toText).Some? && ParseDate(fromText).Some? && ParseDate(fromText) != Some(FirstDate) &&
            DayNumber(ParseDate(fromText).value) <= DayNumber(ParseDate(toText).value) + 1 ==>
              requested == Requested(transport, RunUrls(ParseDate(toText).value, ParseDate(fromText).value))
    ensures ParseDate(toText).Some? && ParseDate(fromText).Some? && ParseDate(fromText) != Some(FirstDate) &&
            DayNumber(ParseDate(toText).value) + 1 < DayNumber(ParseDate(fromText).value) ==>
              requested == Requested(transport, RunUrls(ParseDate(toText).value, FirstDate))
  {
    var parsedTo := ParseDate(toText);
    if parsedTo.None? {
      return Err(UnreadableDate(toText)), [];
    }
    var parsedFrom := ParseDate(fromText);
    if parsedFrom.None? {
      return Err(UnreadableDate(fromText)), [];
    }
    var dayBeforeStop := PreviousDay(parsedFrom.value);
    if dayBeforeStop.None? {
      return Err(DateOutOfRange), [];
    }
    ghost var target := WalkTarget(parsedTo.value, parsedFrom.value);
    r, requested := Walk(transport, parsedTo.value, parsedFrom.value, dayBeforeStop.value, target);
  }
}
