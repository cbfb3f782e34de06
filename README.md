# openFDA 510(k) client — a verified model

`src/fda_510k_api.py` fetches the 510(k) clearance records of the openFDA
device API for a range of decision dates, one day per request, and collects
one record of fixed keys per device. This project models its core in Dafny:

- `QueryBuilder` — the `SearchQueryBuilder510k` class. It is a class whose
  methods update the query text and the "has a field" flag in place. Its
  invariant is that the text is the rendering of the constraints added so
  far. Reading a rendered query back gives those constraints.
- `Params` — `get_string_from_params`: `k=v` pieces joined by `&`, in
  insertion order, without percent-encoding. Reading the string back gives
  the same pairs.
- `Calendar` — proleptic Gregorian dates. It holds the day number used by
  Python's `date.toordinal`, `get_previous_day_from_datetime` and the
  `YYYY-MM-DD` rendering of `date.isoformat`. It also reads that form, as
  `strptime(s, "%Y-%m-%d")` does for canonical text.
- `Records` — `extract_device_records_from_response`, kept two ways: the key
  list as the source writes it, and the corrected key list (see Findings).
  The extraction method and the run use the corrected list.
- `Validation` — `validate_date`, `validate_date_range`,
  `validate_excel_file` and `validate_input`. The first failing check decides
  the rejection.
- `Orchestrator` — `run_query`, with the HTTP client as a parameter. It
  walks from the to-date down to the from-date, sends one request per day,
  and accumulates the records of every day answered with status 200. The
  run extracts records with the corrected key list. With the key list as
  written, a run never returns a record: it returns `[]` when no status-200
  day has any item, and otherwise fails at the first status-200 day with
  items (`Orchestrator.CollectAsWrittenHasNoRecords`,
  `Orchestrator.CollectAsWrittenFailsAtFirstRecordDay`).
- `Text` and `Wrappers` — joining and splitting text, and the
  `Option`/`Result`/`Outcome` types. Python's exceptions (`ValueError`,
  `KeyError`, `NameError`, `OverflowError`) become `Err` values.

Two behaviours of the code shape the model:

- `validate_input` checks the from-date first (`src/fda_510k_api.py`, lines
  186-188), then the to-date (190-192), then the range (195-197), then the
  path (200-202). The first failed check decides the message.
- `run_query` does not reject a from-date that is more than one day after
  the to-date. Its loop ends only when the current day equals the day before
  the from-date. Such a run never meets that day: it steps down to
  0001-01-01, requests that day too, and then fails with `OverflowError`.
  A from-date of 0001-01-01 fails before any request, because the loop's
  guard steps back from it. The callers validate the range first
  (`Orchestrator.AcceptedInputCanRun`).

## Model

| member | source | states |
|---|---|---|
| QueryBuilder.SearchQueryBuilder.constructor | src/fda_510k_api.py:87-89 | A new builder holds the empty query text, no field and no constraints, and satisfies the builder invariant |
| QueryBuilder.SearchQueryBuilder.AddFirstQueryField | src/fda_510k_api.py:91-97 | Without a field, the query becomes `name:value` and the flag is set. With a field already present, it fails with `FirstFieldExists` and changes nothing. The invariant "text = rendering of well-formed constraints" is kept |
| QueryBuilder.SearchQueryBuilder.AddQueryField | src/fda_510k_api.py:99-111 | Without a first field, it fails and changes nothing. Operator `AND` appends `+AND+name:value`. Operator `+` appends `+name:value`. Any other operator fails with `InvalidOperator(op)` and changes nothing. The flag never changes and the invariant is kept |
| QueryBuilder.SearchQueryBuilder.GetSearchQueryString | src/fda_510k_api.py:113-114 | Returns the rendering of the constraints added so far, and `""` before any field |
| QueryBuilder.RenderIsJoin | src/fda_510k_api.py:99-111 | A well-formed query text is its tokens (the `AND` markers and the `name:value` fields) joined with `+` |
| QueryBuilder.ParseRender | src/fda_510k_api.py:91-111 | The query text determines its constraints: reading a rendered query back gives the same constraints, connectives and order. This holds when names contain no `+` or `:` and values no `+` |
| QueryBuilder.RenderExamples | src/fda_510k_api.py:91-108 | `decision_date:2019-12-08` for one field; `+k_number:K1` appended for a disjunction |
| Params.ParamString | src/fda_510k_api.py:117-118 | `get_string_from_params`. Its contract is stated by `Params.ParseParamString` and `Params.ParamStringExample` |
| Params.ParseParamString | src/fda_510k_api.py:117-118 | The `k=v&...` string of at least one pair reads back as the same pairs in the same order. This holds when keys contain no `=` or `&` and values no `&` |
| Params.ParamStringExample | test/test_510k_utils.py:14-23 | The two pairs give `key_1=val_1&key_2=val_2`; no pairs give `""` |
| Params.DecimalExample | src/fda_510k_api.py:228-231 | The limit 99 is written as `99` |
| Calendar.DayNumber | src/fda_510k_api.py:170-174 | The day count of `date.toordinal` that `to_date - from_date` compares. Its contract is stated by `Calendar.DayNumberInjective` and `Calendar.BeforeIffSmallerDayNumber` |
| Calendar.PreviousDay | src/fda_510k_api.py:121-122 | There is no previous day exactly for 0001-01-01 (Python's `OverflowError`). Otherwise the previous day is a valid date |
| Calendar.PreviousDayIsDayBefore | src/fda_510k_api.py:121-122 | The previous day comes before the date, and its day number is one less |
| Calendar.PreviousDayByNumber | src/fda_510k_api.py:121-122 | Any valid date whose day number is one less is the previous day, so the result is unique |
| Calendar.PreviousDayIsAdjacent | src/fda_510k_api.py:121-122 | No valid date lies strictly between the previous day and the date |
| Calendar.PreviousDayExamples | test/test_510k_utils.py:25-35 | 2020-10-20 → 2020-10-19. The month, year and leap-day boundaries (1900, 2000, 2020) step back correctly |
| Calendar.DayNumberInjective | src/fda_510k_api.py:170-174 | Two valid dates have the same day number if and only if they are the same date; a zero `timedelta` means the same day |
| Calendar.BeforeIffSmallerDayNumber | src/fda_510k_api.py:170-174 | Calendar order is the order of day numbers, in both directions |
| Calendar.Iso | src/fda_510k_api.py:215 | `date.isoformat`: ten characters with dashes at positions 4 and 7. `Calendar.ParseIso` and `Calendar.IsoExamples` state the rest |
| Calendar.ParseDate | src/fda_510k_api.py:158 | `strptime(s, "%Y-%m-%d")` on canonical text: a read date is valid. `Calendar.ParseIso` and `Calendar.IsoOfParse` make it the inverse of `Calendar.Iso` |
| Calendar.ParseIso | src/fda_510k_api.py:213-215 | Reading the `YYYY-MM-DD` text of any valid date gives back that date |
| Calendar.IsoOfParse | src/fda_510k_api.py:213-215 | A text that reads as a date is exactly the `YYYY-MM-DD` rendering of that date |
| Calendar.IsoExamples | src/fda_510k_api.py:215 | Renders 2019-12-08 and 2019-12-07, and pads year 33 as `0033-01-09` |
| Records.ExtractRecords | src/fda_510k_api.py:125-152 | The extraction with the corrected key list. Its contract is stated by `Records.BuildRecordsShape` and `Records.BuildRecordsError` |
| Records.ExtractRecordsAsWritten | src/fda_510k_api.py:125-152 | The extraction with the key list as written. Its contract is stated by `Records.AsWrittenFailsOnAnyResult` |
| Records.ExtractDeviceRecords | src/fda_510k_api.py:125-152 | With the corrected key list, the loop returns the extraction. A body without `results` is a `KeyError`. Otherwise it returns the records of all items in order, or the first item's failure |
| Records.BuildRecordsShape | src/fda_510k_api.py:130-152 | Extraction succeeds if and only if every item has every key. It then yields one record per item, in item order. Each record holds the 11 keys in display order, each with that item's value |
| Records.BuildRecordsError | src/fda_510k_api.py:130-152 | A failed extraction is a `KeyError` for a key that some item lacks |
| Records.DeviceRecordKeysDistinct | src/fda_510k_api.py:132-149 | The record has 11 pairwise distinct keys |
| Records.AsWrittenRecordFails | src/fda_510k_api.py:132-149 | As written, building any record fails. The error is `NameError` on `DECISION_DESCRIPTION_FIELD`, or a `KeyError` on one of the 8 keys before it. It is the `NameError` whenever the item has all keys |
| Records.AsWrittenFailsOnAnyResult | src/fda_510k_api.py:125-152 | As written, an empty `results` gives `[]`. Any non-empty `results` fails, and never yields records. The failure is the `NameError` when the first item is complete |
| Records.CorrectedKeysDifferOnlyAtDescription | src/fda_510k_api.py:132-149 | The corrected key list agrees with the written one everywhere except position 8. There the undefined name becomes `decision_description` |
| Validation.Message | src/fda_510k_api.py:64-67 | The status text shown for each rejection. `Validation.MessagesDistinct` states that it tells the rejections apart |
| Validation.MessagesDistinct | src/fda_510k_api.py:64-67 | Two rejections have the same message if and only if they are the same rejection |
| Validation.ValidateDate | src/fda_510k_api.py:155-162 | `validate_date`. Its contract is stated by `Validation.ValidateDateIffIso` |
| Validation.ValidateDateRange | src/fda_510k_api.py:165-174 | `validate_date_range`, with an unreadable date as a `ValueError`. Its contract is stated by `Validation.DateRangeIffOrdered` |
| Validation.ValidateExcelFile | src/fda_510k_api.py:177-178 | `validate_excel_file`. Its contract is stated by `Validation.ExcelFileIffSuffix` |
| Validation.ValidateInput | src/fda_510k_api.py:181-205 | `validate_input`. Its contract is stated by `Validation.ValidateInputFirstFailure` |
| Validation.ValidateDateIffIso | src/fda_510k_api.py:155-162 | A text passes if and only if it is the `YYYY-MM-DD` rendering of some valid date |
| Validation.DateRangeIffOrdered | src/fda_510k_api.py:165-174 | For readable dates, the range is valid if and only if from = to or from comes before to |
| Validation.ExcelFileIffSuffix | src/fda_510k_api.py:177-178 | A path passes if and only if it is some stem followed by `.xlsx` |
| Validation.ValidateInputFirstFailure | src/fda_510k_api.py:181-205 | Checks run in the order from-date, to-date, range, path, and the first failure is reported. The input is accepted if and only if both dates read, the to-date is not before the from-date, and the path ends in `.xlsx` |
| Validation.DateExamples | test/test_510k_utils.py:38-47 | `2020-04-10` passes; `2020/04/10` and `""` fail |
| Validation.DateRangeExamples | test/test_510k_utils.py:50-65 | A later to-date is valid, an earlier one invalid, the same day valid |
| Validation.ExcelFileExamples | test/test_510k_utils.py:68-76 | `valid.xlsx` passes; `valid.xls` and `invalid.xl` fail |
| Validation.ValidateInputExamples | test/test_510k_utils.py:90-108 | The accepted input; the reversed range → `InvalidDateRange`; `invalid.xl` → `InvalidExcelFilePath` |
| Validation.EmptyDateExamples | test/test_510k_utils.py:78-88 | An empty date is rejected for the argument it is in |
| Orchestrator.DayUrl | src/fda_510k_api.py:222-240 | A fresh builder with the decision-date field, plus the `search` and `limit` parameters, gives `https://api.fda.gov/device/510k.json?search=decision_date:<YYYY-MM-DD>&limit=99` |
| Orchestrator.QueryUrl | src/fda_510k_api.py:220-240 | The URL requested for a day. Its contract is stated by `Orchestrator.QueryUrlShape`, `Orchestrator.QueryUrlInjective` and `Orchestrator.DayUrl` |
| Orchestrator.QueryUrlShape | src/fda_510k_api.py:220-240 | A day's request URL is the base URL, then `?search=decision_date:`, the day's ISO text and `&limit=99` |
| Orchestrator.QueryUrlInjective | src/fda_510k_api.py:220-240 | Different days are requested with different URLs |
| Orchestrator.FetchDay | src/fda_510k_api.py:240-251 | A day answered with any status other than 200 contributes no records. A 200 answer contributes its records extracted with the corrected key list, or its extraction error |
| Orchestrator.DaysDescending | src/fda_510k_api.py:218-256 | The walk from `to` down to `from` holds DN(to) − DN(from) + 1 valid days (DN is the day number) |
| Orchestrator.DaysDescendingShape | src/fda_510k_api.py:218-256 | The walk starts at `to` and ends at `from`. Each day is followed by its previous day, and the days strictly decrease |
| Orchestrator.DaysDescendingNumbers | src/fda_510k_api.py:218-256 | The k-th day of the walk is k days before `to` |
| Orchestrator.RunUrlsStep | src/fda_510k_api.py:221-255 | While the current day is not before the stop day, the run requests the current day's URL, then the URLs of the walk from the day before. At 0001-01-01 it requests only that day |
| Orchestrator.Collect | src/fda_510k_api.py:246-251 | The accumulation of the days' records, with the corrected key list. Its contract is stated by `Orchestrator.CollectConcat`, `Orchestrator.FailedDaysContributeNothing` and `Orchestrator.RequestedUpToFailure` |
| Orchestrator.CollectConcat | src/fda_510k_api.py:246-251 | Accumulating over two URL lists in a row is the first list's records followed by the second's. An error in the first list ends the run |
| Orchestrator.FailedDaysContributeNothing | src/fda_510k_api.py:246-251 | When no response has status 200, the run returns no records and requests every URL |
| Orchestrator.RequestedAllWhenOk | src/fda_510k_api.py:218-256 | A run that succeeds requests every URL of the walk |
| Orchestrator.RequestedUpToFailure | src/fda_510k_api.py:218-256 | A run that fails requests a prefix of the walk's URLs. The failure is the last requested day's error, and every earlier day succeeded |
| Orchestrator.Walk | src/fda_510k_api.py:218-256 | With the corrected key list, the loop returns the accumulated records of the days from `to` down to its last day, and sends exactly those days' URLs in that order. When the stop day is never met, the last day is 0001-01-01 and the result is the overflow |
| Orchestrator.RunQuery | src/fda_510k_api.py:208-262 | An unreadable to-date, then an unreadable from-date, is a `ValueError`, and a from-date of 0001-01-01 is an overflow; none of these sends a request. If the from-date is at most one day after the to-date, the result is the accumulated records, extracted with the corrected key list, over the days from `to` down to `from`. Otherwise the walk goes down to 0001-01-01 and ends in the overflow |
| Orchestrator.DayRecordsAsWritten | src/fda_510k_api.py:246-251 | One day's contribution with the key list as written. `Orchestrator.DayRecordsAsWrittenEmpty` states its contract |
| Orchestrator.CollectAsWritten | src/fda_510k_api.py:243-255 | The accumulation with the key list as written. `Orchestrator.CollectAsWrittenHasNoRecords` and `Orchestrator.CollectAsWrittenFailsAtFirstRecordDay` state its contract |
| Orchestrator.DayRecordsAsWrittenEmpty | src/fda_510k_api.py:246-251 | As written, a day contributes no records when it does not fail. A day with another status or an empty `results` contributes `[]`; a status-200 day with items fails |
| Orchestrator.CollectAsWrittenHasNoRecords | src/fda_510k_api.py:218-256 | As written, a run that does not fail returns no records |
| Orchestrator.CollectAsWrittenFailsAtFirstRecordDay | src/fda_510k_api.py:144 | As written, when the first status-200 day with items has a complete first item, and every earlier day contributed nothing, the run fails with `NameError` on `DECISION_DESCRIPTION_FIELD` |
| Orchestrator.TwoDayRunOrder | test/test_510k_api_queries.py:42-75 | The run from 2019-12-08 down to 2019-12-07 requests 2019-12-08 first, then 2019-12-07. Its records are those of the first day followed by those of the second |
| Orchestrator.AcceptedInputCanRun | src/fda_510k_api.py:181-205 | An accepted input has two readable dates, with the from-date not after the to-date, so the run ends at the from-date |

## Left out

- The tkinter window, its entries, labels and button, the thread started
  per query, `handle_run_query` and the `USING_GUI` switch. These are GUI
  and concurrency.
- `update_query_status_lbl`: the status messages are modelled as values
  (`Validation.Message`), not as label updates.
- `save_devices_info_to_excel_file` and the `openpyxl` workbook: file I/O.
  The `excel_file_path` argument of `run_query` is only passed on to it, so
  `Orchestrator.RunQuery` does not take it.
- `requests.get` and `response.json()`. The HTTP client is a parameter,
  from URL to status code and the body's `results` list, if it has one.
  JSON decoding errors and network exceptions are not modelled.
- Validation.ValidateDate: reads only the canonical `YYYY-MM-DD` form, with
  two ASCII digits for the month and the day. `strptime` needs exactly four
  digits for `%Y`, but it also accepts a one-digit month or day, a day
  padded with a space (`2020-03- 5`), and non-ASCII Unicode decimal digits
  where its pattern uses `\d`, as in the year. Those spellings are rejected
  here.
- The time-of-day part of the `datetime` values. `strptime` always sets it
  to midnight, so dates are modelled as calendar days.
- The Python-level return values `self` of the builder methods, which allow
  chaining. The methods return an `Outcome` in their place. A `ValueError`
  raised by the builder is a `Fail` outcome, and the builder's state stays
  unchanged.

## Findings

| source | as written | input that shows it | evidently intended | confidence | as-written member | corrected member |
|---|---|---|---|---|---|---|
| src/fda_510k_api.py:144 | The record display uses the name `DECISION_DESCRIPTION_FIELD`, which the module never defines. Evaluating it raises `NameError` | Any status-200 response whose `results` list has at least one item. A complete item gives `NameError`. Only an empty list returns normally | The key `"decision_description"`, alongside the other `*_KEY` constants | high; not executed | Records.AsWrittenFailsOnAnyResult | Records.BuildRecordsShape |
