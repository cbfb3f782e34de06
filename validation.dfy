/**
 * The checks run on the three user inputs before a query starts: each date
 * must read as a `YYYY-MM-DD` calendar date, the from-date must not be after
 * the to-date, and the spreadsheet path must end in `.xlsx`. `validate_input`
 * stops at the first check that fails; each failure has its own message.
 */
module Validation {
  import opened Wrappers
  import opened Calendar

  const ExcelFileFormat: string := ".xlsx"

  /** Which check rejected the input. */
  datatype InputError = InvalidFromDate | InvalidToDate | InvalidDateRange | InvalidExcelFilePath

  datatype Verdict = Accepted | Rejected(reason: InputError)

  /** The status message shown for each rejection. */
  function Message(e: InputError): string {
    match e
    case InvalidToDate => "The 'to' date is invalid."
    case InvalidFromDate => "The 'from' date is invalid."
    case InvalidDateRange => "The date range is invalid."
    case InvalidExcelFilePath => "The MS Excel file path is invalid."
  }

  /** Each rejection has its own message, so the message names the failed check. */
  lemma MessagesDistinct(a: InputError, b: InputError)
    ensures Message(a) == Message(b) <==> a == b
  {
  }

  /** `validate_date`: whether the text reads as a calendar date. */
  function ValidateDate(s: string): bool {
    ParseDate(s).Some?
  }

  /**
   * `validate_date_range`: whether the to-date minus the from-date is at least
   * zero days. A text that does not read as a date is an error (the `ValueError`
   * of the parse), the from-date being read first.
   */
  function ValidateDateRange(fromText: string, toText: string): Result<bool, string> {
    match (ParseDate(fromText), ParseDate(toText))
    case (None, _) => Err(fromText)
    case (Some(_), None) => Err(toText)
    case (Some(from), Some(to)) => Ok(DayNumber(to) - DayNumber(from) >= 0)
  }

  /** `validate_excel_file`: whether the path ends in `.xlsx`. */
  function ValidateExcelFile(path: string): bool {
    |path| >= |ExcelFileFormat| && path[|path| - |ExcelFileFormat|..] == ExcelFileFormat
  }

  /** `validate_input`: the four checks in order; the first that fails decides the verdict. */
  function ValidateInput(fromText: string, toText: string, path: string): Verdict {
    if !ValidateDate(fromText) then Rejected(InvalidFromDate)
    else if !ValidateDate(toText) then Rejected(InvalidToDate)
    else if ValidateDateRange(fromText, toText) != Ok(true) then Rejected(InvalidDateRange)
    else if !ValidateExcelFile(path) then Rejected(InvalidExcelFilePath)
    else Accepted
  }

  // -------------------------------------------------------------------------
  // What the checks mean

  /** A text passes the date check exactly when it is the YYYY-MM-DD rendering of a valid day. */
  lemma ValidateDateIffIso(s: string)
    ensures ValidateDate(s) <==> exists d :: ValidDate(d) && s == Iso(d)
  {
    if ValidateDate(s) {
      IsoOfParse(s);
      var d := ParseDate(s).value;
      assert ValidDate(d) && s == Iso(d);
    } else if d :| ValidDate(d) && s == Iso(d) {
      ParseIso(d);
    }
  }

  /**
   * For readable dates the range check accepts exactly when the from-date is
   * the to-date or comes before it in the calendar; the same day is accepted.
   */
  lemma DateRangeIffOrdered(fromText: string, toText: string)
    requires ValidateDate(fromText) && ValidateDate(toText)
    ensures var from, to := ParseDate(fromText).value, ParseDate(toText).value;
            ValidateDateRange(fromText, toText) == Ok(from == to || Before(from, to))
  {
    var from, to := ParseDate(fromText).value, ParseDate(toText).value;
    BeforeIffSmallerDayNumber(from, to);
    if DayNumber(from) == DayNumber(to) {
      DayNumberInjective(from, to);
    }
  }

  /** The path check is a suffix test: the path is some stem followed by `.xlsx`. */
  lemma ExcelFileIffSuffix(path: string)
    ensures ValidateExcelFile(path) <==> exists stem :: path == stem + ExcelFileFormat
  {
    if ValidateExcelFile(path) {
      var stem := path[..|path| - |ExcelFileFormat|];
      assert path == stem + ExcelFileFormat;
    }
  }

  /**
   * `validate_input` reports the first failing check in the order from-date,
   * to-date, range, path, and accepts exactly when both dates read as dates
   * in calendar order (or equal) and the path ends in `.xlsx`.
   */
  lemma ValidateInputFirstFailure(fromText: string, toText: string, path: string)
    ensures ParseDate(fromText).None? ==> ValidateInput(fromText, toText, path) == Rejected(InvalidFromDate)
    ensures ParseDate(fromText).Some? && ParseDate(toText).None? ==>
              ValidateInput(fromText, toText, path) == Rejected(InvalidToDate)
    ensures ParseDate(fromText).Some? && ParseDate(toText).Some? ==>
              var from, to := ParseDate(fromText).value, ParseDate(toText).value;
              (Before(to, from) ==> ValidateInput(fromText, toText, path) == Rejected(InvalidDateRange)) &&
              (!Before(to, from) && !ValidateExcelFile(path) ==>
                 ValidateInput(fromText, toText, path) == Rejected(InvalidExcelFilePath))
    ensures ValidateInput(fromText, toText, path) == Accepted <==>
              ParseDate(fromText).Some? && ParseDate(toText).Some? &&
              !Before(ParseDate(toText).value, ParseDate(fromText).value) &&
              exists stem :: path == stem + ExcelFileFormat
  {
    ExcelFileIffSuffix(path);
    if ParseDate(fromText).Some? && ParseDate(toText).Some? {
      var from, to := ParseDate(fromText).value, ParseDate(toText).value;
      DateRangeIffOrdered(fromText, toText);
      assert Before(to, from) <==> !(from == to || Before(from, to));
    }
  }

  /** The date cases of the unit tests. */
  lemma DateExamples()
    ensures ValidateDate("2020-04-10")
    ensures !ValidateDate("2020/04/10")
    ensures !ValidateDate("")
  {
    ParseIso(Date(2020, 4, 10));
    assert Iso(Date(2020, 4, 10)) == "2020-04-10";
    assert !HasIsoShape("2020/04/10");
  }

  /** The range cases of the unit tests: a later to-date, an earlier one, the same day. */
  lemma DateRangeExamples()
    ensures ValidateDateRange("2020-04-10", "2020-05-10") == Ok(true)
    ensures ValidateDateRange("2020-04-10", "2020-04-09") == Ok(false)
    ensures ValidateDateRange("2020-03-20", "2020-03-20") == Ok(true)
  {
    ParseIso(Date(2020, 4, 10));
    ParseIso(Date(2020, 5, 10));
    ParseIso(Date(2020, 4, 9));
    ParseIso(Date(2020, 3, 20));
    assert Iso(Date(2020, 4, 10)) == "2020-04-10";
    assert Iso(Date(2020, 5, 10)) == "2020-05-10";
    assert Iso(Date(2020, 4, 9)) == "2020-04-09";
    assert Iso(Date(2020, 3, 20)) == "2020-03-20";
  }

  lemma ExcelFileExamples()
    ensures ValidateExcelFile("valid.xlsx")
    ensures !ValidateExcelFile("valid.xls")
    ensures !ValidateExcelFile("invalid.xl")
  {
    assert "valid.xlsx"[5..] == ".xlsx";
    assert "valid.xls"[4..] != ".xlsx";
    assert "invalid.xl"[5..] != ".xlsx";
  }

  /** The input cases of the unit tests with readable dates. */
  lemma ValidateInputExamples()
    ensures ValidateInput("2020-04-05", "2020-05-01", "valid.xlsx") == Accepted
    ensures ValidateInput("2020-04-05", "2020-03-01", "valid.xlsx") == Rejected(InvalidDateRange)
    ensures ValidateInput("2020-04-05", "2020-05-01", "invalid.xl") == Rejected(InvalidExcelFilePath)
  {
    ParseIso(Date(2020, 4, 5));
    ParseIso(Date(2020, 5, 1));
    ParseIso(Date(2020, 3, 1));
    assert Iso(Date(2020, 4, 5)) == "2020-04-05";
    assert Iso(Date(2020, 5, 1)) == "2020-05-01";
    assert Iso(Date(2020, 3, 1)) == "2020-03-01";
    ExcelFileExamples();
  }

  /** The input cases of the unit tests with an empty date: the empty one is reported. */
  lemma EmptyDateExamples()
    ensures ValidateInput("", "2020-03-01", "valid.xlsx") == Rejected(InvalidFromDate)
    ensures ValidateInput("2020-03-01", "", "valid.xlsx") == Rejected(InvalidToDate)
  {
    ParseIso(Date(2020, 3, 1));
    assert Iso(Date(2020, 3, 1)) == "2020-03-01";
  }
}
