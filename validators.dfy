/**
 * The input validators of the interactive front end. Each is a pure predicate
 * on the text the user typed; `ValidateDate` and `ValidateDateRange` go through
 * a model of `datetime.strptime(text, '%Y-%m-%d')`.
 */
module Validators {
  import opened Wrappers
  import opened Timestamps

  // ---- characters ---------------------------------------------------------

  /** `str.isalpha` restricted to ASCII letters. */
  predicate IsLetter(c: char) {
    'A' <= c <= 'Z' || 'a' <= c <= 'z'
  }

  /** `str.lower` on one character, ASCII case mapping. */
  function LowerChar(c: char): char {
    if 'A' <= c <= 'Z' then (c as int - 'A' as int + 'a' as int) as char else c
  }

  function Lower(s: string): (r: string)
    ensures |r| == |s|
    ensures forall i :: 0 <= i < |s| ==> r[i] == LowerChar(s[i])
  {
    seq(|s|, i requires 0 <= i < |s| => LowerChar(s[i]))
  }

  // ---- selector validators ------------------------------------------------

  /** `validate_stock_name`: one to five characters, all (ASCII) letters. */
  predicate ValidateStockName(stock: string)
    ensures ValidateStockName(stock) <==> 1 <= |stock| <= 5 && forall i :: 0 <= i < |stock| ==> 'a' <= LowerChar(stock[i]) <= 'z'
  {
    (|stock| > 0 && forall i :: 0 <= i < |stock| ==> IsLetter(stock[i])) && 0 < |stock| < 6
  }

  /** `validate_chart_type`. */
  predicate ValidateChartType(chartType: string)
    ensures ValidateChartType(chartType) <==> |chartType| == 1 && '1' <= chartType[0] <= '2'
  {
    chartType == "1" || chartType == "2"
  }

  /** `validate_time_series`. */
  predicate ValidateTimeSeries(timeSeries: string)
    ensures ValidateTimeSeries(timeSeries) <==> |timeSeries| == 1 && '1' <= timeSeries[0] <= '4'
  {
    timeSeries == "1" || timeSeries == "2" || timeSeries == "3" || timeSeries == "4"
  }

  /** `validate_yes_no`: the lower-cased answer is one of four words. */
  predicate ValidateYesNo(response: string)
    ensures ValidateYesNo(response) ==> 1 <= |response| <= 3 && LowerChar(response[0]) in "yn"
  {
    Lower(response) in ["yes", "no", "y", "n"]
  }

  /** Letter case does not matter to the symbol check: lower-casing a symbol never changes the verdict. */
  lemma StockNameCaseInsensitive(stock: string)
    ensures ValidateStockName(Lower(stock)) <==> ValidateStockName(stock)
  {
    var low := Lower(stock);
    forall i | 0 <= i < |stock| ensures IsLetter(low[i]) <==> IsLetter(stock[i]) {
      assert low[i] == LowerChar(stock[i]);
    }
  }

  /** Ticker-like examples: plain symbols pass; a six-letter word, a class suffix and the empty text do not. */
  lemma StockNameExamples()
    ensures ValidateStockName("AAPL") && ValidateStockName("msft") && ValidateStockName("F")
    ensures !ValidateStockName("GOOGLE") && !ValidateStockName("BRK.B") && !ValidateStockName("")
  {
    assert "BRK.B"[3] == '.';
  }

  /** The yes/no validator accepts exactly the sixteen spellings of yes, no, y and n in any letter case. */
  lemma {:induction false} YesNoAccepts(response: string)
    ensures ValidateYesNo(response) <==> response in YesNoSpellings()
  {
    var r := response;
    var low := Lower(r);
    if ValidateYesNo(r) {
      if |r| == 1 {
        assert r[0] in "yYnN" by { assert low[0] == LowerChar(r[0]); }
        assert r == [r[0]];
      } else if |r| == 2 {
        assert low == "no";
        assert low[0] == LowerChar(r[0]) && low[1] == LowerChar(r[1]);
        assert r == [r[0], r[1]];
      } else {
        assert |r| == 3 && low == "yes";
        assert low[0] == LowerChar(r[0]) && low[1] == LowerChar(r[1]) && low[2] == LowerChar(r[2]);
        assert r == [r[0], r[1], r[2]];
      }
    }
    if r in YesNoSpellings() {
      if |r| == 3 {
        assert r[0] in "yY" && r[1] in "eE" && r[2] in "sS";
        assert low == [LowerChar(r[0]), LowerChar(r[1]), LowerChar(r[2])] == "yes";
      } else if |r| == 2 {
        assert r[0] in "nN" && r[1] in "oO";
        assert low == [LowerChar(r[0]), LowerChar(r[1])] == "no";
      } else {
        assert r[0] in "yYnN";
        assert low == [LowerChar(r[0])];
      }
    }
  }

  function YesNoSpellings(): (words: set<string>)
  {
    {"y", "Y", "n", "N", "no", "nO", "No", "NO",
     "yes", "yeS", "yEs", "yES", "Yes", "YeS", "YEs", "YES"}
  }

  // ---- strptime('%Y-%m-%d') -----------------------------------------------

  /** `%Y`: exactly four digits. */
  function YearField(t: string): Option<int>
  {
    if |t| == 4 && IsDigit(t[0]) && IsDigit(t[1]) && IsDigit(t[2]) && IsDigit(t[3])
    then Some(100 * TwoDigits(t[0], t[1]) + TwoDigits(t[2], t[3]))
    else None
  }

  /** `%m`: the alternatives `1[0-2]`, `0[1-9]`, `[1-9]`, matched against the whole text between the two dashes. */
  function MonthField(t: string): Option<int>
  {
    if |t| == 2 && t[0] == '1' && '0' <= t[1] <= '2' then Some(10 + DigitValue(t[1]))
    else if |t| == 2 && t[0] == '0' && '1' <= t[1] <= '9' then Some(DigitValue(t[1]))
    else if |t| == 1 && '1' <= t[0] <= '9' then Some(DigitValue(t[0]))
    else None
  }

  /**
   * `%d`: the alternatives `3[01]`, `[12]\d`, `0[1-9]`, `[1-9]`, ` [1-9]`, tried in that order;
   * the first that matches must reach the end of the text ("unconverted data remains" otherwise).
   */
  function DayField(t: string): Option<int>
  {
    if |t| == 2 && t[0] == '3' && '0' <= t[1] <= '1' then Some(30 + DigitValue(t[1]))
    else if |t| == 2 && '1' <= t[0] <= '2' && IsDigit(t[1]) then Some(TwoDigits(t[0], t[1]))
    else if |t| == 2 && t[0] == '0' && '1' <= t[1] <= '9' then Some(DigitValue(t[1]))
    else if |t| == 1 && '1' <= t[0] <= '9' then Some(DigitValue(t[0]))
    else if |t| == 2 && t[0] == ' ' && '1' <= t[1] <= '9' then Some(DigitValue(t[1]))
    else None
  }

  /** The fields of a `%Y-%m-%d` text, before the calendar check; `None` when the pattern does not match. */
  function DateFields(s: string): Option<Date>
  {
    if |s| < 5 || s[4] != '-' then None
    else
      var rest := s[5..];
      // The month is one or two characters; a dash follows it.
      var monthLen := if |rest| >= 2 && rest[1] == '-' then 1
                      else if |rest| >= 3 && rest[2] == '-' then 2
                      else 0;
      if monthLen == 0 then None
      else
        match (YearField(s[..4]), MonthField(rest[..monthLen]), DayField(rest[monthLen + 1..]))
        case (Some(y), Some(m), Some(d)) => Some(Date(y, m, d))
        case _ => None
  }

  /** `datetime.strptime(s, '%Y-%m-%d')`: the pattern must match all of `s` and name a real calendar date. */
  function ParseDate(s: string): (r: Option<CalendarDate>)
    ensures r.Some? ==> 8 <= |s| <= 10 && s[4] == '-' && (s[6] == '-' || s[7] == '-')
  {
    match DateFields(s)
    case Some(d) => if ValidDate(d) then Some(d) else None
    case None => None
  }

  /** `validate_date`. */
  predicate ValidateDate(date: string)
    ensures ValidateDate(date) ==> 8 <= |date| <= 10 && date[4] == '-'
  {
    ParseDate(date).Some?
  }

  /**
   * `validate_date_range`: both texts go through `strptime`, which raises on a bad one
   * (`None` here); otherwise the end must not lie before the start.
   */
  function ValidateDateRange(startDate: string, endDate: string): (r: Option<bool>)
    ensures r.Some? <==> ValidateDate(startDate) && ValidateDate(endDate)
    ensures r.Some? ==> (r.value <==> !DateBefore(ParseDate(endDate).value, ParseDate(startDate).value))
  {
    match (ParseDate(startDate), ParseDate(endDate))
    case (Some(start), Some(end)) =>
      MidnightOrder(start, end);
      Some(NotAfter(Midnight(start), Midnight(end)))
    case _ => None
  }

  /** The same date entered twice is a valid range. */
  lemma SameDateIsValidRange(date: string)
    requires ValidateDate(date)
    ensures ValidateDateRange(date, date) == Some(true)
  {
  }

  // ---- the texts strptime accepts -----------------------------------------

  /** How `%m` or `%d` below ten may be written. */
  datatype MonthStyle = MonthPadded | MonthBare
  datatype DayStyle = DayPadded | DayBare | DaySpaced

  function MonthText(m: int, style: MonthStyle): string
    requires 1 <= m <= 12
  {
    if m >= 10 then Pad2(m)
    else if style == MonthPadded then Pad2(m)
    else [DigitChar(m)]
  }

  function DayText(d: int, style: DayStyle): string
    requires 1 <= d <= 31
  {
    if d >= 10 then Pad2(d)
    else match style
      case DayPadded => Pad2(d)
      case DayBare => [DigitChar(d)]
      case DaySpaced => [' ', DigitChar(d)]
  }

  /** One way of writing date `d` in the `%Y-%m-%d` format. */
  function DateText(d: CalendarDate, ms: MonthStyle, ds: DayStyle): string
  {
    Pad4(d.year) + "-" + MonthText(d.month, ms) + "-" + DayText(d.day, ds)
  }

  lemma Pad4Digits(n: int)
    requires 0 <= n < 10000
    ensures YearField(Pad4(n)) == Some(n)
  {
    Pad2Inverse(n / 100);
    Pad2Inverse(n % 100);
  }

  lemma YearFieldPad4(t: string, y: int)
    requires YearField(t) == Some(y)
    ensures 0 <= y < 10000 && Pad4(y) == t
  {
    var hi, lo := TwoDigits(t[0], t[1]), TwoDigits(t[2], t[3]);
    HundredsSplit(hi, lo);
    TwoDigitsInverse(t[0], t[1]);
    TwoDigitsInverse(t[2], t[3]);
    assert t == [t[0], t[1]] + [t[2], t[3]];
  }

  /** How a text put together from a year, a month and a day splits back into those three fields. */
  lemma FieldsOfParts(y: string, mt: string, dt: string)
    requires |y| == 4
    requires |mt| == 1 || (|mt| == 2 && mt[1] != '-')
    ensures DateFields(y + "-" + mt + "-" + dt)
            == if YearField(y).Some? && MonthField(mt).Some? && DayField(dt).Some?
               then Some(Date(YearField(y).value, MonthField(mt).value, DayField(dt).value))
               else None
  {
    var s := y + "-" + mt + "-" + dt;
    var rest := s[5..];
    assert rest == mt + "-" + dt;
    assert rest[|mt|] == '-';
    assert s[..4] == y;
    assert rest[..|mt|] == mt;
    assert rest[|mt| + 1..] == dt;
  }

  lemma MonthTextField(m: int, style: MonthStyle)
    requires 1 <= m <= 12
    ensures var t := MonthText(m, style);
            MonthField(t) == Some(m) && (|t| == 1 || (|t| == 2 && t[1] != '-'))
  {
  }

  lemma DayTextField(d: int, style: DayStyle)
    requires 1 <= d <= 31
    ensures DayField(DayText(d, style)) == Some(d)
  {
  }

  /** Completeness: every way of writing a real date parses back to that date. */
  lemma ParseDateText(d: CalendarDate, ms: MonthStyle, ds: DayStyle)
    ensures ParseDate(DateText(d, ms, ds)) == Some(d)
  {
    Pad4Digits(d.year);
    MonthTextField(d.month, ms);
    DayTextField(d.day, ds);
    FieldsOfParts(Pad4(d.year), MonthText(d.month, ms), DayText(d.day, ds));
  }

  lemma MonthFieldText(t: string, m: int)
    requires MonthField(t) == Some(m)
    ensures 1 <= m <= 12 && MonthText(m, if |t| == 1 then MonthBare else MonthPadded) == t
  {
    if |t| == 2 {
      TwoDigitsInverse(t[0], t[1]);
      assert t == [t[0], t[1]];
    } else {
      assert t == [t[0]];
    }
  }

  lemma DayFieldText(t: string, d: int)
    requires DayField(t) == Some(d)
    ensures 1 <= d <= 31
    ensures DayText(d, if |t| == 1 then DayBare else if t[0] == ' ' then DaySpaced else DayPadded) == t
  {
    if |t| == 2 && t[0] != ' ' {
      TwoDigitsInverse(t[0], t[1]);
      assert t == [t[0], t[1]];
    } else if |t| == 2 {
      assert t == [t[0], t[1]];
    } else {
      assert t == [t[0]];
    }
  }

  /** Soundness: a text that parses is one of the ways of writing the date it parses to. */
  lemma {:induction false} ParsedIsDateText(s: string)
    requires ParseDate(s).Some?
    ensures exists ms, ds :: s == DateText(ParseDate(s).value, ms, ds)
  {
    var d := ParseDate(s).value;
    var rest := s[5..];
    var monthLen := if |rest| >= 2 && rest[1] == '-' then 1 else 2;
    var mt, dt := rest[..monthLen], rest[monthLen + 1..];
    assert DateFields(s) == Some(d);
    YearFieldPad4(s[..4], d.year);
    MonthFieldText(mt, d.month);
    DayFieldText(dt, d.day);
    var ms := if |mt| == 1 then MonthBare else MonthPadded;
    var ds := if |dt| == 1 then DayBare else if dt[0] == ' ' then DaySpaced else DayPadded;
    assert s == s[..4] + "-" + mt + "-" + dt;
    assert s == DateText(d, ms, ds);
  }

  /** `validate_date` accepts a text exactly when it writes a real calendar date in the `%Y-%m-%d` format. */
  lemma ValidateDateAccepts(s: string)
    ensures ValidateDate(s) <==> exists d: CalendarDate, ms, ds :: s == DateText(d, ms, ds)
  {
    if ValidateDate(s) {
      ParsedIsDateText(s);
    }
    if exists d: CalendarDate, ms, ds :: s == DateText(d, ms, ds) {
      var d: CalendarDate, ms, ds :| s == DateText(d, ms, ds);
      ParseDateText(d, ms, ds);
    }
  }

  /** February 29 passes in leap years, including the 400-year rule. */
  lemma LeapDayAccepted()
    ensures ValidateDate("2024-02-29") && ValidateDate("2000-02-29")
  {
    FieldsOfParts("2024", "02", "29");
    assert "2024-02-29" == "2024" + "-" + "02" + "-" + "29";
    FieldsOfParts("2000", "02", "29");
    assert "2000-02-29" == "2000" + "-" + "02" + "-" + "29";
  }

  /** February 29 fails in common years, including the 100-year rule; February 30 always fails. */
  lemma LeapDayRejected()
    ensures !ValidateDate("2023-02-29") && !ValidateDate("1900-02-29") && !ValidateDate("2000-02-30")
  {
    FieldsOfParts("2023", "02", "29");
    assert "2023-02-29" == "2023" + "-" + "02" + "-" + "29";
    FieldsOfParts("1900", "02", "29");
    assert "1900-02-29" == "1900" + "-" + "02" + "-" + "29";
    FieldsOfParts("2000", "02", "30");
    assert "2000-02-30" == "2000" + "-" + "02" + "-" + "30";
  }

  /** Month and day may drop their leading zero, and the day may carry a leading space instead. */
  lemma ShortFieldEdges()
    ensures ValidateDate("2023-1-5") && ValidateDate("2023-01- 5")
  {
    FieldsOfParts("2023", "1", "5");
    assert "2023-1-5" == "2023" + "-" + "1" + "-" + "5";
    FieldsOfParts("2023", "01", " 5");
    assert "2023-01- 5" == "2023" + "-" + "01" + "-" + " 5";
  }

  /** Year 0 and a two-digit year are refused. */
  lemma RejectedYears()
    ensures !ValidateDate("0000-01-01") && !ValidateDate("23-01-05")
  {
    FieldsOfParts("0000", "01", "01");
    assert "0000-01-01" == "0000" + "-" + "01" + "-" + "01";
  }

  /** Month 13, April 31 and trailing text are refused. */
  lemma RejectedFields()
    ensures !ValidateDate("2023-13-01") && !ValidateDate("2023-04-31") && !ValidateDate("2023-01-05 ")
  {
    FieldsOfParts("2023", "13", "01");
    assert "2023-13-01" == "2023" + "-" + "13" + "-" + "01";
    FieldsOfParts("2023", "04", "31");
    assert "2023-04-31" == "2023" + "-" + "04" + "-" + "31";
    FieldsOfParts("2023", "01", "05 ");
    assert "2023-01-05 " == "2023" + "-" + "01" + "-" + "05 ";
  }
}
