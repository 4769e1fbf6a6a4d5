/** Calendar dates as pandas holds them in a datetime64 column: proleptic
    Gregorian days within the range of a nanosecond Timestamp. Every date the
    pipeline compares or subtracts is a midnight timestamp, so a date is enough
    to model `pd.to_datetime` results, `pd.Timestamp.now()` and the `.days` of
    their differences. */
module Dates {
  import opened Common
  import opened Text

  datatype Date = Date(year: int, month: int, day: int)

  predicate IsLeapYear(y: int) {
    y % 4 == 0 && (y % 100 != 0 || y % 400 == 0)
  }

  function DaysInMonth(y: int, m: int): int
    requires 1 <= m <= 12
  {
    if m == 2 then (if IsLeapYear(y) then 29 else 28)
    else if m == 4 || m == 6 || m == 9 || m == 11 then 30
    else 31
  }

  function YearLength(y: int): int {
    if IsLeapYear(y) then 366 else 365
  }

  predicate IsCalendarDate(d: Date) {
    1 <= d.year && 1 <= d.month <= 12 && 1 <= d.day <= DaysInMonth(d.year, d.month)
  }

  /** Chronological order: `a` is a strictly earlier day than `b`. */
  predicate Before(a: Date, b: Date) {
    a.year < b.year
    || (a.year == b.year && (a.month < b.month || (a.month == b.month && a.day < b.day)))
  }

  /** The first and last whole days a nanosecond `pd.Timestamp` can hold
      (1677-09-21 00:12:43 and 2262-04-11 23:47:16 are its limits). */
  const EarliestStampDay := Date(1677, 9, 22)
  const LatestStampDay := Date(2262, 4, 11)

  predicate IsStampDay(d: Date) {
    IsCalendarDate(d) && !Before(d, EarliestStampDay) && !Before(LatestStampDay, d)
  }

  /** A value of a pandas datetime column (time of day midnight). */
  type Stamp = d: Date | IsStampDay(d) witness Date(1970, 1, 1)

  // ------------------------------------------------------------ day numbers

  function DaysBeforeYear(y: int): int
    requires y >= 1
  {
    365 * (y - 1) + (y - 1) / 4 - (y - 1) / 100 + (y - 1) / 400
  }

  function DaysBeforeMonth(y: int, m: int): int
    requires 1 <= m <= 12
  {
    [0, 31, 59, 90, 120, 151, 181, 212, 243, 273, 304, 334][m - 1]
    + (if m > 2 && IsLeapYear(y) then 1 else 0)
  }

  /** Days since 0001-01-01; `(b - a).days` is `DayNumber(b) - DayNumber(a)`. */
  function DayNumber(d: Date): int
    requires IsCalendarDate(d)
  {
    DaysBeforeYear(d.year) + DaysBeforeMonth(d.year, d.month) + d.day - 1
  }

  lemma YearStep(y: int)
    requires y >= 1
    ensures DaysBeforeYear(y + 1) == DaysBeforeYear(y) + YearLength(y)
  {
    var x := y - 1;
    assert y / 4 - x / 4 == if y % 4 == 0 then 1 else 0;
    assert y / 100 - x / 100 == if y % 100 == 0 then 1 else 0;
    assert y / 400 - x / 400 == if y % 400 == 0 then 1 else 0;
  }

  lemma {:induction false} YearsAdvance(y1: int, y2: int)
    requires 1 <= y1 < y2
    ensures DaysBeforeYear(y1) + YearLength(y1) <= DaysBeforeYear(y2)
    decreases y2 - y1
  {
    YearStep(y1);
    if y1 + 1 < y2 {
      YearsAdvance(y1 + 1, y2);
    }
  }

  lemma MonthsAdvance(y: int, m1: int, m2: int)
    requires 1 <= m1 < m2 <= 12
    ensures DaysBeforeMonth(y, m1) + DaysInMonth(y, m1) <= DaysBeforeMonth(y, m2)
  {
  }

  lemma WithinYear(d: Date)
    requires IsCalendarDate(d)
    ensures DaysBeforeMonth(d.year, d.month) + d.day - 1 < YearLength(d.year)
  {
  }

  lemma EarlierDayNumber(a: Date, b: Date)
    requires IsCalendarDate(a) && IsCalendarDate(b) && Before(a, b)
    ensures DayNumber(a) < DayNumber(b)
  {
    if a.year < b.year {
      WithinYear(a);
      YearsAdvance(a.year, b.year);
    } else if a.month < b.month {
      MonthsAdvance(a.year, a.month, b.month);
    }
  }

  /** Day numbers order dates exactly as the calendar does, and name each day once. */
  lemma DayNumberOrder(a: Date, b: Date)
    requires IsCalendarDate(a) && IsCalendarDate(b)
    ensures DayNumber(a) < DayNumber(b) <==> Before(a, b)
    ensures DayNumber(a) == DayNumber(b) <==> a == b
  {
    if Before(a, b) {
      EarlierDayNumber(a, b);
    } else if Before(b, a) {
      EarlierDayNumber(b, a);
    }
  }

  // ------------------------------------------------ strict "%d-%m-%Y" parse

  /** `%d` in Python's strptime: `3[01]|[12]\d|0[1-9]|[1-9]| [1-9]`. */
  predicate IsDayField(t: string) {
    (|t| == 1 && '1' <= t[0] <= '9')
    || (|t| == 2 && t[0] == ' ' && '1' <= t[1] <= '9')
    || (|t| == 2 && IsDigit(t[0]) && IsDigit(t[1])
        && 1 <= 10 * DigitValue(t[0]) + DigitValue(t[1]) <= 31)
  }

  /** `%m` in Python's strptime: `1[0-2]|0[1-9]|[1-9]`. */
  predicate IsMonthField(t: string) {
    (|t| == 1 && '1' <= t[0] <= '9')
    || (|t| == 2 && IsDigit(t[0]) && IsDigit(t[1])
        && 1 <= 10 * DigitValue(t[0]) + DigitValue(t[1]) <= 12)
  }

  /** `%Y` in Python's strptime: exactly four digits. */
  predicate IsYearField(t: string) {
    |t| == 4 && AllDigits(t)
  }

  /** `int()` of a day or month field (a leading space is ignored). */
  function FieldValue(t: string): nat
    requires IsDayField(t) || IsMonthField(t)
  {
    if |t| == 1 then DigitValue(t[0])
    else if t[0] == ' ' then DigitValue(t[1])
    else 10 * DigitValue(t[0]) + DigitValue(t[1])
  }

  function YearValue(t: string): nat
    requires IsYearField(t)
  {
    1000 * DigitValue(t[0]) + 100 * DigitValue(t[1]) + 10 * DigitValue(t[2]) + DigitValue(t[3])
  }

  /** `s` is a day field of `dl` characters, a dash, a month field of `ml`
      characters, a dash and a year field, spelling the date `d`. */
  predicate SpelledWith(s: string, dl: nat, ml: nat, d: Date) {
    |s| == dl + ml + 6 && s[dl] == '-' && s[dl + ml + 1] == '-'
    && IsDayField(s[..dl]) && IsMonthField(s[dl + 1..dl + 1 + ml])
    && IsYearField(s[dl + ml + 2..])
    && d == Date(YearValue(s[dl + ml + 2..]), FieldValue(s[dl + 1..dl + 1 + ml]), FieldValue(s[..dl]))
  }

  /** `s` matches the whole pattern `%d-%m-%Y` and spells `d`. */
  predicate Spells(s: string, d: Date) {
    SpelledWith(s, 1, 1, d) || SpelledWith(s, 1, 2, d)
    || SpelledWith(s, 2, 1, d) || SpelledWith(s, 2, 2, d)
  }

  /** `pd.to_datetime(s, format='%d-%m-%Y', errors='coerce')` of one text cell:
      the date when the whole text matches the format and names a real day a
      Timestamp can hold, otherwise NaT. */
  function ParseDMY(s: string): Option<Stamp> {
    var i := if |s| > 1 && s[1] == '-' then 1 else 2;
    if |s| < i + 1 || s[i] != '-' then None
    else
      var rest := s[i + 1..];
      var j := if |rest| > 1 && rest[1] == '-' then 1 else 2;
      if |rest| < j + 1 || rest[j] != '-' then None
      else
        var dd, mm, yyyy := s[..i], rest[..j], rest[j + 1..];
        if IsDayField(dd) && IsMonthField(mm) && IsYearField(yyyy) then
          var d := Date(YearValue(yyyy), FieldValue(mm), FieldValue(dd));
          if IsStampDay(d) then Some(d) else None
        else None
  }

  /** The parse accepts exactly the texts that spell a Timestamp day in the
      format, and yields that day. */
  lemma ParseDMYCharacterised(s: string, d: Date)
    ensures ParseDMY(s) == Some(d) <==> Spells(s, d) && IsStampDay(d)
  {
    var i := if |s| > 1 && s[1] == '-' then 1 else 2;
    if ParseDMY(s) == Some(d) {
      var rest := s[i + 1..];
      var j := if |rest| > 1 && rest[1] == '-' then 1 else 2;
      assert rest[..j] == s[i + 1..i + 1 + j];
      assert rest[j + 1..] == s[i + j + 2..];
      assert SpelledWith(s, i, j, d);
    }
    if Spells(s, d) && IsStampDay(d) {
      if SpelledWith(s, 1, 1, d) {
        ParseSpelled(s, 1, 1, d);
      } else if SpelledWith(s, 1, 2, d) {
        ParseSpelled(s, 1, 2, d);
      } else if SpelledWith(s, 2, 1, d) {
        ParseSpelled(s, 2, 1, d);
      } else {
        ParseSpelled(s, 2, 2, d);
      }
    }
  }

  lemma ParseSpelled(s: string, dl: nat, ml: nat, d: Date)
    requires 1 <= dl <= 2 && 1 <= ml <= 2
    requires SpelledWith(s, dl, ml, d) && IsStampDay(d)
    ensures ParseDMY(s) == Some(d)
  {
    var day := s[..dl];
    assert dl == 2 ==> day[1] == s[1] && IsDigit(day[1]);
    var i := if |s| > 1 && s[1] == '-' then 1 else 2;
    assert i == dl;
    var rest := s[i + 1..];
    var month := s[dl + 1..dl + 1 + ml];
    assert ml == 2 ==> month[1] == rest[1] && IsDigit(month[1]);
    assert rest[..ml] == month;
    assert rest[ml + 1..] == s[dl + ml + 2..];
  }

  function Digit2(n: nat): (s: string)
    requires n < 100
    ensures |s| == 2 && AllDigits(s) && 10 * DigitValue(s[0]) + DigitValue(s[1]) == n
  {
    [DigitChar(n / 10), DigitChar(n % 10)]
  }

  function Digit4(n: nat): (s: string)
    requires n < 10000
    ensures IsYearField(s) && YearValue(s) == n
  {
    var s := Digit2(n / 100) + Digit2(n % 100);
    assert YearValue(s) == 100 * (n / 100) + n % 100;
    s
  }

  /** `d.strftime('%d-%m-%Y')`: the zero-padded form the raw registry files use. */
  function FormatDMY(d: Stamp): (s: string)
    ensures |s| == 10
  {
    Digit2(d.day) + "-" + Digit2(d.month) + "-" + Digit4(d.year)
  }

  /** Rendering a day as `DD-MM-YYYY` and parsing it back gives the same day. */
  lemma DMYRoundTrip(d: Stamp)
    ensures ParseDMY(FormatDMY(d)) == Some(d)
  {
    var s := FormatDMY(d);
    assert s[..2] == Digit2(d.day);
    assert s[3..5] == Digit2(d.month);
    assert s[6..] == Digit4(d.year);
    assert SpelledWith(s, 2, 2, d);
    ParseDMYCharacterised(s, d);
  }

  /** `d.strftime('%Y-%m-%d')`: four year digits, two month digits and two day
      digits, zero-padded and separated by dashes. */
  function FormatISO(d: Stamp): (s: string)
    ensures |s| == 10 && s[4] == '-' && s[7] == '-'
    ensures IsYearField(s[..4]) && YearValue(s[..4]) == d.year
    ensures IsDigit(s[5]) && IsDigit(s[6]) && 10 * DigitValue(s[5]) + DigitValue(s[6]) == d.month
    ensures IsDigit(s[8]) && IsDigit(s[9]) && 10 * DigitValue(s[8]) + DigitValue(s[9]) == d.day
  {
    var y, m, dd := Digit4(d.year), Digit2(d.month), Digit2(d.day);
    var s := y + "-" + m + "-" + dd;
    assert s[..4] == y;
    assert s[5] == m[0] && s[6] == m[1] && s[8] == dd[0] && s[9] == dd[1];
    s
  }

  /** Different days never render alike: the ISO text determines the day. */
  lemma FormatISOInjective(a: Stamp, b: Stamp)
    requires FormatISO(a) == FormatISO(b)
    ensures a == b
  {
  }

  // ------------------------------------------------- cells read back from CSV

  /** A date cell of a CSV file written by an earlier stage, as the
      format-inferring `pd.to_datetime` sees it: empty, a text it reads as a
      day, or a text it cannot read. */
  datatype DateText = Blank | Readable(stamp: Stamp) | Unreadable(text: string)

  /** `pd.to_datetime(cell, errors='coerce')`: unreadable text becomes NaT. */
  function Coerce(c: DateText): (r: Option<Stamp>)
    ensures r.Some? <==> c.Readable?
    ensures c.Readable? ==> r.value == c.stamp
  {
    match c
    case Blank => None
    case Readable(d) => Some(d)
    case Unreadable(_) => None
  }

  /** `pd.to_datetime(cell)` without `errors`: unreadable text raises. */
  function Convert(c: DateText): (r: Result<Option<Stamp>, string>)
    ensures r.Err? <==> c.Unreadable?
    ensures r.Ok? ==> r.value == Coerce(c)
  {
    match c
    case Blank => Ok(None)
    case Readable(d) => Ok(Some(d))
    case Unreadable(t) => Err(t)
  }

  // -------------------------------------------- strict day-month-year columns

  /** A date column cell before and after `pd.to_datetime(col, format='%d-%m-%Y',
      errors='coerce')`. */
  datatype DateField = RawDate(text: Option<string>) | ParsedDate(date: Option<Stamp>)

  /** The conversion of one cell: null stays null, text that is not exactly a
      `%d-%m-%Y` spelling of a representable day becomes NaT, and a cell that
      already holds a date is left as it is. */
  function CoerceDMY(f: DateField): (r: DateField)
    ensures r.ParsedDate?
    ensures f.RawDate? && f.text.Some? ==>
      forall d: Date :: r.date == Some(d) <==> Spells(f.text.value, d) && IsStampDay(d)
    ensures f.RawDate? && f.text.None? ==> r.date.None?
    ensures f.ParsedDate? ==> r == f
  {
    match f
    case ParsedDate(_) => f
    case RawDate(t) =>
      if t.None? then ParsedDate(None)
      else
        assert forall d: Date :: ParseDMY(t.value) == Some(d) <==> Spells(t.value, d) && IsStampDay(d) by {
          forall d: Date ensures ParseDMY(t.value) == Some(d) <==> Spells(t.value, d) && IsStampDay(d) {
            ParseDMYCharacterised(t.value, d);
          }
        }
        ParsedDate(ParseDMY(t.value))
  }

  /** Converting a column twice changes nothing the second time. */
  lemma CoerceDMYIdempotent(f: DateField)
    ensures CoerceDMY(CoerceDMY(f)) == CoerceDMY(f)
  {
  }

  /** A day written as `DD-MM-YYYY` is read back as that day. */
  lemma CoerceDMYRoundTrip(d: Stamp)
    ensures CoerceDMY(RawDate(Some(FormatDMY(d)))) == ParsedDate(Some(d))
  {
    DMYRoundTrip(d);
  }
}
