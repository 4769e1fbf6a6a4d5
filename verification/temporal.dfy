/** The per-row temporal rules the two refine scripts share (their
    `determine_location_status`, `get_decade`, `calculate_operation_years` and
    the `operation_period` lambda are the same code in both files). */
module Temporal {
  import opened Common
  import opened Text
  import opened Dates

  datatype LocationStatus = Active | Closed | Unknown

  /** A facility whose end date is missing or lies after `now` is still operating. */
  predicate StillOperating(end: Option<Stamp>, now: Stamp) {
    end.None? || Before(now, end.value)
  }

  /** `determine_location_status`: both dates go through `pd.to_datetime`, which
      raises on text it cannot read; the bare `except` turns that into Unknown. */
  function DetermineLocationStatus(start: DateText, end: DateText, now: Stamp): (s: LocationStatus)
    ensures s == Unknown <==> start.Unreadable? || end.Unreadable?
    ensures s == Active <==> !start.Unreadable? && !end.Unreadable? && StillOperating(Coerce(end), now)
    ensures s == Closed <==> !start.Unreadable? && end.Readable? && !Before(now, end.stamp)
  {
    match Convert(start)
    case Err(_) => Unknown
    case Ok(_) =>
      match Convert(end)
      case Err(_) => Unknown
      case Ok(e) =>
        if e.None? then Active
        else if Before(now, e.value) then Active
        else Closed
  }

  /** The column value of an already converted date, as the status rule reads it. */
  function AsDateText(d: Option<Stamp>): (c: DateText)
    ensures !c.Unreadable? && Coerce(c) == d
  {
    if d.None? then Blank else Readable(d.value)
  }

  /** On converted date columns the status is never Unknown. */
  lemma ConvertedStatusKnown(start: Option<Stamp>, end: Option<Stamp>, now: Stamp)
    ensures DetermineLocationStatus(AsDateText(start), AsDateText(end), now) != Unknown
    ensures DetermineLocationStatus(AsDateText(start), AsDateText(end), now) == Active
        <==> StillOperating(end, now)
  {
  }

  /** `(year // 10) * 10`. */
  function DecadeOf(year: nat): (d: nat)
    ensures d % 10 == 0 && d <= year < d + 10
  {
    (year / 10) * 10
  }

  /** `get_decade`: None for NaT, otherwise `f"{decade}s"`. */
  function DecadeLabel(date: Option<Stamp>): (r: Option<string>)
    ensures r.None? <==> date.None?
    ensures r.Some? ==> |r.value| >= 2 && r.value[|r.value| - 1] == 's'
  {
    if date.None? then None else Some(NatToString(DecadeOf(date.value.year)) + "s")
  }

  /** The digits in front of the `s` name a multiple of ten within ten years
      at or before the date's year. */
  lemma DecadeLabelMeaning(date: Stamp)
    ensures var name := DecadeLabel(Some(date)).value;
      var digits := name[..|name| - 1];
      AllDigits(digits)
      && DecimalValue(digits) % 10 == 0
      && DecimalValue(digits) <= date.year < DecimalValue(digits) + 10
  {
    var name := DecadeLabel(Some(date)).value;
    assert name[..|name| - 1] == NatToString(DecadeOf(date.year));
    NatToStringRoundTrip(DecadeOf(date.year));
  }

  /** Two dates get the same label exactly when they fall in the same decade. */
  lemma DecadeLabelSameDecade(a: Stamp, b: Stamp)
    ensures DecadeLabel(Some(a)) == DecadeLabel(Some(b)) <==> a.year / 10 == b.year / 10
  {
    var la, lb := DecadeLabel(Some(a)).value, DecadeLabel(Some(b)).value;
    if la == lb {
      assert la[..|la| - 1] == NatToString(DecadeOf(a.year));
      assert lb[..|lb| - 1] == NatToString(DecadeOf(b.year));
      NatToStringRoundTrip(DecadeOf(a.year));
      NatToStringRoundTrip(DecadeOf(b.year));
    }
  }

  /** The end of operation: now while the end date is missing. */
  function EffectiveEnd(end: Option<Stamp>, now: Stamp): Stamp {
    if end.None? then now else end.value
  }

  /** The `(end_date - start_date).days` part of `calculate_operation_years`;
      None when the start date is NaT (NaT arithmetic gives NaN). */
  function OperationDays(start: Option<Stamp>, end: Option<Stamp>, now: Stamp): (r: Option<int>)
    ensures r.None? <==> start.None?
  {
    if start.None? then None
    else Some(DayNumber(EffectiveEnd(end, now)) - DayNumber(start.value))
  }

  /** With the start fixed, a later end gives strictly more days. */
  lemma OperationDaysMonotone(start: Stamp, e1: Stamp, e2: Stamp, now: Stamp)
    requires Before(e1, e2)
    ensures OperationDays(Some(start), Some(e1), now).value < OperationDays(Some(start), Some(e2), now).value
  {
    DayNumberOrder(e1, e2);
  }

  /** The day count is negative exactly when the effective end precedes the
      start: nothing in the code keeps it non-negative. */
  lemma OperationDaysSign(start: Stamp, end: Option<Stamp>, now: Stamp)
    ensures OperationDays(Some(start), end, now).value < 0 <==> Before(EffectiveEnd(end, now), start)
    ensures OperationDays(Some(start), end, now).value == 0 <==> EffectiveEnd(end, now) == start
  {
    DayNumberOrder(EffectiveEnd(end, now), start);
  }

  /** Scenario: opened 2000-01-01, still open on 2024-01-01: 8766 days. */
  lemma OperationDaysExample()
    ensures OperationDays(Some(Date(2000, 1, 1)), None, Date(2024, 1, 1)) == Some(8766)
  {
  }

  /** The `operation_period` lambda: `"<start> to <end>"` or `"<start> to Present"`
      with ISO dates; `NaT.strftime` raises, so a missing start is an error. */
  function OperationPeriod(start: Option<Stamp>, end: Option<Stamp>): (r: Result<string, string>)
    ensures r.Err? <==> start.None?
    ensures r.Ok? ==> |r.value| >= 14
    ensures r.Ok? ==> r.value[..10] == FormatISO(start.value) && r.value[10..14] == " to "
    ensures r.Ok? ==> (r.value[14..] == "Present" <==> end.None?)
    ensures r.Ok? && end.Some? ==> r.value[14..] == FormatISO(end.value)
  {
    if start.None? then Err("NaTType does not support strftime")
    else
      var s := FormatISO(start.value) + " to ";
      var e := if end.Some? then FormatISO(end.value) else "Present";
      assert (s + e)[14..] == e;
      Ok(s + e)
  }

  /** What assigning the `operation_period` column raises on a frame with no
      rows: `apply` calls the lambda once on an all-null probe row, where
      `strftime` raises, hands back the whole frame instead, and a frame of
      several columns cannot be stored in one column. */
  const EmptyPeriodError: string := "Cannot set a DataFrame with multiple columns to the single column operation_period"
}
