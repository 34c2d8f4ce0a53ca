/** Relative-date wording. The clock is left out: every formatter takes the
    difference `now - date` in whole milliseconds, and the created-date
    formatter also takes the locale rendering of the date. */
module DateUtils {
  import opened Wrappers
  import opened JsString

  const MinuteMs := 60000
  const HourMs := 3600000
  const DayMs := 86400000
  const MonthMs := 30 * DayMs
  const YearMs := 365 * DayMs

  datatype TimeUnits = TimeUnits(minutes: int, hours: int, days: int, months: int, years: int)

  /** `Math.floor(diffMs / unit)` for each unit (Dafny's division rounds
      down for a positive divisor). */
  function TimeDifferences(diffMs: int): (t: TimeUnits)
    ensures t.minutes * MinuteMs <= diffMs < (t.minutes + 1) * MinuteMs
    ensures t.hours * HourMs <= diffMs < (t.hours + 1) * HourMs
    ensures t.days * DayMs <= diffMs < (t.days + 1) * DayMs
    ensures t.months * MonthMs <= diffMs < (t.months + 1) * MonthMs
    ensures t.years * YearMs <= diffMs < (t.years + 1) * YearMs
  {
    TimeUnits(diffMs / MinuteMs, diffMs / HourMs, diffMs / DayMs, diffMs / MonthMs, diffMs / YearMs)
  }

  /** `formatPlural`: the singular exactly for a count of one, else the
      given plural when it is non-empty, else the singular with an `s`. */
  function FormatPlural(count: int, singular: string, plural: Option<string>): (r: string)
    ensures count == 1 ==> r == singular
    ensures count != 1 && plural.Some? && plural.value != "" ==> r == plural.value
    ensures count != 1 && (plural.None? || plural.value == "") ==> r == singular + "s"
  {
    if count == 1 then singular
    else if plural.Some? && plural.value != "" then plural.value
    else singular + "s"
  }

  datatype Unit = Minute | Hour | Day | Month | Year

  function UnitName(u: Unit): string {
    match u
    case Minute => "minute"
    case Hour => "hour"
    case Day => "day"
    case Month => "month"
    case Year => "year"
  }

  function CountOf(t: TimeUnits, u: Unit): int {
    match u
    case Minute => t.minutes
    case Hour => t.hours
    case Day => t.days
    case Month => t.months
    case Year => t.years
  }

  // formatCreatedDate

  /** The unit `formatCreatedDate` counts in; `None` for the absolute date. */
  function CreatedUnit(t: TimeUnits): Option<Unit> {
    if t.hours < 24 then Some(Hour)
    else if t.days < 30 then Some(Day)
    else if t.months < 12 then Some(Month)
    else None
  }

  /** Which wording a difference gets, in terms of the difference itself. */
  lemma CreatedUnitRanges(diffMs: int)
    ensures var u := CreatedUnit(TimeDifferences(diffMs));
      (u == Some(Hour) <==> diffMs < 24 * HourMs)
      && (u == Some(Day) <==> 24 * HourMs <= diffMs < 30 * DayMs)
      && (u == Some(Month) <==> 30 * DayMs <= diffMs < 12 * MonthMs)
      && (u.None? <==> diffMs >= 12 * MonthMs)
  {
    var t := TimeDifferences(diffMs);
    assert t.hours < 24 <==> diffMs < 24 * HourMs;
    assert t.days < 30 <==> diffMs < 30 * DayMs;
    assert t.months < 12 <==> diffMs < 12 * MonthMs;
  }

  /** `formatCreatedDate`: hours under a day, days under 30 days, months
      under twelve 30-day months, then the locale date. */
  function FormatCreatedDate(diffMs: int, localeDate: string): (r: string)
    ensures diffMs < 24 * HourMs ==>
      r == "Created " + IntToString(diffMs / HourMs) + " " + FormatPlural(diffMs / HourMs, "hour", None) + " ago"
    ensures 24 * HourMs <= diffMs < 30 * DayMs ==>
      r == "Created " + IntToString(diffMs / DayMs) + " " + FormatPlural(diffMs / DayMs, "day", None) + " ago"
    ensures 30 * DayMs <= diffMs < 12 * MonthMs ==>
      r == "Created " + IntToString(diffMs / MonthMs) + " " + FormatPlural(diffMs / MonthMs, "month", None) + " ago"
    ensures diffMs >= 12 * MonthMs ==> r == "Created on " + localeDate
  {
    CreatedUnitRanges(diffMs);
    var t := TimeDifferences(diffMs);
    match CreatedUnit(t)
    case Some(u) => "Created " + IntToString(CountOf(t, u)) + " " + FormatPlural(CountOf(t, u), UnitName(u), None) + " ago"
    case None => "Created on " + localeDate
  }

  // formatUpdatedDate

  /** The shape of an "updated" wording. */
  datatype Phrase = FewMinutes | Single(unit: Unit) | Several(n: int, unit: Unit)

  function UnitOf(p: Phrase): Unit {
    if p.FewMinutes? then Minute else p.unit
  }

  function RenderUpdated(p: Phrase): string {
    match p
    case FewMinutes => "Last updated a few minutes ago"
    case Single(u) => "Last updated " + (if u == Hour then "an " else "a ") + UnitName(u) + " ago"
    case Several(n, u) => "Last updated " + IntToString(n) + " " + UnitName(u) + "s ago"
  }

  /** The bucket chain of `formatUpdatedDate` as written. */
  function UpdatedPhraseAsWritten(t: TimeUnits): (p: Phrase)
    ensures p == FewMinutes <==> t.minutes <= 1
    ensures UnitOf(p) == Minute <==> t.minutes < 60
    ensures p.Single? ==> CountOf(t, p.unit) == 1
    ensures p.Several? ==> p.n == CountOf(t, p.unit) && p.n != 1
  {
    if t.minutes < 60 then (if t.minutes <= 1 then FewMinutes else Several(t.minutes, Minute))
    else if t.hours < 24 then (if t.hours == 1 then Single(Hour) else Several(t.hours, Hour))
    else if t.days < 30 then (if t.days == 1 then Single(Day) else Several(t.days, Day))
    else if t.months < 12 then (if t.months == 1 then Single(Month) else Several(t.months, Month))
    else (if t.years == 1 then Single(Year) else Several(t.years, Year))
  }

  function FormatUpdatedDateAsWritten(diffMs: int): (r: string)
    ensures 12 * MonthMs <= diffMs < YearMs ==> r == "Last updated 0 years ago"
    ensures YearMs <= diffMs < 2 * YearMs ==> r == "Last updated a year ago"
  {
    var t := TimeDifferences(diffMs);
    assert diffMs >= 12 * MonthMs ==> t.minutes >= 60 && t.hours >= 24 && t.days >= 30 && t.months >= 12;
    assert 12 * MonthMs <= diffMs < YearMs ==> t.years == 0;
    assert YearMs <= diffMs < 2 * YearMs ==> t.years == 1;
    assert IntToString(0) == "0";
    RenderUpdated(UpdatedPhraseAsWritten(t))
  }

  /** Twelve 30-day months are 360 days, short of a 365-day year: a
      difference of 361 days reads "0 years ago". */
  lemma UpdatedZeroYears()
    ensures UpdatedPhraseAsWritten(TimeDifferences(361 * DayMs)) == Several(0, Year)
    ensures FormatUpdatedDateAsWritten(361 * DayMs) == "Last updated 0 years ago"
  {
    assert IntToString(0) == "0";
  }

  /** The bucket chain with the year bucket read as at least one year. */
  function UpdatedPhrase(t: TimeUnits): (p: Phrase)
    ensures p == FewMinutes <==> t.minutes <= 1
    ensures UnitOf(p) == Minute <==> t.minutes < 60
    ensures p.Single? ==> CountOf(t, p.unit) == 1 || (p.unit == Year && t.years < 1)
    ensures p.Several? ==> p.n == CountOf(t, p.unit) && p.n != 1
    ensures p.Several? && p.unit == Year ==> p.n >= 2
  {
    if t.minutes < 60 then (if t.minutes <= 1 then FewMinutes else Several(t.minutes, Minute))
    else if t.hours < 24 then (if t.hours == 1 then Single(Hour) else Several(t.hours, Hour))
    else if t.days < 30 then (if t.days == 1 then Single(Day) else Several(t.days, Day))
    else if t.months < 12 then (if t.months == 1 then Single(Month) else Several(t.months, Month))
    else (if t.years <= 1 then Single(Year) else Several(t.years, Year))
  }

  /** `formatUpdatedDate`. */
  function FormatUpdatedDate(diffMs: int): (r: string)
    ensures diffMs < 2 * MinuteMs ==> r == "Last updated a few minutes ago"
    ensures 12 * MonthMs <= diffMs < 2 * YearMs ==> r == "Last updated a year ago"
    ensures diffMs >= 2 * YearMs ==> r == "Last updated " + IntToString(diffMs / YearMs) + " years ago"
  {
    UpdatedPhraseAt(diffMs);
    RenderUpdated(UpdatedPhrase(TimeDifferences(diffMs)))
  }

  /** The phrase chosen under two minutes and from twelve months on. */
  lemma UpdatedPhraseAt(diffMs: int)
    ensures diffMs < 2 * MinuteMs ==> UpdatedPhrase(TimeDifferences(diffMs)) == FewMinutes
    ensures 12 * MonthMs <= diffMs < 2 * YearMs ==> UpdatedPhrase(TimeDifferences(diffMs)) == Single(Year)
    ensures diffMs >= 2 * YearMs ==> UpdatedPhrase(TimeDifferences(diffMs)) == Several(diffMs / YearMs, Year)
  {
    var t := TimeDifferences(diffMs);
    if diffMs < 2 * MinuteMs {
      assert t.minutes <= 1;
    } else if diffMs >= 12 * MonthMs {
      assert t.minutes >= 60 && t.hours >= 24 && t.days >= 30 && t.months >= 12;
      if diffMs < 2 * YearMs {
        assert t.years <= 1;
      } else {
        assert t.years >= 2;
      }
    }
  }

  /** Every counted wording counts at least two units. */
  lemma UpdatedCountsAtLeastTwo(diffMs: int)
    ensures UpdatedPhrase(TimeDifferences(diffMs)).Several? ==> UpdatedPhrase(TimeDifferences(diffMs)).n >= 2
  {
    var t := TimeDifferences(diffMs);
    if t.minutes >= 60 {
      assert t.hours >= 1;
      if t.hours >= 24 {
        assert t.days >= 1;
        if t.days >= 30 {
          assert t.months >= 1;
        }
      }
    }
  }

  /** The correction only changes the gap between 360 and 365 days. */
  lemma UpdatedAgreesOutsideGap(diffMs: int)
    requires diffMs < 12 * MonthMs || diffMs >= YearMs
    ensures UpdatedPhrase(TimeDifferences(diffMs)) == UpdatedPhraseAsWritten(TimeDifferences(diffMs))
  {
    var t := TimeDifferences(diffMs);
    if diffMs >= YearMs {
      assert t.years >= 1;
    } else {
      assert t.months < 12;
    }
  }

  /** Which bucket and wording a difference gets. */
  lemma UpdatedRanges(diffMs: int)
    ensures var p := UpdatedPhrase(TimeDifferences(diffMs));
      (p == FewMinutes <==> diffMs < 2 * MinuteMs)
      && (UnitOf(p) == Minute <==> diffMs < 60 * MinuteMs)
      && (UnitOf(p) == Hour <==> 60 * MinuteMs <= diffMs < 24 * HourMs)
      && (UnitOf(p) == Day <==> 24 * HourMs <= diffMs < 30 * DayMs)
      && (UnitOf(p) == Month <==> 30 * DayMs <= diffMs < 12 * MonthMs)
      && (UnitOf(p) == Year <==> diffMs >= 12 * MonthMs)
      && (p == Single(Hour) <==> HourMs <= diffMs < 2 * HourMs)
      && (p == Single(Day) <==> DayMs <= diffMs < 2 * DayMs)
      && (p == Single(Month) <==> MonthMs <= diffMs < 2 * MonthMs)
  {
    var t := TimeDifferences(diffMs);
    assert t.minutes < 60 <==> diffMs < 60 * MinuteMs;
    assert t.minutes <= 1 <==> diffMs < 2 * MinuteMs;
    assert t.hours < 24 <==> diffMs < 24 * HourMs;
    assert t.hours == 1 <==> HourMs <= diffMs < 2 * HourMs;
    assert t.days < 30 <==> diffMs < 30 * DayMs;
    assert t.days == 1 <==> DayMs <= diffMs < 2 * DayMs;
    assert t.months < 12 <==> diffMs < 12 * MonthMs;
    assert t.months == 1 <==> MonthMs <= diffMs < 2 * MonthMs;
  }

  // formatSimpleCreatedDate

  /** `formatSimpleCreatedDate`: "an hour" covers everything under two
      hours, "a day" exactly the second day. */
  function FormatSimpleCreatedDate(diffMs: int): (r: string)
    ensures diffMs < 2 * HourMs ==> r == "Created an hour ago"
    ensures DayMs <= diffMs < 2 * DayMs ==> r == "Created a day ago"
    ensures 2 * HourMs <= diffMs < 24 * HourMs ==> r == "Created " + IntToString(diffMs / HourMs) + " hours ago"
    ensures diffMs >= 2 * DayMs ==> r == "Created " + IntToString(diffMs / DayMs) + " days ago"
  {
    var t := TimeDifferences(diffMs);
    assert t.hours < 24 <==> diffMs < 24 * HourMs;
    assert t.hours <= 1 <==> diffMs < 2 * HourMs;
    assert t.days == 1 <==> DayMs <= diffMs < 2 * DayMs;
    if t.hours < 24 then (if t.hours <= 1 then "Created an hour ago" else "Created " + IntToString(t.hours) + " hours ago")
    else (if t.days == 1 then "Created a day ago" else "Created " + IntToString(t.days) + " days ago")
  }

  // formatRelativeDate

  datatype DateFormatType = Created | Updated

  /** `formatRelativeDate`: `updated` unless `created` is asked for. */
  function FormatRelativeDate(diffMs: int, kind: Option<DateFormatType>, localeDate: string): (r: string)
    ensures kind == Some(Created) ==> r == FormatCreatedDate(diffMs, localeDate)
    ensures kind != Some(Created) ==> r == FormatUpdatedDate(diffMs)
  {
    match kind.GetOr(Updated)
    case Created => FormatCreatedDate(diffMs, localeDate)
    case Updated => FormatUpdatedDate(diffMs)
  }
}
