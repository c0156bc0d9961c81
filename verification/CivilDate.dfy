/** Calendar dates and log timestamps (src/access_log.rs). */
module CivilDate {
  datatype Date = Date(year: int, month: int, day: int)

  /** Days since the first of January 1970, as the program computes them. */
  function DaysFromCivil(d: Date): int
  {
    var year := d.year - if d.month <= 2 then 1 else 0;
    var era := year / 400;
    var yearOfEra := year - era * 400;
    var shiftedMonth := d.month + if d.month > 2 then -3 else 9;
    var dayOfYear := (153 * shiftedMonth + 2) / 5 + d.day - 1;
    var dayOfEra := yearOfEra * 365 + yearOfEra / 4 - yearOfEra / 100 + dayOfYear;
    era * 146_097 + dayOfEra - 719_468
  }

  // ----- the Gregorian calendar -----

  predicate Leap(year: int)
  {
    year % 4 == 0 && (year % 100 != 0 || year % 400 == 0)
  }

  function DaysIn(year: int, month: int): int
  {
    if month == 2 then (if Leap(year) then 29 else 28)
    else if month in {4, 6, 9, 11} then 30 else 31
  }

  predicate Valid(d: Date)
  {
    1 <= d.month <= 12 && 1 <= d.day <= DaysIn(d.year, d.month)
  }

  function NextDay(d: Date): Date
  {
    if d.day < DaysIn(d.year, d.month) then Date(d.year, d.month, d.day + 1)
    else if d.month < 12 then Date(d.year, d.month + 1, 1)
    else Date(d.year + 1, 1, 1)
  }

  function PreviousDay(d: Date): Date
  {
    if 1 < d.day then Date(d.year, d.month, d.day - 1)
    else if 1 < d.month then Date(d.year, d.month - 1, DaysIn(d.year, d.month - 1))
    else Date(d.year - 1, 12, 31)
  }

  predicate Before(a: Date, b: Date)
  {
    a.year < b.year || (a.year == b.year && (a.month < b.month || (a.month == b.month && a.day < b.day)))
  }

  // ----- year by year and month by month -----

  /** The days of a year before a month. */
  function DaysBefore(year: int, month: int): int
    requires 1 <= month <= 13
  {
    if month == 1 then 0 else DaysBefore(year, month - 1) + DaysIn(year, month - 1)
  }

  /** The leap days and year lengths up to a year starting in March. */
  function MarchStart(year: int): int
  {
    365 * year + year / 4 - year / 100 + year / 400 - 719_468
  }

  function YearStart(year: int): int
  {
    MarchStart(year - 1) + 306
  }

  lemma EraDivides(year: int)
    ensures var era := year / 400;
            var yearOfEra := year - era * 400;
            era * 146_097 + yearOfEra * 365 + yearOfEra / 4 - yearOfEra / 100 - 719_468 == MarchStart(year)
  {
    var era := year / 400;
    var yearOfEra := year - era * 400;
    assert year / 4 == era * 100 + yearOfEra / 4;
    assert year / 100 == era * 4 + yearOfEra / 100;
  }

  lemma NextMarch(year: int)
    ensures MarchStart(year) == MarchStart(year - 1) + 365 + if Leap(year) then 1 else 0
  {
    var y := year - 1;
    assert year / 4 == y / 4 + if year % 4 == 0 then 1 else 0;
    assert year / 100 == y / 100 + if year % 100 == 0 then 1 else 0;
    assert year / 400 == y / 400 + if year % 400 == 0 then 1 else 0;
  }

  lemma YearLength(year: int)
    ensures YearStart(year + 1) == YearStart(year) + DaysBefore(year, 13)
    ensures DaysBefore(year, 13) == if Leap(year) then 366 else 365
  {
    NextMarch(year);
    MonthStarts(year);
  }

  /** The month lengths added up, in numbers. */
  lemma MonthStarts(year: int)
    ensures var leap := if Leap(year) then 1 else 0;
            && DaysBefore(year, 1) == 0 && DaysBefore(year, 2) == 31 && DaysBefore(year, 3) == 59 + leap
            && DaysBefore(year, 4) == 90 + leap && DaysBefore(year, 5) == 120 + leap && DaysBefore(year, 6) == 151 + leap
            && DaysBefore(year, 7) == 181 + leap && DaysBefore(year, 8) == 212 + leap && DaysBefore(year, 9) == 243 + leap
            && DaysBefore(year, 10) == 273 + leap && DaysBefore(year, 11) == 304 + leap
            && DaysBefore(year, 12) == 334 + leap && DaysBefore(year, 13) == 365 + leap
  {
    assert DaysBefore(year, 4) == DaysBefore(year, 3) + 31;
    assert DaysBefore(year, 7) == DaysBefore(year, 6) + 30;
    assert DaysBefore(year, 10) == DaysBefore(year, 9) + 30;
    assert DaysBefore(year, 13) == DaysBefore(year, 12) + 31;
  }

  /** The formula without eras. */
  lemma MarchFormula(d: Date)
    ensures var early := if d.month <= 2 then 1 else 0;
            var shifted := d.month + 12 * early - 3;
            DaysFromCivil(d) == MarchStart(d.year - early) + (153 * shifted + 2) / 5 + d.day - 1
  {
    EraDivides(d.year - if d.month <= 2 then 1 else 0);
  }

  /** The program's formula counts the years, the months of the year and the days of the month. */
  lemma CountsTheCalendar(d: Date)
    requires 1 <= d.month <= 12
    ensures DaysFromCivil(d) == YearStart(d.year) + DaysBefore(d.year, d.month) + d.day - 1
  {
    MarchFormula(d);
    MonthStarts(d.year);
    NextMarch(d.year);
  }

  // ----- one more every day -----

  lemma EpochIsZero()
    ensures DaysFromCivil(Date(1970, 1, 1)) == 0
  {
  }

  /** The next calendar day is one more. */
  lemma NextDayIsOneMore(d: Date)
    requires Valid(d)
    ensures Valid(NextDay(d)) && DaysFromCivil(NextDay(d)) == DaysFromCivil(d) + 1
  {
    CountsTheCalendar(d);
    CountsTheCalendar(NextDay(d));
    if d.month == 12 { YearLength(d.year); }
  }

  lemma PreviousDayIsOneLess(d: Date)
    requires Valid(d)
    ensures Valid(PreviousDay(d)) && DaysFromCivil(PreviousDay(d)) == DaysFromCivil(d) - 1
  {
    assert NextDay(PreviousDay(d)) == d;
    NextDayIsOneMore(PreviousDay(d));
  }

  lemma {:induction false} YearsIncrease(a: int, b: int)
    requires a < b
    ensures YearStart(a) + DaysBefore(a, 13) <= YearStart(b)
    decreases b - a
  {
    YearLength(a);
    if a + 1 < b {
      YearsIncrease(a + 1, b);
      YearLength(a + 1);
    }
  }

  lemma {:induction false} MonthsIncrease(year: int, a: int, b: int)
    requires 1 <= a < b <= 13
    ensures DaysBefore(year, a) + DaysIn(year, a) <= DaysBefore(year, b)
    decreases b - a
  {
    if a + 1 < b { MonthsIncrease(year, a, b - 1); }
  }

  lemma DayOfYearFits(d: Date)
    requires Valid(d)
    ensures 0 <= DaysBefore(d.year, d.month) + d.day - 1 < DaysBefore(d.year, 13)
  {
    MonthStarts(d.year);
    MonthsIncrease(d.year, d.month, 13);
  }

  lemma EarlierIsLess(a: Date, b: Date)
    requires Valid(a) && Valid(b) && Before(a, b)
    ensures DaysFromCivil(a) < DaysFromCivil(b)
  {
    CountsTheCalendar(a);
    CountsTheCalendar(b);
    DayOfYearFits(a);
    DayOfYearFits(b);
    if a.year < b.year {
      YearsIncrease(a.year, b.year);
    } else if a.month < b.month {
      MonthsIncrease(a.year, a.month, b.month);
    }
  }

  /** Strictly increasing over all valid dates of all years, so no two dates share a number. */
  lemma StrictlyMonotone(a: Date, b: Date)
    requires Valid(a) && Valid(b)
    ensures Before(a, b) <==> DaysFromCivil(a) < DaysFromCivil(b)
    ensures a == b <==> DaysFromCivil(a) == DaysFromCivil(b)
  {
    if Before(a, b) { EarlierIsLess(a, b); }
    if Before(b, a) { EarlierIsLess(b, a); }
  }

  /** Every integer is the number of exactly one valid date. */
  lemma {:induction false} EveryNumberIsADate(n: int) returns (d: Date)
    ensures Valid(d) && DaysFromCivil(d) == n
    ensures forall other: Date :: Valid(other) && DaysFromCivil(other) == n ==> other == d
    decreases if n < 0 then -n else n
  {
    if n == 0 {
      d := Date(1970, 1, 1);
    } else if 0 < n {
      var e := EveryNumberIsADate(n - 1);
      NextDayIsOneMore(e);
      d := NextDay(e);
    } else {
      var e := EveryNumberIsADate(n + 1);
      PreviousDayIsOneLess(e);
      d := PreviousDay(e);
    }
    OnlyDate(d);
  }

  lemma OnlyDate(d: Date)
    requires Valid(d)
    ensures forall other: Date :: Valid(other) && DaysFromCivil(other) == DaysFromCivil(d) ==> other == d
  {
    forall other: Date | Valid(other) && DaysFromCivil(other) == DaysFromCivil(d) ensures other == d {
      StrictlyMonotone(other, d);
    }
  }

  // ----- timestamps -----

  /** A reading of the log's clock, and its offset from universal time, as the numbers of the log line. */
  datatype Reading = Reading(date: Date, hour: int, minute: int, second: int, micros: int)

  datatype Offset = Offset(ahead: bool, hours: int, minutes: int)

  /** What the log reader checks: all numbers but the fraction only from above, and the day also against zero. */
  predicate Accepted(r: Reading)
  {
    && 1 <= r.date.month <= 12 && r.date.day != 0 && r.date.day <= 31
    && r.hour <= 23 && r.minute <= 59 && r.second <= 60 && 0 <= r.micros < 1_000_000
  }

  /** A date and a time of day that exist. */
  predicate Existing(r: Reading)
  {
    && Valid(r.date) && 0 <= r.hour <= 23 && 0 <= r.minute <= 59 && 0 <= r.second <= 59 && 0 <= r.micros < 1_000_000
  }

  function OffsetSeconds(o: Offset): int
  {
    (if o.ahead then 1 else -1) * (o.hours * 3_600 + o.minutes * 60)
  }

  function LocalSeconds(r: Reading): int
  {
    DaysFromCivil(r.date) * 86_400 + r.hour * 3_600 + r.minute * 60 + r.second
  }

  /** Microseconds since the epoch. */
  function Timestamp(r: Reading, o: Offset): int
  {
    (LocalSeconds(r) - OffsetSeconds(o)) * 1_000_000 + r.micros
  }

  predicate Sooner(a: Reading, b: Reading)
  {
    Before(a.date, b.date) ||
    (a.date == b.date &&
      (a.hour < b.hour || (a.hour == b.hour &&
        (a.minute < b.minute || (a.minute == b.minute &&
          (a.second < b.second || (a.second == b.second && a.micros < b.micros)))))))
  }

  /** How far a clock is ahead of the common one, in minutes. */
  function East(o: Offset): int
  {
    if o.ahead then 60 * o.hours + o.minutes else -(60 * o.hours + o.minutes)
  }

  /** The minutes that a clock shows since the epoch. */
  function MinutesShown(r: Reading): int
  {
    (DaysFromCivil(r.date) * 24 + r.hour) * 60 + r.minute
  }

  /** Existing readings at any two offsets have the same timestamp exactly when they show the same instant. */
  lemma SameInstant(a: Reading, o: Offset, b: Reading, p: Offset)
    requires Existing(a) && Existing(b)
    ensures Timestamp(a, o) == Timestamp(b, p) <==>
            MinutesShown(a) - East(o) == MinutesShown(b) - East(p) && a.second == b.second && a.micros == b.micros
    ensures MinutesShown(a) - East(o) < MinutesShown(b) - East(p) ==> Timestamp(a, o) < Timestamp(b, p)
  {
    assert LocalSeconds(a) - OffsetSeconds(o) == (MinutesShown(a) - East(o)) * 60 + a.second;
    assert LocalSeconds(b) - OffsetSeconds(p) == (MinutesShown(b) - East(p)) * 60 + b.second;
  }

  /** A microsecond later is one more. */
  lemma NextMicrosecond(r: Reading, o: Offset)
    ensures Timestamp(r.(micros := r.micros + 1), o) == Timestamp(r, o) + 1
  {
  }

  /** Timestamps count from the midnight that starts day zero. */
  lemma FromDayZero(r: Reading, o: Offset)
    requires DaysFromCivil(r.date) == 0 && r.hour == 0 && r.minute == 0 && r.second == 0 && r.micros == 0
    requires o.hours == 0 && o.minutes == 0
    ensures Timestamp(r, o) == 0
  {
  }

  /** At one offset, readings that exist are ordered as their timestamps, and no two of them share one. */
  lemma TimestampsFollowTheClock(a: Reading, b: Reading, o: Offset)
    requires Existing(a) && Existing(b)
    ensures Sooner(a, b) <==> Timestamp(a, o) < Timestamp(b, o)
    ensures a == b <==> Timestamp(a, o) == Timestamp(b, o)
  {
    StrictlyMonotone(a.date, b.date);
  }

  /** Seconds as days, hours, minutes and seconds. */
  lemma TimeOfDay(seconds: int) returns (days: int, hour: int, minute: int, second: int)
    ensures seconds == days * 86_400 + hour * 3_600 + minute * 60 + second
    ensures 0 <= hour <= 23 && 0 <= minute <= 59 && 0 <= second <= 59
  {
    days := seconds / 86_400;
    var rest := seconds % 86_400;
    hour, minute, second := rest / 3_600, rest % 3_600 / 60, rest % 60;
    assert rest % 3_600 == minute * 60 + second;
  }

  /** Every timestamp is that of exactly one reading that exists. */
  lemma EveryTimestampIsAReading(t: int, o: Offset) returns (r: Reading)
    ensures Existing(r) && Timestamp(r, o) == t
    ensures forall other: Reading :: Existing(other) && Timestamp(other, o) == t ==> other == r
  {
    var local, micros := t / 1_000_000 + OffsetSeconds(o), t % 1_000_000;
    var days, hour, minute, second := TimeOfDay(local);
    var date := EveryNumberIsADate(days);
    r := Reading(date, hour, minute, second, micros);
    assert LocalSeconds(r) == local;
    forall other: Reading | Existing(other) && Timestamp(other, o) == t ensures other == r {
      TimestampsFollowTheClock(other, r, o);
    }
  }

  /**
   * What the log reader does with an accepted reading: it takes it for the one existing reading with the same timestamp,
   * which is the reading itself exactly when its day is in its month and its clock shows no negative number and no second 60.
   */
  lemma AcceptedReadings(r: Reading, o: Offset) returns (taken: Reading)
    requires Accepted(r)
    ensures Existing(taken) && Timestamp(taken, o) == Timestamp(r, o)
    ensures forall other: Reading :: Existing(other) && Timestamp(other, o) == Timestamp(r, o) ==> other == taken
    ensures taken == r <==>
            1 <= r.date.day <= DaysIn(r.date.year, r.date.month) && 0 <= r.hour && 0 <= r.minute && 0 <= r.second <= 59
  {
    taken := EveryTimestampIsAReading(Timestamp(r, o), o);
  }

  /** A day past the end of its month runs on into the next month. */
  lemma LateDaysRunOn(year: int, month: int, day: int)
    requires 1 <= month < 12 && DaysIn(year, month) < day <= 31
    ensures DaysFromCivil(Date(year, month, day)) == DaysFromCivil(Date(year, month + 1, day - DaysIn(year, month)))
  {
    CountsTheCalendar(Date(year, month, day));
    CountsTheCalendar(Date(year, month + 1, day - DaysIn(year, month)));
  }

  /** Negative numbers are accepted too: day -5 of October 2000 at hour -3 is the evening of the 24th of September. */
  lemma NegativeReadingsRunBack(o: Offset)
    ensures var r := Reading(Date(2000, 10, -5), -3, 0, 0, 0);
            Accepted(r) && Timestamp(r, o) == Timestamp(Reading(Date(2000, 9, 24), 21, 0, 0, 0), o)
  {
    CountsTheCalendar(Date(2000, 10, -5));
    CountsTheCalendar(Date(2000, 9, 24));
  }
}
