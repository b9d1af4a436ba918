/** The dates that timestamps print, against the Gregorian calendar counted in closed
    form, and the text they are printed as. */
module Calendar {
  import opened Text
  import opened Timestamp

  /** Days before the first of January of a year, from year 0: every fourth year is
      longer by a day, but for centuries not divisible by 400. */
  function DaysBefore(year: nat): nat {
    365 * year + (year + 3) / 4 - (year + 99) / 100 + (year + 399) / 400
  }

  /** Days before the first of a month, in a year that is not a leap year. */
  const MONTHS: seq<nat> := [0, 31, 59, 90, 120, 151, 181, 212, 243, 273, 304, 334]

  /** Days of the year before the first of a month. */
  function MonthStart(year: nat, month: nat): nat
    requires 1 <= month <= 12
  {
    MONTHS[month - 1] + if month > 2 then DaysBefore(year + 1) - DaysBefore(year) - 365 else 0
  }

  lemma FourYears(y: nat)
    ensures (y + 4) / 4 == (y + 3) / 4 + if y % 4 == 0 then 1 else 0
  {
  }

  lemma Century(y: nat)
    ensures (y + 100) / 100 == (y + 99) / 100 + if y % 100 == 0 then 1 else 0
  {
  }

  lemma FourCenturies(y: nat)
    ensures (y + 400) / 400 == (y + 399) / 400 + if y % 400 == 0 then 1 else 0
  {
  }

  lemma Multiples(y: nat)
    ensures y % 400 == 0 ==> y % 100 == 0
    ensures y % 100 == 0 ==> y % 4 == 0
  {
    assert y % 400 == 0 ==> y == 100 * (4 * (y / 400));
    assert y % 100 == 0 ==> y == 4 * (25 * (y / 100));
  }

  lemma YearLength(year: nat)
    ensures DaysBefore(year + 1) == DaysBefore(year) + DaysInYear(year)
  {
    FourYears(year);
    Century(year);
    FourCenturies(year);
    Multiples(year);
  }

  lemma MonthLength(year: nat, month: nat)
    requires 1 <= month < 12
    ensures MonthStart(year, month + 1) == MonthStart(year, month) + DaysInMonth(year, month)
  {
    YearLength(year);
  }

  lemma {:induction false} YearIsRight(d: nat, y: nat)
    ensures var (year, day) := YearAndDay(d, y); DaysBefore(y) + d == DaysBefore(year) + day
  {
    if d >= DaysInYear(y) {
      YearLength(y);
      YearIsRight(d - DaysInYear(y), y + 1);
    }
  }

  lemma {:induction false} MonthIsRight(d: nat, y: nat, m: nat)
    requires 1 <= m <= 12 && MonthStart(y, m) + d < DaysInYear(y)
    ensures
      var (month, day) := MonthAndDay(d, y, m);
      m <= month <= 12 && MonthStart(y, m) + d == MonthStart(y, month) + day && day < DaysInMonth(y, month)
    decreases 12 - m
  {
    YearLength(y);
    if m < 12 && d >= DaysInMonth(y, m) {
      MonthLength(y, m);
      MonthIsRight(d - DaysInMonth(y, m), y, m + 1);
    }
  }

  /** A date and a time of day. */
  predicate IsDate(c: Civil) {
    1 <= c.month <= 12 && 1 <= c.day <= DaysInMonth(c.year, c.month) && c.hour < 24 && c.minute < 60 && c.second < 60 &&
    c.nano < 1_000_000_000
  }

  /** The seconds from the start of year 0 to a date. */
  function SecondsTo(c: Civil): int
    requires 1 <= c.month <= 12
  {
    (DaysBefore(c.year) + MonthStart(c.year, c.month) + c.day - 1) * 86_400 + c.hour * 3_600 + c.minute * 60 + c.second
  }

  lemma TimeIsRight(s: nat)
    requires s < 86_400
    ensures s / 3600 < 24 && s / 60 % 60 < 60 && s % 60 < 60
    ensures s == s / 3600 * 3600 + s / 60 % 60 * 60 + s % 60
  {
    HourOfMinute(s);
    var m := s / 60;
    assert s == 60 * m + s % 60 && m == 60 * (m / 60) + m % 60;
  }

  /** Day `days` from the start of year 0 is this one. */
  predicate IsDay(days: int, year: nat, month: nat, day: nat) {
    1 <= month <= 12 && 1 <= day <= DaysInMonth(year, month) &&
    DaysBefore(year) + MonthStart(year, month) + day - 1 == days
  }

  lemma FromTheStart(year: nat)
    ensures DaysBefore(0) == 0 && MonthStart(year, 1) == 0
  {
  }

  lemma DateIsRight(days: nat)
    ensures
      var (year, yearDay) := YearAndDay(days, 0);
      var (month, day) := MonthAndDay(yearDay, year, 1);
      IsDay(days, year, month, day + 1)
  {
    var r := YearAndDay(days, 0);
    assert DaysBefore(r.0) + r.1 == days by {
      YearIsRight(days, 0);
      FromTheStart(0);
    }
    var p := MonthAndDay(r.1, r.0, 1);
    assert 1 <= p.0 <= 12 && r.1 == MonthStart(r.0, p.0) + p.1 && p.1 < DaysInMonth(r.0, p.0) by {
      FromTheStart(r.0);
      MonthIsRight(r.1, r.0, 1);
    }
  }

  lemma DayOfFields(t: nat)
    ensures var c := CivilOf(t); IsDay(t / NANOS_PER_SECOND / SECONDS_PER_DAY, c.year, c.month, c.day)
  {
    DateIsRight(t / NANOS_PER_SECOND / SECONDS_PER_DAY);
  }

  lemma TimeOfFields(t: nat)
    ensures
      var c := CivilOf(t);
      c.hour < 24 && c.minute < 60 && c.second < 60 &&
      c.hour * 3_600 + c.minute * 60 + c.second == t / NANOS_PER_SECOND % SECONDS_PER_DAY &&
      c.nano == t % NANOS_PER_SECOND
  {
    TimeIsRight(t / NANOS_PER_SECOND % SECONDS_PER_DAY);
  }

  lemma Recompose(t: nat)
    ensures
      var seconds := t / 1_000_000_000;
      t == (seconds / 86_400 * 86_400 + seconds % 86_400) * 1_000_000_000 + t % 1_000_000_000
  {
  }

  /** The fields of an instant are a date of the calendar, and the instant is as many
      nanoseconds after the start of year 0 as that date. */
  lemma FieldsAreDate(t: nat)
    ensures IsDate(CivilOf(t))
    ensures t == SecondsTo(CivilOf(t)) * 1_000_000_000 + CivilOf(t).nano
  {
    DayOfFields(t);
    TimeOfFields(t);
    Recompose(t);
  }

  /** No fraction for whole seconds, three digits for whole milliseconds, six for whole
      microseconds, nine otherwise. */
  lemma FractionIs(nano: nat, k: nat)
    ensures nano == 0 ==> Fraction(nano) == ""
    ensures nano == 1_000_000 * k != 0 ==> Fraction(nano) == "." + Pad(k, 3)
    ensures nano == 1_000 * k && k % 1_000 != 0 ==> Fraction(nano) == "." + Pad(k, 6)
    ensures nano % 1_000 != 0 ==> Fraction(nano) == "." + Pad(nano, 9)
  {
    Millis(k);
    Micros(k);
    Nanos(nano);
  }

  lemma Millis(k: nat)
    ensures 1_000_000 * k % 1_000_000 == 0 && 1_000_000 * k / 1_000_000 == k
  {
  }

  lemma Micros(k: nat)
    ensures 1_000 * k / 1_000 == k && 1_000 * k % 1_000 == 0
    ensures k % 1_000 != 0 ==> 1_000 * k % 1_000_000 != 0
  {
    var q := 1_000 * k / 1_000_000;
    assert 1_000 * k % 1_000_000 == 0 ==> 1_000 * k == 1_000_000 * q;
  }

  lemma Nanos(nano: nat)
    ensures nano % 1_000 != 0 ==> nano % 1_000_000 != 0
  {
    if nano % 1_000_000 == 0 {
      Micros(1_000 * (nano / 1_000_000));
    }
  }

  lemma Flatten(a: string, x: string, b: string, y: string, c: string, rest: string)
    ensures a + (x + (b + (y + (c + rest)))) == a + x + b + y + c + rest
  {
  }

  lemma PrintsTime(c: Civil, time: string)
    requires time == Pad(c.hour, 2) + ":" + Pad(c.minute, 2) + ":" + Pad(c.second, 2)
    ensures PrintTime(c) == "T" + (time + (Fraction(c.nano) + "+00:00"))
  {
    Flatten(Pad(c.hour, 2), ":", Pad(c.minute, 2), ":", Pad(c.second, 2), Fraction(c.nano) + "+00:00");
  }

  /** How a date is printed: its fields in fixed widths, then the fraction. */
  lemma PrintsAs(c: Civil, date: string, time: string)
    requires date == Pad(c.year, 4) + "-" + Pad(c.month, 2) + "-" + Pad(c.day, 2)
    requires time == Pad(c.hour, 2) + ":" + Pad(c.minute, 2) + ":" + Pad(c.second, 2)
    ensures PrintCivil(c) == date + ("T" + (time + (Fraction(c.nano) + "+00:00")))
  {
    PrintsTime(c, time);
    Flatten(Pad(c.year, 4), "-", Pad(c.month, 2), "-", Pad(c.day, 2), PrintTime(c));
  }
}
