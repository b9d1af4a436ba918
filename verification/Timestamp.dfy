/** Instants, their civil (proleptic Gregorian) fields and the RFC 3339 text
    that every timestamp column holds. Instants count nanoseconds from the
    start of year 0, so arithmetic on them is plain integer arithmetic. */
module Timestamp {
  import opened Sequences
  import opened Text

  const NANOS_PER_SECOND: nat := 1_000_000_000
  const SECONDS_PER_DAY: nat := 86_400

  datatype Civil = Civil(year: nat, month: nat, day: nat, hour: nat, minute: nat, second: nat, nano: nat)

  predicate IsLeap(y: nat) {
    y % 4 == 0 && (y % 100 != 0 || y % 400 == 0)
  }

  function DaysInYear(y: nat): nat {
    if IsLeap(y) then 366 else 365
  }

  function DaysInMonth(y: nat, m: nat): nat {
    if m == 2 then (if IsLeap(y) then 29 else 28)
    else if m == 4 || m == 6 || m == 9 || m == 11 then 30 else 31
  }

  /** The year that day `d`, counted from the start of year `y`, falls in, and
      the day's offset within it. */
  function YearAndDay(d: nat, y: nat): (r: (nat, nat))
    ensures y <= r.0 && r.1 < DaysInYear(r.0)
  {
    if d < DaysInYear(y) then (y, d) else YearAndDay(d - DaysInYear(y), y + 1)
  }

  function MonthAndDay(d: nat, y: nat, m: nat): (nat, nat)
    requires m <= 12
    decreases 12 - m
  {
    if m == 12 || d < DaysInMonth(y, m) then (m, d) else MonthAndDay(d - DaysInMonth(y, m), y, m + 1)
  }

  function CivilOf(t: nat): Civil {
    var seconds := t / NANOS_PER_SECOND;
    var (year, yearDay) := YearAndDay(seconds / SECONDS_PER_DAY, 0);
    var (month, day) := MonthAndDay(yearDay, year, 1);
    var s := seconds % SECONDS_PER_DAY;
    Civil(year, month, day + 1, s / 3600, s / 60 % 60, s % 60, t % NANOS_PER_SECOND)
  }

  function YearOf(t: nat): nat {
    CivilOf(t).year
  }

  // ---------------------------------------------------------------------
  // Printing
  // ---------------------------------------------------------------------

  /** chrono prints no fraction, or 3, 6 or 9 digits: the fewest multiple of
      three that loses nothing. */
  function FractionDigits(nano: nat): (k: nat)
    ensures k == 0 || k == 3 || k == 6 || k == 9
  {
    if nano == 0 then 0 else if nano % 1_000_000 == 0 then 3 else if nano % 1_000 == 0 then 6 else 9
  }

  /** The first `k` of a nanosecond count's nine digits, as a number. */
  function TopDigits(nano: nat, k: nat): nat {
    if k == 3 then nano / 1_000_000 else if k == 6 then nano / 1_000 else nano
  }

  function Fraction(nano: nat): string {
    var k := FractionDigits(nano);
    if k == 0 then "" else "." + Pad(TopDigits(nano, k), k)
  }

  const UTC_SUFFIX: string := "+00:00"

  /** The fields of a timestamp in print order, each with its width and the
      character before it. */
  function PrintTime(c: Civil): string {
    "T" + (Pad(c.hour, 2) + (":" + (Pad(c.minute, 2) + (":" + (Pad(c.second, 2) + (Fraction(c.nano) + UTC_SUFFIX))))))
  }

  function PrintCivil(c: Civil): string {
    Pad(c.year, 4) + ("-" + (Pad(c.month, 2) + ("-" + (Pad(c.day, 2) + PrintTime(c)))))
  }

  /** `DateTime<Utc>::to_rfc3339`, for years of at most four digits. */
  function ToRfc3339(t: nat): string {
    PrintCivil(CivilOf(t))
  }

  /** `text` prints the instant, whose year has at most four digits. */
  predicate IsText(text: string, t: nat) {
    YearOf(t) <= 9999 && text == ToRfc3339(t)
  }

  // ---------------------------------------------------------------------
  // Civil fields grow with time
  // ---------------------------------------------------------------------

  /** The field order: year first, nanosecond last. */
  predicate CivilLess(a: Civil, b: Civil) {
    a.year < b.year || (a.year == b.year && (
    a.month < b.month || (a.month == b.month && (
    a.day < b.day || (a.day == b.day && TimeLess(a, b))))))
  }

  predicate TimeLess(a: Civil, b: Civil) {
    a.hour < b.hour || (a.hour == b.hour && (
    a.minute < b.minute || (a.minute == b.minute && (
    a.second < b.second || (a.second == b.second && a.nano < b.nano)))))
  }

  lemma {:induction false} YearsGrow(d: nat, e: nat, y: nat)
    requires d < e
    ensures
      var (yd, dd) := YearAndDay(d, y);
      var (ye, de) := YearAndDay(e, y);
      yd < ye || (yd == ye && dd < de)
  {
    if DaysInYear(y) <= d {
      YearsGrow(d - DaysInYear(y), e - DaysInYear(y), y + 1);
    }
  }

  lemma {:induction false} MonthsGrow(d: nat, e: nat, y: nat, m: nat)
    requires m <= 12 && d < e
    ensures
      var (md, dd) := MonthAndDay(d, y, m);
      var (me, de) := MonthAndDay(e, y, m);
      m <= md <= 12 && (md < me || (md == me && dd < de))
    decreases 12 - m
  {
    if m < 12 && DaysInMonth(y, m) <= d {
      MonthsGrow(d - DaysInMonth(y, m), e - DaysInMonth(y, m), y, m + 1);
    } else if m < 12 && DaysInMonth(y, m) <= e {
      MonthInRange(e - DaysInMonth(y, m), y, m + 1);
    }
  }

  lemma {:induction false} MonthInRange(d: nat, y: nat, m: nat)
    requires m <= 12
    ensures m <= MonthAndDay(d, y, m).0 <= 12 && MonthAndDay(d, y, m).1 <= d
    decreases 12 - m
  {
    if m < 12 && DaysInMonth(y, m) <= d {
      MonthInRange(d - DaysInMonth(y, m), y, m + 1);
    }
  }

  lemma CivilGrows(a: nat, b: nat)
    requires a < b
    ensures CivilLess(CivilOf(a), CivilOf(b))
  {
    var sa, sb := a / NANOS_PER_SECOND, b / NANOS_PER_SECOND;
    var da, db := sa / SECONDS_PER_DAY, sb / SECONDS_PER_DAY;
    if da < db {
      YearsGrow(da, db, 0);
      var (ya, oa) := YearAndDay(da, 0);
      var (yb, ob) := YearAndDay(db, 0);
      if ya == yb {
        MonthsGrow(oa, ob, ya, 1);
      }
    } else {
      var ta, tb := sa % SECONDS_PER_DAY, sb % SECONDS_PER_DAY;
      ClockGrows(ta, tb);
    }
  }

  lemma ClockGrows(s: nat, t: nat)
    requires s <= t
    ensures s / 3600 < t / 3600 || (s / 3600 == t / 3600 && (
            s / 60 % 60 < t / 60 % 60 || (s / 60 % 60 == t / 60 % 60 && s % 60 <= t % 60)))
    ensures s < t ==> s / 3600 != t / 3600 || s / 60 % 60 != t / 60 % 60 || s % 60 != t % 60
  {
    HourOfMinute(s);
    HourOfMinute(t);
    var m, n := s / 60, t / 60;
    assert s == 60 * m + s % 60 && t == 60 * n + t % 60;
    assert m == 60 * (m / 60) + m % 60 && n == 60 * (n / 60) + n % 60;
  }

  lemma HourOfMinute(s: nat)
    ensures s / 3600 == s / 60 / 60
  {
    var m := s / 60;
    var h := m / 60;
    assert s == 3600 * h + (60 * (m % 60) + s % 60);
  }

  /** Every field fits the width it is printed in, for years up to 9999. */
  predicate Printable(c: Civil) {
    c.year <= 9999 && c.month < 100 && c.day < 100 && c.hour < 100 && c.minute < 100 && c.second < 100 &&
    c.nano < NANOS_PER_SECOND
  }

  lemma CivilIsPrintable(t: nat)
    requires YearOf(t) <= 9999
    ensures Printable(CivilOf(t))
  {
    var days := t / NANOS_PER_SECOND / SECONDS_PER_DAY;
    var (year, yearDay) := YearAndDay(days, 0);
    MonthInRange(yearDay, year, 1);
    DayInRange(yearDay, year, 1);
  }

  /** The days left from month `m` to the end of the year. */
  function DaysFrom(y: nat, m: nat): nat
    requires m <= 12
    decreases 12 - m
  {
    DaysInMonth(y, m) + if m == 12 then 0 else DaysFrom(y, m + 1)
  }

  lemma {:induction false} DayInRange(d: nat, y: nat, m: nat)
    requires m <= 12 && d < DaysFrom(y, m)
    ensures MonthAndDay(d, y, m).1 < 31
    decreases 12 - m
  {
    if m < 12 && DaysInMonth(y, m) <= d {
      DayInRange(d - DaysInMonth(y, m), y, m + 1);
    }
  }

  // ---------------------------------------------------------------------
  // Text order
  // ---------------------------------------------------------------------

  /** A fixed-width field decides, and equal fields defer to what follows. */
  lemma FieldThenRest(m: nat, n: nat, w: nat, s: string, t: string)
    requires m < Pow10(w) && n < Pow10(w)
    ensures TextLess(Pad(m, w) + s, Pad(n, w) + t) <==> m < n || (m == n && TextLess(s, t))
  {
    if m < n {
      PadOrders(m, n, w, s, t);
    } else if n < m {
      PadOrders(n, m, w, t, s);
    } else {
      TextLessPrefix(Pad(m, w), s, t);
    }
  }

  /** The same after a separator character. */
  lemma SeparatedField(sep: string, m: nat, n: nat, w: nat, s: string, t: string)
    requires m < Pow10(w) && n < Pow10(w)
    ensures TextLess(sep + (Pad(m, w) + s), sep + (Pad(n, w) + t)) <==> m < n || (m == n && TextLess(s, t))
  {
    TextLessPrefix(sep, Pad(m, w) + s, Pad(n, w) + t);
    FieldThenRest(m, n, w, s, t);
  }

  /** The last three digits of a field split off. */
  lemma PadSplits(n: nat, w: nat)
    ensures Pad(n, w + 3) == Pad(n / 1_000, w) + Pad(n % 1_000, 3)
  {
    LastThreeDigits(n);
    PadThree(n, w);
    PadThree(n % 1_000, 0);
  }

  lemma PadThree(n: nat, w: nat)
    ensures Pad(n, w + 3) == Pad(n / 10 / 10 / 10, w) + [Digit(n / 10 / 10 % 10), Digit(n / 10 % 10), Digit(n % 10)]
  {
    assert Pad(n, w + 3) == Pad(n / 10, w + 2) + [Digit(n % 10)];
    assert Pad(n / 10, w + 2) == Pad(n / 10 / 10, w + 1) + [Digit(n / 10 % 10)];
  }

  lemma LastThreeDigits(n: nat)
    ensures
      var m := n % 1_000;
      n / 10 / 10 / 10 == n / 1_000 &&
      m % 10 == n % 10 && m / 10 % 10 == n / 10 % 10 && m / 10 / 10 % 10 == n / 10 / 10 % 10
  {
  }

  /** The text from the first `k` fraction digits on: either the offset, when
      `k` digits are all there are, or one more digit. */
  lemma FractionAt(nano: nat, k: nat) returns (rest: string)
    requires 0 < k <= FractionDigits(nano) && k % 3 == 0
    ensures Fraction(nano) + UTC_SUFFIX == "." + (Pad(TopDigits(nano, k), k) + rest)
    ensures k == FractionDigits(nano) ==> rest == UTC_SUFFIX
    ensures k < FractionDigits(nano) ==> rest != [] && IsDigit(rest[0])
  {
    var d := FractionDigits(nano);
    var tail := DigitsBeyond(nano, k, d);
    rest := tail + UTC_SUFFIX;
    Associate(".", Pad(TopDigits(nano, d), d), UTC_SUFFIX);
    Associate(Pad(TopDigits(nano, k), k), tail, UTC_SUFFIX);
  }

  lemma DigitsBeyond(nano: nat, k: nat, d: nat) returns (tail: string)
    requires k <= d && (k == 3 || k == 6 || k == 9) && (d == 3 || d == 6 || d == 9)
    ensures Pad(TopDigits(nano, d), d) == Pad(TopDigits(nano, k), k) + tail
    ensures |tail| == d - k && AllDigits(tail)
  {
    if k == d {
      tail := "";
    } else if d == 6 {
      tail := MicrosBeyondMillis(nano);
    } else if k == 6 {
      tail := Pad(nano % 1_000, 3);
      PadSplits(nano, 6);
    } else {
      tail := AllDigitsBeyondMillis(nano);
    }
  }

  lemma MicrosBeyondMillis(nano: nat) returns (tail: string)
    ensures Pad(nano / 1_000, 6) == Pad(nano / 1_000_000, 3) + tail && |tail| == 3 && AllDigits(tail)
  {
    tail := Pad(nano / 1_000 % 1_000, 3);
    MillisOfNanos(nano);
    PadSplits(nano / 1_000, 3);
  }

  lemma AllDigitsBeyondMillis(nano: nat) returns (tail: string)
    ensures Pad(nano, 9) == Pad(nano / 1_000_000, 3) + tail && |tail| == 6 && AllDigits(tail)
  {
    var mid := MicrosBeyondMillis(nano);
    var low := Pad(nano % 1_000, 3);
    PadSplits(nano, 6);
    tail := mid + low;
    Associate(Pad(nano / 1_000_000, 3), mid, low);
  }

  lemma MillisOfNanos(nano: nat)
    ensures nano / 1_000 / 1_000 == nano / 1_000_000
  {
  }

  lemma PowersOfTen()
    ensures Pow10(2) == 100 && Pow10(3) == 1_000 && Pow10(4) == 10_000
    ensures Pow10(6) == 1_000_000 && Pow10(9) == 1_000_000_000
  {
  }

  /** Equal leading digits and more digits after them: the longer fraction is
      later, because the shorter one continues with zeros. */
  lemma LongerIsLater(m: nat, n: nat, k: nat)
    requires m < NANOS_PER_SECOND && n < NANOS_PER_SECOND
    requires k == FractionDigits(m) < FractionDigits(n)
    requires k == 0 || TopDigits(m, k) == TopDigits(n, k)
    ensures m < n
  {
  }

  lemma SameFraction(m: nat, n: nat, k: nat)
    requires m < NANOS_PER_SECOND && n < NANOS_PER_SECOND
    requires k == FractionDigits(m) == FractionDigits(n)
    requires k == 0 || TopDigits(m, k) == TopDigits(n, k)
    ensures m == n
  {
  }

  lemma TopDigitsBound(m: nat, n: nat, k: nat)
    requires m < NANOS_PER_SECOND && n < NANOS_PER_SECOND && (k == 3 || k == 6 || k == 9)
    ensures TopDigits(m, k) < Pow10(k) && TopDigits(n, k) < Pow10(k)
    ensures TopDigits(m, k) < TopDigits(n, k) ==> m < n
  {
    PowersOfTen();
  }

  /** Fractions of different printed lengths, offset included, order as the
      nanoseconds do. */
  lemma FractionOrder(m: nat, n: nat)
    requires m < NANOS_PER_SECOND && n < NANOS_PER_SECOND
    ensures TextLess(Fraction(m) + UTC_SUFFIX, Fraction(n) + UTC_SUFFIX) <==> m < n
  {
    var dm, dn := FractionDigits(m), FractionDigits(n);
    var k := if dm < dn then dm else dn;
    if k == 0 {
      if dm == dn {
        assert m == 0 && n == 0;
        TextLessIrreflexive(Fraction(m) + UTC_SUFFIX);
      } else {
        assert Fraction(m) + UTC_SUFFIX != Fraction(n) + UTC_SUFFIX;
        assert (Fraction(m) + UTC_SUFFIX)[0] == if dm == 0 then '+' else '.';
        assert (Fraction(n) + UTC_SUFFIX)[0] == if dn == 0 then '+' else '.';
      }
    } else {
      var rm := FractionAt(m, k);
      var rn := FractionAt(n, k);
      TopDigitsBound(m, n, k);
      TopDigitsBound(n, m, k);
      SeparatedField(".", TopDigits(m, k), TopDigits(n, k), k, rm, rn);
      if TopDigits(m, k) == TopDigits(n, k) {
        if dm == dn {
          SameFraction(m, n, k);
          TextLessIrreflexive(UTC_SUFFIX);
        } else if dm < dn {
          LongerIsLater(m, n, k);
          assert rm[0] == '+';
        } else {
          LongerIsLater(n, m, k);
          assert rn[0] == '+';
        }
      }
    }
  }

  /** Printed field by field, the text order is the field order. */
  lemma TimeOrder(a: Civil, b: Civil)
    requires Printable(a) && Printable(b)
    ensures TextLess(PrintTime(a), PrintTime(b)) <==> TimeLess(a, b)
  {
    PowersOfTen();
    var fa, fb := Fraction(a.nano) + UTC_SUFFIX, Fraction(b.nano) + UTC_SUFFIX;
    var sa, sb := ":" + (Pad(a.second, 2) + fa), ":" + (Pad(b.second, 2) + fb);
    var ma, mb := ":" + (Pad(a.minute, 2) + sa), ":" + (Pad(b.minute, 2) + sb);
    FractionOrder(a.nano, b.nano);
    SeparatedField(":", a.second, b.second, 2, fa, fb);
    SeparatedField(":", a.minute, b.minute, 2, sa, sb);
    SeparatedField("T", a.hour, b.hour, 2, ma, mb);
  }

  lemma CivilOrder(a: Civil, b: Civil)
    requires Printable(a) && Printable(b)
    ensures TextLess(PrintCivil(a), PrintCivil(b)) <==> CivilLess(a, b)
  {
    PowersOfTen();
    var da, db := "-" + (Pad(a.day, 2) + PrintTime(a)), "-" + (Pad(b.day, 2) + PrintTime(b));
    var ma, mb := "-" + (Pad(a.month, 2) + da), "-" + (Pad(b.month, 2) + db);
    TimeOrder(a, b);
    SeparatedField("-", a.day, b.day, 2, PrintTime(a), PrintTime(b));
    SeparatedField("-", a.month, b.month, 2, da, db);
    FieldThenRest(a.year, b.year, 4, ma, mb);
  }

  /** The comparison SQL makes on timestamp columns is the comparison of the
      instants they hold, whatever fraction lengths the two were printed with. */
  lemma TextOrderIsTimeOrder(a: nat, b: nat)
    requires YearOf(a) <= 9999 && YearOf(b) <= 9999
    ensures TextLess(ToRfc3339(a), ToRfc3339(b)) <==> a < b
    ensures ToRfc3339(a) == ToRfc3339(b) <==> a == b
  {
    CivilIsPrintable(a);
    CivilIsPrintable(b);
    CivilOrder(CivilOf(a), CivilOf(b));
    if a < b {
      CivilGrows(a, b);
      TextLessIrreflexive(ToRfc3339(a));
    } else if b < a {
      CivilGrows(b, a);
      CivilOrder(CivilOf(b), CivilOf(a));
      TextLessIrreflexive(ToRfc3339(a));
    } else {
      TextLessIrreflexive(ToRfc3339(a));
    }
  }
}
