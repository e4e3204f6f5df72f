/**
 UTC timestamps with the fields of a Python `datetime`, their instant in microseconds, and the text
 `isoformat` gives them.  Comparing the texts as strings is comparing the instants.
 */
module UtcTime {
  import opened Ordering

  datatype Utc = Utc(year: int, month: int, day: int, hour: int, minute: int, second: int, micro: int)

  predicate IsLeap(year: int) {
    year % 4 == 0 && (year % 100 != 0 || year % 400 == 0)
  }

  function DaysInMonth(year: int, month: int): int {
    if month == 2 then (if IsLeap(year) then 29 else 28)
    else if month == 4 || month == 6 || month == 9 || month == 11 then 30
    else 31
  }

  predicate Valid(t: Utc) {
    && 1 <= t.year <= 9999 && 1 <= t.month <= 12 && 1 <= t.day <= DaysInMonth(t.year, t.month)
    && 0 <= t.hour < 24 && 0 <= t.minute < 60 && 0 <= t.second < 60 && 0 <= t.micro < 1_000_000
  }

  function DaysBeforeYear(year: int): int {
    var y := year - 1;
    y * 365 + y / 4 - y / 100 + y / 400
  }

  function DaysBeforeMonth(year: int, month: int): int
    decreases month
  {
    if month <= 1 then 0 else DaysBeforeMonth(year, month - 1) + DaysInMonth(year, month - 1)
  }

  function Day(t: Utc): int {
    DaysBeforeYear(t.year) + DaysBeforeMonth(t.year, t.month) + t.day
  }

  function MicroOfDay(t: Utc): int {
    ((t.hour * 60 + t.minute) * 60 + t.second) * 1_000_000 + t.micro
  }

  /** Microseconds since the start of year 1; what `datetime` subtraction measures. */
  function Instant(t: Utc): int {
    Day(t) * 86_400_000_000 + MicroOfDay(t)
  }

  /** The field-by-field order. */
  predicate Before(a: Utc, b: Utc) {
    a.year < b.year || (a.year == b.year && (
    a.month < b.month || (a.month == b.month && (
    a.day < b.day || (a.day == b.day && (
    a.hour < b.hour || (a.hour == b.hour && (
    a.minute < b.minute || (a.minute == b.minute && (
    a.second < b.second || (a.second == b.second && a.micro < b.micro)))))))))))
  }

  // ---- the fields and the instant agree ----

  lemma {:induction false} MonthsAdvance(year: int, m: int, n: int)
    requires 1 <= m < n <= 13
    ensures DaysBeforeMonth(year, m) + DaysInMonth(year, m) <= DaysBeforeMonth(year, n)
    decreases n
  {
    if m < n - 1 {
      MonthsAdvance(year, m, n - 1);
    }
  }

  lemma YearLength(year: int)
    requires 1 <= year
    ensures DaysBeforeMonth(year, 13) == if IsLeap(year) then 366 else 365
  {
    assert DaysBeforeMonth(year, 4) == DaysBeforeMonth(year, 3) + 31 == DaysBeforeMonth(year, 2) + DaysInMonth(year, 2) + 31;
    assert DaysBeforeMonth(year, 7) == DaysBeforeMonth(year, 6) + 30 == DaysBeforeMonth(year, 4) + 30 + 31 + 30;
    assert DaysBeforeMonth(year, 10) == DaysBeforeMonth(year, 9) + 30 == DaysBeforeMonth(year, 7) + 31 + 31 + 30;
    assert DaysBeforeMonth(year, 13) == DaysBeforeMonth(year, 12) + 31 == DaysBeforeMonth(year, 10) + 31 + 30 + 31;
  }

  lemma YearStep(year: int)
    requires 1 <= year
    ensures DaysBeforeYear(year + 1) == DaysBeforeYear(year) + DaysBeforeMonth(year, 13)
  {
    YearLength(year);
    var y := year - 1;
    assert (y + 1) / 4 == y / 4 + if (y + 1) % 4 == 0 then 1 else 0;
    assert (y + 1) / 100 == y / 100 + if (y + 1) % 100 == 0 then 1 else 0;
    assert (y + 1) / 400 == y / 400 + if (y + 1) % 400 == 0 then 1 else 0;
  }

  lemma {:induction false} YearsAdvance(a: int, b: int)
    requires 1 <= a < b
    ensures DaysBeforeYear(a) + DaysBeforeMonth(a, 13) <= DaysBeforeYear(b)
    decreases b
  {
    if a == b - 1 {
      YearStep(a);
    } else {
      YearsAdvance(a, b - 1);
      YearStep(b - 1);
      YearLength(b - 1);
    }
  }

  lemma EarlierDay(a: Utc, b: Utc)
    requires Valid(a) && Valid(b)
    requires a.year < b.year || (a.year == b.year && (a.month < b.month || (a.month == b.month && a.day < b.day)))
    ensures Day(a) < Day(b)
  {
    MonthsNonNegative(b.year, b.month);
    if a.year < b.year {
      YearsAdvance(a.year, b.year);
      MonthsAdvance(a.year, a.month, 13);
    } else if a.month < b.month {
      MonthsAdvance(a.year, a.month, b.month);
    }
  }

  lemma {:induction false} MonthsNonNegative(year: int, month: int)
    ensures DaysBeforeMonth(year, month) >= 0
    decreases month
  {
    if month > 1 {
      MonthsNonNegative(year, month - 1);
    }
  }

  lemma MicroInDay(a: Utc)
    requires Valid(a)
    ensures 0 <= MicroOfDay(a) < 86_400_000_000
  {
  }

  lemma BeforeImpliesEarlier(a: Utc, b: Utc)
    requires Valid(a) && Valid(b) && Before(a, b)
    ensures Instant(a) < Instant(b)
  {
    MicroInDay(a);
    MicroInDay(b);
    if a.year == b.year && a.month == b.month && a.day == b.day {
      assert MicroOfDay(a) < MicroOfDay(b);
    } else {
      EarlierDay(a, b);
    }
  }

  /** Earlier field by field is earlier in time. */
  lemma BeforeIffEarlier(a: Utc, b: Utc)
    requires Valid(a) && Valid(b)
    ensures Before(a, b) <==> Instant(a) < Instant(b)
    ensures Instant(a) == Instant(b) ==> a == b
  {
    if Before(a, b) {
      BeforeImpliesEarlier(a, b);
    } else if a != b {
      BeforeImpliesEarlier(b, a);
    }
  }

  // ---- the fields and the text agree ----

  function Digit(d: int): char
    requires 0 <= d < 10
  {
    (48 + d) as char
  }

  function Pow10(w: nat): nat {
    if w == 0 then 1 else 10 * Pow10(w - 1)
  }

  /** `n` in decimal, zero-padded to `w` digits. */
  function Digits(n: nat, w: nat): (s: string)
    ensures |s| == w
  {
    if w == 0 then "" else Digits(n / 10, w - 1) + [Digit(n % 10)]
  }

  function Iso(t: Utc): string
    requires Valid(t)
  {
    Digits(t.year, 4) + ("-" + (Digits(t.month, 2) + ("-" + (Digits(t.day, 2) + ("T" + IsoClock(t))))))
  }

  function IsoClock(t: Utc): string
    requires Valid(t)
  {
    Digits(t.hour, 2) + (":" + (Digits(t.minute, 2) + (":" + (Digits(t.second, 2) + IsoFraction(t.micro)))))
  }

  /** The fraction is written only when it is not zero. */
  function IsoFraction(micro: nat): string {
    if micro == 0 then "+00:00" else "." + (Digits(micro, 6) + "+00:00")
  }

  lemma LastDigit(x: int, y: int)
    requires 0 <= x < 10 && 0 <= y < 10
    ensures Less([Digit(x)], [Digit(y)]) <==> x < y
    ensures Digit(x) == Digit(y) <==> x == y
  {
    LessIrreflexive([]);
  }

  lemma {:induction false} DigitsOrder(a: nat, b: nat, w: nat)
    requires a < Pow10(w) && b < Pow10(w)
    ensures Less(Digits(a, w), Digits(b, w)) <==> a < b
    ensures Digits(a, w) == Digits(b, w) <==> a == b
  {
    if w == 0 {
      LessIrreflexive("");
    } else {
      DigitsOrder(a / 10, b / 10, w - 1);
      LastDigit(a % 10, b % 10);
      var p, q := Digits(a / 10, w - 1), Digits(b / 10, w - 1);
      if p == q {
        LessAfterPrefix(p, [Digit(a % 10)], [Digit(b % 10)]);
        assert Digits(a, w)[w - 1] == Digit(a % 10) && Digits(b, w)[w - 1] == Digit(b % 10);
      } else {
        LessByPrefix(p, q, [Digit(a % 10)], [Digit(b % 10)]);
        assert Digits(a, w)[..w - 1] == p && Digits(b, w)[..w - 1] == q;
      }
    }
  }

  /** A fixed-width number, then the rest. */
  lemma FieldOrder(x: nat, y: nat, w: nat, a: string, b: string)
    requires x < Pow10(w) && y < Pow10(w)
    ensures Less(Digits(x, w) + a, Digits(y, w) + b) <==> x < y || (x == y && Less(a, b))
  {
    DigitsOrder(x, y, w);
    if x == y {
      LessAfterPrefix(Digits(x, w), a, b);
    } else {
      LessByPrefix(Digits(x, w), Digits(y, w), a, b);
    }
  }

  lemma FractionOrder(x: nat, y: nat)
    requires x < 1_000_000 && y < 1_000_000
    ensures Less(IsoFraction(x), IsoFraction(y)) <==> x < y
  {
    assert Pow10(6) == 1_000_000 by {
      assert Pow10(3) == 1000;
      assert Pow10(6) == 1000 * Pow10(3);
    }
    LessIrreflexive("+00:00");
    if x > 0 && y > 0 {
      LessAfterPrefix(".", Digits(x, 6) + "+00:00", Digits(y, 6) + "+00:00");
      FieldOrder(x, y, 6, "+00:00", "+00:00");
    }
  }

  lemma ClockOrder(a: Utc, b: Utc)
    requires Valid(a) && Valid(b)
    ensures Less(IsoClock(a), IsoClock(b)) <==>
              a.hour < b.hour || (a.hour == b.hour && (
              a.minute < b.minute || (a.minute == b.minute && (
              a.second < b.second || (a.second == b.second && a.micro < b.micro)))))
  {
    assert Pow10(2) == 100;
    FractionOrder(a.micro, b.micro);
    var sa, sb := Digits(a.second, 2) + IsoFraction(a.micro), Digits(b.second, 2) + IsoFraction(b.micro);
    FieldOrder(a.second, b.second, 2, IsoFraction(a.micro), IsoFraction(b.micro));
    LessAfterPrefix(":", sa, sb);
    var ma, mb := Digits(a.minute, 2) + (":" + sa), Digits(b.minute, 2) + (":" + sb);
    FieldOrder(a.minute, b.minute, 2, ":" + sa, ":" + sb);
    LessAfterPrefix(":", ma, mb);
    FieldOrder(a.hour, b.hour, 2, ":" + ma, ":" + mb);
  }

  lemma IsoFieldOrder(a: Utc, b: Utc)
    requires Valid(a) && Valid(b)
    ensures Less(Iso(a), Iso(b)) <==> Before(a, b)
  {
    assert Pow10(2) == 100;
    assert Pow10(4) == 10_000 by {
      assert Pow10(4) == 100 * Pow10(2);
    }
    ClockOrder(a, b);
    LessAfterPrefix("T", IsoClock(a), IsoClock(b));
    var da, db := Digits(a.day, 2) + ("T" + IsoClock(a)), Digits(b.day, 2) + ("T" + IsoClock(b));
    FieldOrder(a.day, b.day, 2, "T" + IsoClock(a), "T" + IsoClock(b));
    LessAfterPrefix("-", da, db);
    var ma, mb := Digits(a.month, 2) + ("-" + da), Digits(b.month, 2) + ("-" + db);
    FieldOrder(a.month, b.month, 2, "-" + da, "-" + db);
    LessAfterPrefix("-", ma, mb);
    FieldOrder(a.year, b.year, 4, "-" + ma, "-" + mb);
  }

  /** Comparing `isoformat` texts, with or without a fractional part, is comparing instants. */
  lemma IsoOrder(a: Utc, b: Utc)
    requires Valid(a) && Valid(b)
    ensures AtMost(Iso(a), Iso(b)) <==> Instant(a) <= Instant(b)
    ensures Iso(a) == Iso(b) <==> a == b
  {
    IsoFieldOrder(a, b);
    IsoFieldOrder(b, a);
    BeforeIffEarlier(a, b);
    BeforeIffEarlier(b, a);
    LessIrreflexive(Iso(a));
  }

  // ---- the calendar moves with the instant ----

  /** The date one day later. */
  function NextDay(t: Utc): Utc {
    if t.day < DaysInMonth(t.year, t.month) then t.(day := t.day + 1)
    else if t.month < 12 then t.(month := t.month + 1, day := 1)
    else t.(year := t.year + 1, month := 1, day := 1)
  }

  /** The time one microsecond later. */
  function NextMicro(t: Utc): Utc {
    if t.micro < 999_999 then t.(micro := t.micro + 1)
    else if t.second < 59 then t.(second := t.second + 1, micro := 0)
    else if t.minute < 59 then t.(minute := t.minute + 1, second := 0, micro := 0)
    else if t.hour < 23 then t.(hour := t.hour + 1, minute := 0, second := 0, micro := 0)
    else NextDay(t.(hour := 0, minute := 0, second := 0, micro := 0))
  }

  lemma NextDayFollows(t: Utc)
    requires Valid(t)
    ensures Day(NextDay(t)) == Day(t) + 1 && MicroOfDay(NextDay(t)) == MicroOfDay(t)
  {
    if t.day == DaysInMonth(t.year, t.month) && t.month == 12 {
      YearStep(t.year);
      assert DaysBeforeMonth(t.year, 13) == DaysBeforeMonth(t.year, 12) + 31;
    }
  }

  /** The last microsecond of a day. */
  predicate EndsDay(t: Utc) {
    t.hour == 23 && t.minute == 59 && t.second == 59 && t.micro == 999_999
  }

  lemma NextWithinDay(t: Utc)
    requires Valid(t) && !EndsDay(t)
    ensures Day(NextMicro(t)) == Day(t) && MicroOfDay(NextMicro(t)) == MicroOfDay(t) + 1
  {
  }

  lemma NextAcrossDays(t: Utc)
    requires Valid(t) && EndsDay(t)
    ensures Day(NextMicro(t)) == Day(t) + 1 && MicroOfDay(NextMicro(t)) == 0 && MicroOfDay(t) == 86_400_000_000 - 1
  {
    NextDayFollows(t.(hour := 0, minute := 0, second := 0, micro := 0));
  }

  lemma NextValid(t: Utc)
    requires Valid(t) && NextMicro(t).year <= 9999
    ensures Valid(NextMicro(t))
  {
  }

  /** The calendar's next microsecond is the next instant, across ends of months, leap days and ends of years. */
  lemma NextMicroFollows(t: Utc)
    requires Valid(t)
    ensures Instant(NextMicro(t)) == Instant(t) + 1
    ensures NextMicro(t).year <= 9999 ==> Valid(NextMicro(t))
  {
    if EndsDay(t) {
      NextAcrossDays(t);
    } else {
      NextWithinDay(t);
    }
    if NextMicro(t).year <= 9999 {
      NextValid(t);
    }
  }
}
