/** Proleptic Gregorian dates as Python's `datetime` handles them: the
    ordinal day number (`toordinal()`), adding one day (`+ timedelta(days=1)`),
    and the text form `"%Y-%m-%d"` written by `strftime` and read by
    `strptime`. */
module Calendar {
  import opened Wrappers
  import opened Text

  datatype Date = Date(year: int, month: int, day: int)

  predicate IsLeap(y: int)
  {
    y % 4 == 0 && (y % 100 != 0 || y % 400 == 0)
  }

  function DaysInMonth(y: int, m: int): int
    requires 1 <= m <= 12
  {
    if m == 2 then (if IsLeap(y) then 29 else 28)
    else if m == 4 || m == 6 || m == 9 || m == 11 then 30
    else 31
  }

  function DaysInYear(y: int): int
  {
    if IsLeap(y) then 366 else 365
  }

  /** A date Python's `datetime.date` accepts (years 1 to 9999). */
  predicate Valid(d: Date)
  {
    1 <= d.year <= 9999 && 1 <= d.month <= 12 && 1 <= d.day <= DaysInMonth(d.year, d.month)
  }

  /** The last date Python can represent; one day later overflows. */
  const MaxDate := Date(9999, 12, 31)

  function DaysBeforeYear(y: int): nat
    requires y >= 1
  {
    if y == 1 then 0 else DaysBeforeYear(y - 1) + DaysInYear(y - 1)
  }

  function DaysBeforeMonth(y: int, m: int): nat
    requires 1 <= m <= 12
  {
    [0, 31, 59, 90, 120, 151, 181, 212, 243, 273, 304, 334][m - 1]
      + (if m > 2 && IsLeap(y) then 1 else 0)
  }

  /** Python's `date.toordinal()`: 1 January of year 1 is day 1. */
  function Ordinal(d: Date): int
    requires Valid(d)
  {
    DaysBeforeYear(d.year) + DaysBeforeMonth(d.year, d.month) + d.day
  }

  lemma DaysBeforeMonthStep(y: int, m: int)
    requires 1 <= m <= 12
    ensures m < 12 ==> DaysBeforeMonth(y, m + 1) == DaysBeforeMonth(y, m) + DaysInMonth(y, m)
    ensures m == 12 ==> DaysBeforeMonth(y, m) + DaysInMonth(y, m) == DaysInYear(y)
  {
  }

  lemma {:induction false} DaysBeforeMonthMono(y: int, m: int, n: int)
    requires 1 <= m < n <= 12
    ensures DaysBeforeMonth(y, m) + DaysInMonth(y, m) <= DaysBeforeMonth(y, n)
    decreases n - m
  {
    DaysBeforeMonthStep(y, m);
    if m + 1 < n {
      DaysBeforeMonthMono(y, m + 1, n);
    }
  }

  lemma {:induction false} DaysBeforeYearMono(y: int, z: int)
    requires 1 <= y < z
    ensures DaysBeforeYear(y) + DaysInYear(y) <= DaysBeforeYear(z)
    decreases z - y
  {
    if y + 1 < z {
      DaysBeforeYearMono(y + 1, z);
    }
  }

  /** Dates in the same order as (year, month, day). */
  predicate Before(a: Date, b: Date)
  {
    a.year < b.year || (a.year == b.year && (a.month < b.month || (a.month == b.month && a.day < b.day)))
  }

  /** The ordinal follows the calendar order, so it is one-to-one on valid dates. */
  lemma OrdinalMonotone(a: Date, b: Date)
    requires Valid(a) && Valid(b) && Before(a, b)
    ensures Ordinal(a) < Ordinal(b)
  {
    DaysBeforeMonthStep(a.year, 12);
    if a.year < b.year {
      if a.month < 12 {
        DaysBeforeMonthMono(a.year, a.month, 12);
      }
      DaysBeforeYearMono(a.year, b.year);
    } else if a.month < b.month {
      DaysBeforeMonthMono(a.year, a.month, b.month);
    }
  }

  lemma OrdinalInjective(a: Date, b: Date)
    requires Valid(a) && Valid(b) && Ordinal(a) == Ordinal(b)
    ensures a == b
  {
    if Before(a, b) {
      OrdinalMonotone(a, b);
    } else if Before(b, a) {
      OrdinalMonotone(b, a);
    }
  }

  /** `d + timedelta(days=1)`, or `None` where Python raises `OverflowError`. */
  function NextDay(d: Date): (r: Option<Date>)
    requires Valid(d)
    ensures r.None? <==> d == MaxDate
    ensures r.Some? ==> Valid(r.value) && Ordinal(r.value) == Ordinal(d) + 1
  {
    if d.day < DaysInMonth(d.year, d.month) then Some(Date(d.year, d.month, d.day + 1))
    else if d.month < 12 then
      DaysBeforeMonthStep(d.year, d.month);
      Some(Date(d.year, d.month + 1, 1))
    else if d.year < 9999 then
      DaysBeforeMonthStep(d.year, 12);
      Some(Date(d.year + 1, 1, 1))
    else None
  }

  /** `d + timedelta(days=n)`, or `None` on overflow. */
  function AddDays(d: Date, n: nat): (r: Option<Date>)
    requires Valid(d)
    ensures r.Some? ==> Valid(r.value) && Ordinal(r.value) == Ordinal(d) + n
    decreases n
  {
    if n == 0 then Some(d)
    else match NextDay(d)
      case None => None
      case Some(e) => AddDays(e, n - 1)
  }

  /** Adding days never overflows while the result stays at or before a
      valid date. */
  lemma {:induction false} AddDaysWithin(d: Date, n: nat, bound: Date)
    requires Valid(d) && Valid(bound) && Ordinal(d) + n <= Ordinal(bound)
    ensures AddDays(d, n).Some?
    decreases n
  {
    if n > 0 {
      if d == MaxDate {
        if bound != MaxDate {
          assert Before(bound, MaxDate);
          OrdinalMonotone(bound, MaxDate);
        }
        assert false;
      }
      var e := NextDay(d).value;
      AddDaysWithin(e, n - 1, bound);
    }
  }

  /** The first date Python can represent; one day earlier overflows. */
  const MinDate := Date(1, 1, 1)

  lemma OrdinalMin(d: Date)
    requires Valid(d)
    ensures Ordinal(d) >= 1
    ensures Ordinal(d) == 1 <==> d == MinDate
  {
    if Ordinal(d) == 1 {
      OrdinalInjective(d, MinDate);
    }
  }

  /** `d - timedelta(days=1)`, or `None` where Python raises `OverflowError`. */
  function PrevDay(d: Date): (r: Option<Date>)
    requires Valid(d)
    ensures r.None? <==> d == MinDate
    ensures r.Some? ==> Valid(r.value) && Ordinal(r.value) == Ordinal(d) - 1
  {
    if d.day > 1 then Some(Date(d.year, d.month, d.day - 1))
    else if d.month > 1 then
      DaysBeforeMonthStep(d.year, d.month - 1);
      Some(Date(d.year, d.month - 1, DaysInMonth(d.year, d.month - 1)))
    else if d.year > 1 then
      DaysBeforeMonthStep(d.year - 1, 12);
      Some(Date(d.year - 1, 12, 31))
    else None
  }

  /** `d - timedelta(days=n)`, or `None` where Python raises
      `OverflowError`. */
  function SubDays(d: Date, n: nat): (r: Option<Date>)
    requires Valid(d)
    ensures r.Some? ==> Valid(r.value) && Ordinal(r.value) == Ordinal(d) - n
    ensures r.None? ==> Ordinal(d) <= n
    decreases n
  {
    if n == 0 then Some(d)
    else
      OrdinalMin(d);
      match PrevDay(d)
      case None => None
      case Some(e) => SubDays(e, n - 1)
  }

  /** The subtraction overflows exactly when the result would fall before
      1 January of year 1. */
  lemma SubDaysOverflow(d: Date, n: nat)
    requires Valid(d)
    ensures SubDays(d, n).None? <==> Ordinal(d) <= n
  {
    var r := SubDays(d, n);
    if r.Some? {
      OrdinalMin(r.value);
    }
  }

  predicate IsDigit(c: char)
  {
    '0' <= c <= '9'
  }

  function Digit(n: int): (c: char)
    requires 0 <= n < 10
    ensures IsDigit(c)
  {
    ('0' as int + n) as char
  }

  function DigitValue(c: char): int
    requires IsDigit(c)
  {
    c as int - '0' as int
  }

  /** `"%02d"` */
  function Pad2(n: int): string
    requires 0 <= n < 100
  {
    [Digit(n / 10), Digit(n % 10)]
  }

  /** `"%04d"` */
  function Pad4(n: int): string
    requires 0 <= n < 10000
  {
    Pad2(n / 100) + Pad2(n % 100)
  }

  /** `d.strftime("%Y-%m-%d")` */
  function Iso(d: Date): string
    requires Valid(d)
  {
    Pad4(d.year) + "-" + Pad2(d.month) + "-" + Pad2(d.day)
  }

  /** The `%m` part of `strptime`'s pattern, `1[0-2]|0[1-9]|[1-9]`, which must be
      followed by `-`: how many characters it takes, or `None`. */
  function MonthWidth(s: string): Option<nat>
  {
    if |s| >= 3 && s[2] == '-'
       && ((s[0] == '1' && '0' <= s[1] <= '2') || (s[0] == '0' && '1' <= s[1] <= '9'))
    then Some(2)
    else if |s| >= 2 && s[1] == '-' && '1' <= s[0] <= '9' then Some(1)
    else None
  }

  /** The `%d` part, `3[01]|[12]\d|0[1-9]|[1-9]| [1-9]`, which must take all
      that is left (otherwise "unconverted data remains"). */
  predicate IsDayText(s: string)
  {
    || (|s| == 2 && s[0] == '3' && '0' <= s[1] <= '1')
    || (|s| == 2 && '1' <= s[0] <= '2' && IsDigit(s[1]))
    || (|s| == 2 && s[0] == '0' && '1' <= s[1] <= '9')
    || (|s| == 1 && '1' <= s[0] <= '9')
    || (|s| == 2 && s[0] == ' ' && '1' <= s[1] <= '9')
  }

  /** `int()` of a one- or two-character field made of digits and at most a
      leading space. */
  function SmallValue(s: string): int
    requires 1 <= |s| <= 2
    requires |s| == 1 ==> IsDigit(s[0])
    requires |s| == 2 ==> (IsDigit(s[0]) || s[0] == ' ') && IsDigit(s[1])
  {
    if |s| == 1 then DigitValue(s[0])
    else if s[0] == ' ' then DigitValue(s[1])
    else 10 * DigitValue(s[0]) + DigitValue(s[1])
  }

  /** `datetime.strptime(s, "%Y-%m-%d")`, with `None` where it raises
      `ValueError`: four digits, `-`, the month, `-`, the day, nothing else,
      and a date that exists. */
  function ParseIso(s: string): (r: Option<Date>)
    ensures r.Some? ==> Valid(r.value)
  {
    if |s| < 7 || !(IsDigit(s[0]) && IsDigit(s[1]) && IsDigit(s[2]) && IsDigit(s[3])) || s[4] != '-' then None
    else
      var y := 1000 * DigitValue(s[0]) + 100 * DigitValue(s[1]) + 10 * DigitValue(s[2]) + DigitValue(s[3]);
      var rest := s[5..];
      match MonthWidth(rest)
      case None => None
      case Some(w) =>
        var m := SmallValue(rest[..w]);
        var dayText := rest[w + 1..];
        if !IsDayText(dayText) then None
        else
          var d := Date(y, m, SmallValue(dayText));
          if Valid(d) then Some(d) else None
  }

  lemma DigitRoundTrip(n: int)
    requires 0 <= n < 10
    ensures DigitValue(Digit(n)) == n
  {
  }

  /** The two digits of `"%02d"` read back as the number. */
  lemma Pad2Digits(n: int)
    requires 0 <= n < 100
    ensures var p := Pad2(n);
      && |p| == 2 && IsDigit(p[0]) && IsDigit(p[1])
      && 10 * DigitValue(p[0]) + DigitValue(p[1]) == n
  {
    DigitRoundTrip(n / 10);
    DigitRoundTrip(n % 10);
  }

  lemma Pad4RoundTrip(y: int)
    requires 0 <= y < 10000
    ensures var p := Pad4(y);
      && |p| == 4 && IsDigit(p[0]) && IsDigit(p[1]) && IsDigit(p[2]) && IsDigit(p[3])
      && 1000 * DigitValue(p[0]) + 100 * DigitValue(p[1]) + 10 * DigitValue(p[2]) + DigitValue(p[3]) == y
  {
    var hi, lo := Pad2(y / 100), Pad2(y % 100);
    Pad2Digits(y / 100);
    Pad2Digits(y % 100);
    assert Pad4(y) == hi + lo;
    assert y == 100 * (y / 100) + y % 100;
  }

  lemma Pad2RoundTrip(n: int)
    requires 1 <= n < 100
    ensures var p := Pad2(n);
      && |p| == 2 && IsDigit(p[0]) && IsDigit(p[1]) && SmallValue(p) == n
  {
    Pad2Digits(n);
  }

  /** A two-digit month followed by `-` is read as two characters. */
  lemma MonthTextWidth(m: int, tail: string)
    requires 1 <= m <= 12
    ensures MonthWidth(Pad2(m) + "-" + tail) == Some(2)
  {
    var s := Pad2(m) + "-" + tail;
    assert s[2] == '-';
    assert s[0] == Digit(m / 10) && s[1] == Digit(m % 10);
  }

  lemma DayText(d: int)
    requires 1 <= d <= 31
    ensures IsDayText(Pad2(d))
  {
  }

  /** `strptime` reads back what `strftime` wrote. */
  lemma IsoRoundTrip(d: Date)
    requires Valid(d)
    ensures ParseIso(Iso(d)) == Some(d)
  {
    var s := Iso(d);
    var yt, mt, dt := Pad4(d.year), Pad2(d.month), Pad2(d.day);
    Pad4RoundTrip(d.year);
    Pad2RoundTrip(d.month);
    Pad2RoundTrip(d.day);
    assert s[..4] == yt && s[4] == '-';
    var rest := s[5..];
    assert rest == mt + "-" + dt;
    MonthTextWidth(d.month, dt);
    assert rest[..2] == mt;
    assert rest[3..] == dt;
    DayText(d.day);
  }

  /** Different dates have different text forms. */
  lemma IsoInjective(a: Date, b: Date)
    requires Valid(a) && Valid(b) && Iso(a) == Iso(b)
    ensures a == b
  {
    IsoRoundTrip(a);
    IsoRoundTrip(b);
  }
}
