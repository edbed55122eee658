// UTC time stamps: isoformat texts, their order as strings, and the instants they name.
module IsoTime {
  import opened TextOrder

  /** The fields of an aware UTC datetime. */
  datatype Stamp = Stamp(year: nat, month: nat, day: nat, hour: nat, minute: nat, second: nat, micro: nat)

  predicate Leap(year: nat) { year % 4 == 0 && (year % 100 != 0 || year % 400 == 0) }

  function DaysInMonth(year: nat, month: nat): nat {
    if month == 2 then if Leap(year) then 29 else 28
    else if month in {4, 6, 9, 11} then 30
    else 31
  }

  predicate Valid(s: Stamp) {
    && 1 <= s.year <= 9999 && 1 <= s.month <= 12 && 1 <= s.day <= DaysInMonth(s.year, s.month)
    && s.hour < 24 && s.minute < 60 && s.second < 60 && s.micro < 1_000_000
  }

  type UtcStamp = s: Stamp | Valid(s) witness Stamp(1, 1, 1, 0, 0, 0, 0)

  // ----- isoformat ---------------------------------------------------------------

  function Digit(n: nat): char
    requires n < 10
  {
    ['0', '1', '2', '3', '4', '5', '6', '7', '8', '9'][n]
  }

  /** `n` in `width` decimal digits. */
  function Digits(n: nat, width: nat): (r: string)
    ensures |r| == width
  {
    if width == 0 then "" else Digits(n / 10, width - 1) + [Digit(n % 10)]
  }

  function Date(s: Stamp): string { Digits(s.year, 4) + "-" + Digits(s.month, 2) + "-" + Digits(s.day, 2) }

  function Clock(s: Stamp): string { Digits(s.hour, 2) + ":" + Digits(s.minute, 2) + ":" + Digits(s.second, 2) }

  /** Microseconds are written only when there are some. */
  function Fraction(s: Stamp): string { if s.micro == 0 then "" else "." + Digits(s.micro, 6) }

  function Iso(s: Stamp): string { Date(s) + "T" + Clock(s) + (Fraction(s) + "+00:00") }

  // ----- Digits in string order ------------------------------------------------------

  /** Dropping the last digit of a number that fits its width. */
  predicate Fits(n: nat, width: nat) { if width == 0 then n == 0 else Fits(n / 10, width - 1) }

  lemma FitsWidths(n: nat)
    ensures n < 100 ==> Fits(n, 2)
    ensures n < 10000 ==> Fits(n, 4)
    ensures n < 1_000_000 ==> Fits(n, 6)
  {
    var a := n / 10;
    var b := a / 10;
    var c := b / 10;
    var d := c / 10;
    var e := d / 10;
    assert n < 100 ==> b == 0;
    assert n < 10000 ==> d == 0;
    assert n < 1_000_000 ==> e / 10 == 0;
  }

  lemma DigitOrder(m: nat, n: nat)
    requires m < 10 && n < 10
    ensures Before([Digit(m)], [Digit(n)]) <==> m < n
    ensures Digit(m) == Digit(n) <==> m == n
  {
    assert [Digit(m)][1..] == "" && [Digit(n)][1..] == "";
  }

  /** Numbers of one width compare as texts do. */
  lemma {:induction false} DigitsOrder(m: nat, n: nat, width: nat)
    requires Fits(m, width) && Fits(n, width)
    ensures Before(Digits(m, width), Digits(n, width)) <==> m < n
    ensures Digits(m, width) == Digits(n, width) <==> m == n
  {
    if width > 0 {
      DigitsOrder(m / 10, n / 10, width - 1);
      DigitOrder(m % 10, n % 10);
      BeforeConcat(Digits(m / 10, width - 1), Digits(n / 10, width - 1), [Digit(m % 10)], [Digit(n % 10)]);
      var a, b := Digits(m, width), Digits(n, width);
      assert a[..width - 1] == Digits(m / 10, width - 1) && b[..width - 1] == Digits(n / 10, width - 1);
      assert a[width - 1] == Digit(m % 10) && b[width - 1] == Digit(n % 10);
    }
  }

  /** Three numbers, lexicographically. */
  predicate Less3(a: nat, b: nat, c: nat, x: nat, y: nat, z: nat) {
    a < x || (a == x && (b < y || (b == y && c < z)))
  }

  lemma ThreeFields(a: nat, b: nat, c: nat, x: nat, y: nat, z: nat, w: nat, sep: string)
    requires Fits(a, w) && Fits(x, w) && Fits(b, 2) && Fits(y, 2) && Fits(c, 2) && Fits(z, 2) && |sep| == 1
    ensures var s := Digits(a, w) + sep + Digits(b, 2) + sep + Digits(c, 2);
            var t := Digits(x, w) + sep + Digits(y, 2) + sep + Digits(z, 2);
            && (Before(s, t) <==> Less3(a, b, c, x, y, z))
            && (s == t <==> a == x && b == y && c == z)
  {
    var s1, t1 := Digits(a, w) + sep, Digits(x, w) + sep;
    var s2, t2 := s1 + Digits(b, 2), t1 + Digits(y, 2);
    var s3, t3 := s2 + sep, t2 + sep;
    NotBeforeItself(sep);
    DigitsOrder(a, x, w);
    DigitsOrder(b, y, 2);
    DigitsOrder(c, z, 2);
    BeforeConcat(Digits(a, w), Digits(x, w), sep, sep);
    BeforeConcat(s1, t1, Digits(b, 2), Digits(y, 2));
    BeforeConcat(s2, t2, sep, sep);
    BeforeConcat(s3, t3, Digits(c, 2), Digits(z, 2));
    ConcatEqual(Digits(a, w), Digits(x, w), sep, sep);
    ConcatEqual(s1, t1, Digits(b, 2), Digits(y, 2));
    ConcatEqual(s2, t2, sep, sep);
    ConcatEqual(s3, t3, Digits(c, 2), Digits(z, 2));
  }

  lemma FractionOrder(s: Stamp, t: Stamp)
    requires s.micro < 1_000_000 && t.micro < 1_000_000
    ensures Before(Fraction(s) + "+00:00", Fraction(t) + "+00:00") <==> s.micro < t.micro
  {
    FitsWidths(s.micro);
    FitsWidths(t.micro);
    DigitsOrder(s.micro, t.micro, 6);
    NotBeforeItself("+00:00");
    if s.micro > 0 && t.micro > 0 {
      BeforeConcat(Fraction(s), Fraction(t), "+00:00", "+00:00");
      BeforeConcat(".", ".", Digits(s.micro, 6), Digits(t.micro, 6));
      NotBeforeItself(".");
      ConcatEqual(".", ".", Digits(s.micro, 6), Digits(t.micro, 6));
    } else {
      assert Fraction(s) + "+00:00" == if s.micro == 0 then "+00:00" else "." + Digits(s.micro, 6) + "+00:00";
    }
  }

  /** The fields, most significant first. */
  predicate Earlier(s: Stamp, t: Stamp) {
    || Less3(s.year, s.month, s.day, t.year, t.month, t.day)
    || (s.year == t.year && s.month == t.month && s.day == t.day
        && (|| Less3(s.hour, s.minute, s.second, t.hour, t.minute, t.second)
            || (s.hour == t.hour && s.minute == t.minute && s.second == t.second && s.micro < t.micro)))
  }

  /** String order of isoformat texts is the order of the fields, although one text may have
      microseconds and the other not. */
  lemma IsoOrder(s: Stamp, t: Stamp)
    requires Valid(s) && Valid(t)
    ensures Before(Iso(s), Iso(t)) <==> Earlier(s, t)
  {
    FieldsFit(s);
    FieldsFit(t);
    ThreeFields(s.year, s.month, s.day, t.year, t.month, t.day, 4, "-");
    ThreeFields(s.hour, s.minute, s.second, t.hour, t.minute, t.second, 2, ":");
    FractionOrder(s, t);
    NotBeforeItself("T");
    BeforeConcat(Date(s), Date(t), "T", "T");
    ConcatEqual(Date(s), Date(t), "T", "T");
    BeforeConcat(Date(s) + "T", Date(t) + "T", Clock(s), Clock(t));
    ConcatEqual(Date(s) + "T", Date(t) + "T", Clock(s), Clock(t));
    BeforeConcat(Date(s) + "T" + Clock(s), Date(t) + "T" + Clock(t), Fraction(s) + "+00:00", Fraction(t) + "+00:00");
  }

  lemma FieldsFit(s: Stamp)
    requires Valid(s)
    ensures Fits(s.year, 4) && Fits(s.month, 2) && Fits(s.day, 2)
    ensures Fits(s.hour, 2) && Fits(s.minute, 2) && Fits(s.second, 2)
  {
    FitsWidths(s.year);
    FitsWidths(s.month);
    FitsWidths(s.day);
    FitsWidths(s.hour);
    FitsWidths(s.minute);
    FitsWidths(s.second);
  }

  // ----- Instants -----------------------------------------------------------------------

  function DaysInYear(year: nat): nat { if Leap(year) then 366 else 365 }

  function DaysBeforeYear(year: nat): nat {
    if year == 0 then 0 else DaysBeforeYear(year - 1) + DaysInYear(year - 1)
  }

  function DaysBeforeMonth(year: nat, month: nat): nat
    requires 1 <= month <= 13
  {
    if month == 1 then 0 else DaysBeforeMonth(year, month - 1) + DaysInMonth(year, month - 1)
  }

  function DayNumber(s: Stamp): int
    requires Valid(s)
  {
    DaysBeforeYear(s.year) + DaysBeforeMonth(s.year, s.month) + s.day
  }

  const DAY: int := 86_400_000_000

  function TimeOfDay(s: Stamp): int {
    ((s.hour * 60 + s.minute) * 60 + s.second) * 1_000_000 + s.micro
  }

  /** Microseconds since a fixed origin. */
  function Instant(s: Stamp): int
    requires Valid(s)
  {
    DayNumber(s) * DAY + TimeOfDay(s)
  }

  lemma {:induction false} YearsMonotone(a: nat, b: nat)
    requires a < b
    ensures DaysBeforeYear(a) + DaysInYear(a) <= DaysBeforeYear(b)
    decreases b
  {
    if a < b - 1 { YearsMonotone(a, b - 1); }
  }

  lemma {:induction false} MonthsMonotone(year: nat, m: nat, n: nat)
    requires 1 <= m < n <= 13
    ensures DaysBeforeMonth(year, m) + DaysInMonth(year, m) <= DaysBeforeMonth(year, n)
    decreases n
  {
    if m < n - 1 { MonthsMonotone(year, m, n - 1); }
  }

  lemma MonthsOfYear(year: nat)
    ensures DaysBeforeMonth(year, 13) == DaysInYear(year)
  {
    var february := DaysInMonth(year, 2);
    FourMonths(year, 1);
    FourMonths(year, 5);
    FourMonths(year, 9);
    assert DaysBeforeMonth(year, 13) == 337 + february;
  }

  lemma FourMonths(year: nat, m: nat)
    requires 1 <= m <= 9
    ensures DaysBeforeMonth(year, m + 4) == DaysBeforeMonth(year, m) + DaysInMonth(year, m)
            + DaysInMonth(year, m + 1) + DaysInMonth(year, m + 2) + DaysInMonth(year, m + 3)
  {
    assert DaysBeforeMonth(year, m + 2) == DaysBeforeMonth(year, m + 1) + DaysInMonth(year, m + 1);
    assert DaysBeforeMonth(year, m + 3) == DaysBeforeMonth(year, m + 2) + DaysInMonth(year, m + 2);
  }

  lemma DaysMonotone(s: Stamp, t: Stamp)
    requires Valid(s) && Valid(t) && Less3(s.year, s.month, s.day, t.year, t.month, t.day)
    ensures DayNumber(s) < DayNumber(t)
  {
    if s.year < t.year {
      YearsMonotone(s.year, t.year);
      MonthsOfYear(s.year);
      MonthsMonotone(s.year, s.month, 13);
    } else if s.month < t.month {
      MonthsMonotone(s.year, s.month, t.month);
    }
  }

  lemma TimeOfDayOrder(s: Stamp, t: Stamp)
    requires Valid(s) && Valid(t)
    ensures 0 <= TimeOfDay(s) < DAY
    ensures TimeOfDay(s) < TimeOfDay(t) <==>
            || Less3(s.hour, s.minute, s.second, t.hour, t.minute, t.second)
            || (s.hour == t.hour && s.minute == t.minute && s.second == t.second && s.micro < t.micro)
  {
  }

  lemma EarlierMeansBefore(s: Stamp, t: Stamp)
    requires Valid(s) && Valid(t) && Earlier(s, t)
    ensures Instant(s) < Instant(t)
  {
    TimeOfDayOrder(s, t);
    TimeOfDayOrder(t, s);
    if Less3(s.year, s.month, s.day, t.year, t.month, t.day) { DaysMonotone(s, t); }
  }

  /** String order of UTC isoformat stamps is time order. */
  lemma IsoOrderIsTimeOrder(s: Stamp, t: Stamp)
    requires Valid(s) && Valid(t)
    ensures Before(Iso(s), Iso(t)) <==> Instant(s) < Instant(t)
    ensures Iso(s) == Iso(t) ==> s == t
  {
    IsoOrder(s, t);
    IsoOrder(t, s);
    if Earlier(s, t) {
      EarlierMeansBefore(s, t);
    } else if s != t {
      EarlierMeansBefore(t, s);
    }
    NotBeforeItself(Iso(s));
  }
}
