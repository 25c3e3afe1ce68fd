/** The Gregorian calendar behind the cron evaluation (internal/cron/cron.go relies on the
    library's dates). Day 0 is 0001-01-01, a Monday; days and years run both ways. */
module Calendar {
  predicate Leap(y: int) {
    y % 4 == 0 && (y % 100 != 0 || y % 400 == 0)
  }

  /** The number of the first of January. */
  function YearStart(y: int): int {
    365 * (y - 1) + (y - 1) / 4 - (y - 1) / 100 + (y - 1) / 400
  }

  function MonthLength(y: int, m: int): (n: nat)
    ensures 28 <= n <= 31
  {
    if m == 2 then (if Leap(y) then 29 else 28)
    else if m == 4 || m == 6 || m == 9 || m == 11 then 30 else 31
  }

  /** Days of the year before month `m`. */
  function Before(y: int, m: int): nat
    requires 1 <= m <= 13
  {
    if m == 1 then 0 else Before(y, m - 1) + MonthLength(y, m - 1)
  }

  datatype Date = Date(y: int, m: int, d: int) {
    predicate Valid() {
      1 <= m <= 12 && 1 <= d <= MonthLength(y, m)
    }
  }

  function Number(date: Date): int
    requires date.Valid()
  {
    YearStart(date.y) + Before(date.y, date.m) + date.d - 1
  }

  lemma QuotientSteps(a: int, n: int)
    requires n > 0
    ensures (a + 1) / n == a / n + if (a + 1) % n == 0 then 1 else 0
  {
    var q, r := a / n, a % n;
    assert a == q * n + r && 0 <= r < n;
    if r + 1 == n {
      assert a + 1 == (q + 1) * n;
      DivisionIsUnique(a + 1, n, q + 1, 0);
    } else {
      DivisionIsUnique(a + 1, n, q, r + 1);
    }
  }

  lemma AtLeastOnce(d: int, n: int)
    requires n > 0
    ensures d >= 1 ==> d * n >= n
  {
    if d >= 1 { assert (d - 1) * n >= 0; }
  }

  lemma DivisionIsUnique(a: int, n: int, q: int, r: int)
    requires n > 0 && a == q * n + r && 0 <= r < n
    ensures a / n == q && a % n == r
  {
    var q', r' := a / n, a % n;
    assert a == q' * n + r';
    assert (q - q') * n == r' - r by { assert (q - q') * n == q * n - q' * n; }
    assert (q' - q) * n == r - r' by { assert (q' - q) * n == q' * n - q * n; }
    AtLeastOnce(q - q', n);
    AtLeastOnce(q' - q, n);
  }

  lemma YearLength(y: int)
    ensures YearStart(y + 1) - YearStart(y) == if Leap(y) then 366 else 365
  {
    QuotientSteps(y - 1, 4);
    QuotientSteps(y - 1, 100);
    QuotientSteps(y - 1, 400);
  }

  lemma YearIsItsMonths(y: int)
    ensures Before(y, 13) == if Leap(y) then 366 else 365
  {
    assert Before(y, 2) == 31;
    var f := MonthLength(y, 2);
    assert Before(y, 3) == 31 + f;
    assert Before(y, 5) == 31 + f + 61;
    assert Before(y, 7) == 31 + f + 122;
    assert Before(y, 9) == 31 + f + 184;
    assert Before(y, 11) == 31 + f + 245;
  }

  lemma {:induction false} BeforeGrows(y: int, m: int, n: int)
    requires 1 <= m < n <= 13
    ensures Before(y, m) + MonthLength(y, m) <= Before(y, n)
    decreases n - m
  {
    if m + 1 < n { BeforeGrows(y, m, n - 1); }
  }

  lemma {:induction false} YearsGrow(y: int, z: int)
    requires y <= z
    ensures YearStart(y) + 365 * (z - y) <= YearStart(z) <= YearStart(y) + 366 * (z - y)
    decreases z - y
  {
    if y < z {
      YearsGrow(y, z - 1);
      YearLength(z - 1);
    }
  }

  lemma WithinYear(date: Date)
    requires date.Valid()
    ensures YearStart(date.y) <= Number(date) < YearStart(date.y + 1)
  {
    BeforeGrows(date.y, date.m, 13);
    YearIsItsMonths(date.y);
    YearLength(date.y);
  }

  predicate Earlier(a: Date, b: Date) {
    a.y < b.y || (a.y == b.y && (a.m < b.m || (a.m == b.m && a.d < b.d)))
  }

  /** Numbers follow the dates. */
  lemma NumberIsMonotone(a: Date, b: Date)
    requires a.Valid() && b.Valid()
    ensures Number(a) < Number(b) <==> Earlier(a, b)
    ensures Number(a) == Number(b) <==> a == b
  {
    WithinYear(a);
    WithinYear(b);
    if a.y < b.y {
      YearsGrow(a.y + 1, b.y);
    } else if b.y < a.y {
      YearsGrow(b.y + 1, a.y);
    } else if a.m < b.m {
      BeforeGrows(a.y, a.m, b.m);
    } else if b.m < a.m {
      BeforeGrows(a.y, b.m, a.m);
    }
  }

  /** The year of day `n`, searched from `y` towards it. */
  function YearOf(n: int, y: int): (r: int)
    ensures YearStart(r) <= n < YearStart(r + 1)
    decreases if n < YearStart(y) then YearStart(y) - n else n - YearStart(y) + 1
  {
    YearLength(y);
    YearLength(y - 1);
    if n < YearStart(y) then
      if n >= YearStart(y - 1) then y - 1 else YearOf(n, y - 1)
    else if n >= YearStart(y + 1) then YearOf(n, y + 1)
    else y
  }

  function MonthOf(y: int, k: nat, m: int): (r: int)
    requires 1 <= m <= 12 && Before(y, m) <= k < Before(y, 13)
    ensures m <= r <= 12 && Before(y, r) <= k < Before(y, r + 1)
    decreases 12 - m
  {
    if k < Before(y, m + 1) then m else MonthOf(y, k, m + 1)
  }

  function DateOf(n: int): (date: Date)
    ensures date.Valid() && Number(date) == n
  {
    var y := YearOf(n, 1);
    YearLength(y);
    YearIsItsMonths(y);
    var k := n - YearStart(y);
    var m := MonthOf(y, k, 1);
    Date(y, m, k - Before(y, m) + 1)
  }

  /** Numbers and dates are inverse to each other. */
  lemma DateOfNumber(date: Date)
    requires date.Valid()
    ensures DateOf(Number(date)) == date
  {
    NumberIsMonotone(date, DateOf(Number(date)));
  }

  /** Sunday is 0. */
  function Weekday(n: int): (w: int)
    ensures 0 <= w <= 6
  {
    (n + 1) % 7
  }

  /* ---- Against the calendar on the wall ---------------------------------------------------- */

  /** The lengths of the months as one learns them. */
  function Last(y: int, m: int): int {
    if m in {4, 6, 9, 11} then 30
    else if m != 2 then 31
    else if y % 400 == 0 then 29
    else if y % 100 == 0 then 28
    else if y % 4 == 0 then 29 else 28
  }

  lemma LastOfMonth(y: int, m: int)
    ensures Last(y, m) == MonthLength(y, m)
  {
    LeapYears(y);
  }

  /** The date after `date`. */
  function Tomorrow(date: Date): Date {
    if date.d < Last(date.y, date.m) then Date(date.y, date.m, date.d + 1)
    else if date.m < 12 then Date(date.y, date.m + 1, 1)
    else Date(date.y + 1, 1, 1)
  }

  /** Numbers count the days: the next number is the next date. */
  lemma NumbersCountDays(date: Date)
    requires date.Valid()
    ensures Tomorrow(date).Valid() && Number(Tomorrow(date)) == Number(date) + 1
    ensures DateOf(Number(date) + 1) == Tomorrow(date)
  {
    TomorrowIsNext(date);
    DateOfNumber(Tomorrow(date));
  }

  lemma TomorrowIsNext(date: Date)
    requires date.Valid()
    ensures Tomorrow(date).Valid() && Number(Tomorrow(date)) == Number(date) + 1
  {
    LastOfMonth(date.y, date.m);
    if date.d < MonthLength(date.y, date.m) {
      assert Tomorrow(date) == Date(date.y, date.m, date.d + 1);
    } else if date.m < 12 {
      NewMonth(date.y, date.m);
    } else {
      NewYear(date.y);
    }
  }

  lemma NewMonth(y: int, m: int)
    requires 1 <= m < 12
    ensures Date(y, m, MonthLength(y, m)).Valid() && Date(y, m + 1, 1).Valid()
    ensures Number(Date(y, m + 1, 1)) == Number(Date(y, m, MonthLength(y, m))) + 1
  {
    assert Before(y, m + 1) == Before(y, m) + MonthLength(y, m);
  }

  lemma NewYear(y: int)
    ensures Number(Date(y + 1, 1, 1)) == Number(Date(y, 12, 31)) + 1
  {
    YearIsItsMonths(y);
    YearLength(y);
  }

  lemma LeapYears(y: int)
    ensures Leap(y) <==> if y % 400 == 0 then true else if y % 100 == 0 then false else y % 4 == 0
  {
    if y % 400 == 0 {
      DivisionIsUnique(y, 4, y / 400 * 100, 0);
    }
  }

  /** Days that everybody agrees on: the first one, the Unix epoch, and a Monday of 2026. */
  lemma KnownDays()
    ensures Number(Date(1, 1, 1)) == 0 && Number(Date(1970, 1, 1)) == 719162 && Number(Date(2026, 1, 5)) == 739620
    ensures Weekday(Number(Date(1970, 1, 1))) == 4 && Weekday(Number(Date(2026, 1, 5))) == 1
  {
  }

  /** Weekdays follow each other, Saturday by Sunday, and come again every week. */
  lemma WeekdaysFollow(n: int)
    ensures Weekday(n + 1) == if Weekday(n) == 6 then 0 else Weekday(n) + 1
    ensures Weekday(n + 7) == Weekday(n)
  {
    QuotientSteps(n + 1, 7);
    DivisionIsUnique(n + 8, 7, (n + 1) / 7 + 1, (n + 1) % 7);
  }

  /** Among any seven days in a row each weekday comes up. */
  lemma WeekdayComesUp(from: int, w: int) returns (n: int)
    requires 0 <= w <= 6
    ensures from <= n <= from + 6 && Weekday(n) == w
  {
    n := from + (w - (from + 1)) % 7;
    var k := (w - (from + 1)) % 7;
    assert (from + k + 1) % 7 == w by {
      var q := (w - (from + 1)) / 7;
      assert from + k + 1 == w - q * 7;
      DivisionIsUnique(from + k + 1, 7, -q, w);
    }
  }

  /** The same date one year later is 365 or 366 days on. */
  lemma YearApart(y: int, m: int, d: int)
    requires Date(y, m, d).Valid() && Date(y + 1, m, d).Valid()
    ensures 365 <= Number(Date(y + 1, m, d)) - Number(Date(y, m, d)) <= 366
  {
    YearLength(y);
    BeforeShift(y, m);
    BeforeShift(y + 1, m);
    YearLength(y + 1);
    LeapAlone(y);
  }

  /** Before month `m` a year has the days of a common one, and one more from March on when
      it is a leap year. */
  function CommonBefore(m: int): nat
    requires 1 <= m <= 13
  {
    Before(1, m)
  }

  lemma {:induction false} BeforeShift(y: int, m: int)
    requires 1 <= m <= 13
    ensures Before(y, m) == CommonBefore(m) + if Leap(y) && m > 2 then 1 else 0
  {
    if m > 1 { BeforeShift(y, m - 1); }
  }

  lemma LeapAlone(y: int)
    ensures !(Leap(y) && Leap(y + 1))
  {
  }

  /* ---- Leap days -------------------------------------------------------------------------- */

  function LastLeapYear(y: int): (r: int)
    ensures r <= y && Leap(r)
    decreases y % 400
  {
    if Leap(y) then y
    else
      LeapStep(y);
      LastLeapYear(y - 1)
  }

  lemma {:induction false} NoLaterLeapYear(y: int, z: int)
    requires LastLeapYear(y) < z <= y
    ensures !Leap(z)
    decreases y % 400
  {
    if !Leap(y) && z < y {
      LeapStep(y);
      NoLaterLeapYear(y - 1, z);
    }
  }

  /** The cycle of 400 years starts with a leap year. */
  lemma LeapStep(y: int)
    requires !Leap(y)
    ensures y % 400 > 0 && (y - 1) % 400 == y % 400 - 1
  {
    if y % 400 == 0 {
      DivisionIsUnique(y, 4, y / 400 * 100, 0);
    } else {
      DivisionIsUnique(y - 1, 400, y / 400, y % 400 - 1);
    }
  }

  function LeapDay(y: int): int
    requires Leap(y)
  {
    Number(Date(y, 2, 29))
  }

  /** The last 29 February on or before day `n`. */
  function LastLeapDay(n: int): (r: int)
    ensures r <= n && DateOf(r).m == 2 && DateOf(r).d == 29
  {
    LeapDayUpToIs(n, DateOf(n).y);
    LeapDayUpTo(n, DateOf(n).y)
  }

  /** The leap day of the last leap year up to `y`, or, when that is still to come, of the one
      before. */
  function LeapDayUpTo(n: int, y: int): int {
    if LeapDay(LastLeapYear(y)) <= n then LeapDay(LastLeapYear(y)) else LeapDay(LastLeapYear(y - 1))
  }

  lemma LeapDayUpToIs(n: int, y: int)
    requires y <= DateOf(n).y
    ensures var r := LeapDayUpTo(n, y); r <= n && DateOf(r).m == 2 && DateOf(r).d == 29
  {
    LeapDayDate(LastLeapYear(y));
    LeapDayDate(LastLeapYear(y - 1));
    LeapDayPast(LastLeapYear(y - 1), n);
  }

  lemma LeapDayDate(l: int)
    requires Leap(l)
    ensures DateOf(LeapDay(l)) == Date(l, 2, 29)
  {
    DateOfNumber(Date(l, 2, 29));
  }

  lemma LeapDayPast(l: int, n: int)
    requires Leap(l) && l < DateOf(n).y
    ensures LeapDay(l) <= n
  {
    NumberIsMonotone(Date(l, 2, 29), DateOf(n));
  }

  predicate IsLeapDay(n: int) {
    DateOf(n).m == 2 && DateOf(n).d == 29
  }

  lemma LeapDayOf(k: int) returns (l: int)
    requires IsLeapDay(k)
    ensures Leap(l) && k == LeapDay(l) && l == DateOf(k).y
  {
    l := DateOf(k).y;
    assert Date(l, 2, 29) == DateOf(k);
  }

  lemma LeapDayUpToBound(n: int, y: int, l: int)
    requires Leap(l) && l <= y && LeapDay(l) <= n
    requires n < LeapDay(LastLeapYear(y)) ==> LastLeapYear(y) == y
    ensures LeapDay(l) <= LeapDayUpTo(n, y)
  {
    LeapYearIsListed(y, l);
    if LeapDay(LastLeapYear(y)) <= n {
      LeapDaysFollow(l, LastLeapYear(y));
    } else {
      LeapYearIsListed(y - 1, l);
      LeapDaysFollow(l, LastLeapYear(y - 1));
    }
  }

  lemma LeapDayBound(n: int, l: int)
    requires Leap(l) && l <= DateOf(n).y && LeapDay(l) <= n
    ensures LeapDay(l) <= LastLeapDay(n)
  {
    var y := DateOf(n).y;
    if n < LeapDay(LastLeapYear(y)) { LeapDayPastOnly(LastLeapYear(y), n); }
    LeapDayUpToBound(n, y, l);
  }

  /** No 29 February lies between the last one and `n`. */
  lemma NoLaterLeapDay(n: int, k: int)
    requires k <= n && IsLeapDay(k)
    ensures k <= LastLeapDay(n)
  {
    var l := LeapDayOf(k);
    NumberIsMonotone(DateOf(k), DateOf(n));
    LeapDayBound(n, l);
  }

  lemma LeapYearIsListed(y: int, z: int)
    requires Leap(z) && z <= y
    ensures z <= LastLeapYear(y)
  {
    if LastLeapYear(y) < z { NoLaterLeapYear(y, z); }
  }

  lemma LeapDaysFollow(a: int, b: int)
    requires Leap(a) && Leap(b) && a <= b
    ensures LeapDay(a) <= LeapDay(b)
  {
    NumberIsMonotone(Date(a, 2, 29), Date(b, 2, 29));
  }

  lemma LeapDayPastOnly(l: int, n: int)
    requires Leap(l) && l <= DateOf(n).y && n < LeapDay(l)
    ensures l == DateOf(n).y
  {
    if l < DateOf(n).y { LeapDayPast(l, n); }
  }
}
