/** Maintenance windows (internal/cron/cron.go): the bounded backward scan against the plain
    meaning of a schedule. Times are nanoseconds since 0001-01-01T00:00 UTC. */
module Cron {
  import opened Calendar
  import opened Wrappers

  const SECOND := 1_000_000_000
  const MINUTE := 60 * SECOND
  const HOUR := 60 * MINUTE
  const DAY := 24 * HOUR

  /** A parsed recurrence: every so often from midnight on, or the five fields' values. */
  datatype Schedule =
    | Every(every: int)
    | Fields(minutes: seq<int>, hours: seq<int>, dom: seq<int>, months: seq<int>, dow: seq<int>, domStar: bool, dowStar: bool)

  predicate Ascending(s: seq<int>) {
    forall i, j :: 0 <= i < j < |s| ==> s[i] < s[j]
  }

  predicate Within(s: seq<int>, min: int, max: int) {
    s != [] && forall i :: 0 <= i < |s| ==> min <= s[i] <= max
  }

  /** What the parser promises. */
  predicate Valid(s: Schedule) {
    match s
    case Every(every) => every > 0
    case Fields(minutes, hours, dom, months, dow, domStar, dowStar) =>
      && Ascending(minutes) && Within(minutes, 0, 59)
      && Ascending(hours) && Within(hours, 0, 23)
      && Ascending(dom) && Within(dom, 1, 31)
      && Ascending(months) && Within(months, 1, 12)
      && Within(dow, 0, 6)
      && (domStar ==> forall d :: 1 <= d <= 31 ==> d in dom)
      && (dowStar ==> forall w :: 0 <= w <= 6 ==> w in dow)
  }

  /* ---- The meaning of a schedule ----------------------------------------------------------- */

  function DayOf(t: int): int { t / DAY }

  function HourOf(t: int): int { t % DAY / HOUR }

  function MinuteOf(t: int): int { t % HOUR / MINUTE }

  function At(day: int, h: int, m: int): int {
    day * DAY + h * HOUR + m * MINUTE
  }

  /** The day-of-month and day-of-week rule: either one, when both are restricted. */
  predicate DayMatches(s: Schedule, n: int)
    requires s.Fields?
  {
    var domMatch, dowMatch := DateOf(n).d in s.dom, Weekday(n) in s.dow;
    if s.domStar && s.dowStar then true
    else if s.domStar then dowMatch
    else if s.dowStar then domMatch
    else domMatch || dowMatch
  }

  predicate MatchDay(s: Schedule, n: int)
    requires s.Fields?
  {
    DateOf(n).m in s.months && DayMatches(s, n)
  }

  predicate Occurs(s: Schedule, t: int)
    requires Valid(s)
  {
    match s
    case Every(every) => t % DAY % every == 0
    case Fields(minutes, hours, _, _, _, _, _) =>
      t % MINUTE == 0 && HourOf(t) in hours && MinuteOf(t) in minutes && MatchDay(s, DayOf(t))
  }

  /** `r` is the latest occurrence at or before `t`, or there is none. */
  ghost predicate Latest(s: Schedule, t: int, r: Option<int>)
    requires Valid(s)
  {
    match r
    case Some(o) => Occurs(s, o) && o <= t && forall u :: o < u <= t ==> !Occurs(s, u)
    case None => forall u :: u <= t ==> !Occurs(s, u)
  }

  /* ---- Times ------------------------------------------------------------------------------- */

  lemma TimeParts(day: int, h: int, m: int)
    requires 0 <= h <= 23 && 0 <= m <= 59
    ensures var t := At(day, h, m);
            DayOf(t) == day && HourOf(t) == h && MinuteOf(t) == m && t % MINUTE == 0 && t % DAY == h * HOUR + m * MINUTE
  {
    var t := At(day, h, m);
    DivisionIsUnique(t, DAY, day, h * HOUR + m * MINUTE);
    DivisionIsUnique(h * HOUR + m * MINUTE, HOUR, h, m * MINUTE);
    DivisionIsUnique(t, HOUR, day * 24 + h, m * MINUTE);
    DivisionIsUnique(m * MINUTE, MINUTE, m, 0);
    DivisionIsUnique(t, MINUTE, day * 1440 + h * 60 + m, 0);
  }

  /** A time is its day, hour and minute, and what is left of the minute. */
  lemma TimeIsItsParts(t: int)
    ensures 0 <= HourOf(t) <= 23 && 0 <= MinuteOf(t) <= 59
    ensures t == At(DayOf(t), HourOf(t), MinuteOf(t)) + t % MINUTE
  {
    var day, rest := t / DAY, t % DAY;
    var h, rest' := rest / HOUR, rest % HOUR;
    assert t == day * DAY + rest && rest == h * HOUR + rest';
    DivisionIsUnique(t, HOUR, day * 24 + h, rest');
    var m, r := rest' / MINUTE, rest' % MINUTE;
    assert rest' == m * MINUTE + r;
    DivisionIsUnique(t, MINUTE, day * 1440 + h * 60 + m, r);
  }

  /** Hour and minute at or before another one, as the scan compares them. */
  predicate AtOrBefore(h: int, m: int, maxH: int, maxM: int) {
    h < maxH || (h == maxH && m <= maxM)
  }

  lemma EarlierInTheDay(u: int, t: int)
    requires DayOf(u) == DayOf(t) && u % MINUTE == 0
    ensures u <= t <==> AtOrBefore(HourOf(u), MinuteOf(u), HourOf(t), MinuteOf(t))
  {
    TimeIsItsParts(u);
    TimeIsItsParts(t);
  }

  lemma DaysAreOrdered(u: int, t: int)
    requires u <= t
    ensures DayOf(u) <= DayOf(t)
  {
  }

  /* ---- The scan ---------------------------------------------------------------------------- */

  /** The latest listed hour and minute at or before the given ones. */
  method LatestInDay(s: Schedule, maxH: int, maxM: int) returns (r: Option<(int, int)>)
    requires Valid(s) && s.Fields? && 0 <= maxH <= 23 && 0 <= maxM <= 59
    ensures LatestTime(s, r, maxH, maxM)
  {
    var i := |s.hours| - 1;
    while i >= 0
      invariant -1 <= i < |s.hours|
      invariant forall k, m :: i < k < |s.hours| && m in s.minutes ==> !AtOrBefore(s.hours[k], m, maxH, maxM)
    {
      var h := s.hours[i];
      if h <= maxH {
        var top := if h == maxH then maxM else 59;
        var j := |s.minutes| - 1;
        while j >= 0
          invariant -1 <= j < |s.minutes|
          invariant forall k :: j < k < |s.minutes| ==> s.minutes[k] > top
        {
          if s.minutes[j] <= top {
            return Some((h, s.minutes[j]));
          }
          j := j - 1;
        }
      }
      i := i - 1;
    }
    r := None;
  }

  predicate OnlyFeb29(months: seq<int>, dom: seq<int>) {
    |months| == 1 && months[0] == 2 && |dom| == 1 && dom[0] == 29
  }

  function Horizon(s: Schedule): int
    requires s.Fields?
  {
    if OnlyFeb29(s.months, s.dom) then 4 * 366 + 1 else 366
  }

  /** What a scan of so many days back comes to. */
  ghost predicate LatestSince(s: Schedule, t: int, days: int, r: Option<int>)
    requires Valid(s)
  {
    match r
    case Some(o) => Latest(s, t, r) && DayOf(o) >= DayOf(t) - days
    case None => forall u :: u <= t && DayOf(u) >= DayOf(t) - days ==> !Occurs(s, u)
  }

  /** `r` is the latest listed time of day at or before the given one. */
  ghost predicate LatestTime(s: Schedule, r: Option<(int, int)>, maxH: int, maxM: int)
    requires s.Fields?
  {
    match r
    case Some((h, m)) =>
      && h in s.hours && m in s.minutes && AtOrBefore(h, m, maxH, maxM)
      && forall k, l :: k in s.hours && l in s.minutes && AtOrBefore(k, l, maxH, maxM) ==> AtOrBefore(k, l, h, m)
    case None => forall k, l :: k in s.hours && l in s.minutes ==> !AtOrBefore(k, l, maxH, maxM)
  }

  /** Times of the day `d` days back are at or before the bound exactly when they are by `t`. */
  lemma TimeBound(t: int, u: int, d: nat, maxH: int, maxM: int)
    requires DayOf(u) == DayOf(t) - d && u % MINUTE == 0
    requires if d == 0 then maxH == HourOf(t) && maxM == MinuteOf(t) else maxH == 23 && maxM == 59
    ensures u <= t <==> AtOrBefore(HourOf(u), MinuteOf(u), maxH, maxM)
  {
    TimeIsItsParts(u);
    if d == 0 { EarlierInTheDay(u, t); } else { LaterDay(u, t); }
  }

  /** One day's part of the scan: its latest time makes the day's latest occurrence. */
  lemma DayScanned(s: Schedule, t: int, d: nat, r: Option<(int, int)>, maxH: int, maxM: int)
    requires Valid(s) && s.Fields? && MatchDay(s, DayOf(t) - d) && LatestTime(s, r, maxH, maxM)
    requires if d == 0 then maxH == HourOf(t) && maxM == MinuteOf(t) else maxH == 23 && maxM == 59
    ensures r.Some? ==> var o := At(DayOf(t) - d, r.value.0, r.value.1); Occurs(s, o) && o <= t && DayOf(o) == DayOf(t) - d
    ensures forall u :: u <= t && DayOf(u) == DayOf(t) - d && Occurs(s, u) ==>
              r.Some? && u <= At(DayOf(t) - d, r.value.0, r.value.1)
  {
    var day := DayOf(t) - d;
    if r.Some? {
      TimeParts(day, r.value.0, r.value.1);
      TimeBound(t, At(day, r.value.0, r.value.1), d, maxH, maxM);
    }
    forall u | u <= t && DayOf(u) == day && Occurs(s, u)
      ensures r.Some? && u <= At(day, r.value.0, r.value.1)
    {
      TimeBound(t, u, d, maxH, maxM);
      if r.Some? { EarlierInTheDay(u, At(day, r.value.0, r.value.1)); }
    }
  }

  lemma LaterDay(u: int, t: int)
    requires DayOf(u) < DayOf(t)
    ensures u < t
  {
  }

  lemma NoneBetween(every: int, t: int, u: int)
    requires every > 0
    requires var mid := DayOf(t) * DAY; mid + (t - mid) / every * every < u <= t
    ensures !Occurs(Every(every), u)
  {
    var mid := DayOf(t) * DAY;
    var k := (t - mid) / every;
    var rest := u - mid - k * every;
    assert 0 <= k * every by { AtLeastOnce(k, every); }
    assert t - mid == k * every + (t - mid) % every;
    assert 0 < rest < every;
    DivisionIsUnique(u, DAY, DayOf(t), u - mid);
    DivisionIsUnique(u - mid, every, k, rest);
  }

  lemma EveryScanned(every: int, t: int)
    requires every > 0
    ensures var o := DayOf(t) * DAY + (t - DayOf(t) * DAY) / every * every;
            Latest(Every(every), t, Some(o)) && DayOf(o) == DayOf(t)
  {
    var mid := DayOf(t) * DAY;
    var k := (t - mid) / every;
    var o := mid + k * every;
    assert 0 <= k * every by { AtLeastOnce(k, every); }
    assert t - mid == k * every + (t - mid) % every;
    DivisionIsUnique(o, DAY, DayOf(t), k * every);
    DivisionIsUnique(k * every, every, k, 0);
    forall u | o < u <= t
      ensures !Occurs(Every(every), u)
    {
      NoneBetween(every, t, u);
    }
  }

  /** The part of the scan that looks `d` days back. */
  method ScanDay(s: Schedule, t: int, d: nat) returns (r: Option<int>)
    requires Valid(s) && s.Fields?
    ensures r.Some? ==> Occurs(s, r.value) && r.value <= t && DayOf(r.value) == DayOf(t) - d
    ensures forall u :: u <= t && DayOf(u) == DayOf(t) - d && (r.Some? ==> r.value < u) ==> !Occurs(s, u)
  {
    var dd := DayOf(t) - d;
    if DateOf(dd).m !in s.months || !DayMatches(s, dd) {
      return None;
    }
    TimeIsItsParts(t);
    var maxH, maxM := if d == 0 then HourOf(t) else 23, if d == 0 then MinuteOf(t) else 59;
    var hm := LatestInDay(s, maxH, maxM);
    DayScanned(s, t, d, hm, maxH, maxM);
    r := if hm.Some? then Some(At(dd, hm.value.0, hm.value.1)) else None;
  }

  lemma LatestFound(s: Schedule, t: int, d: nat, o: int)
    requires Valid(s) && Occurs(s, o) && o <= t && DayOf(o) == DayOf(t) - d
    requires NoneSince(s, t, DayOf(t) - d)
    requires forall u :: u <= t && DayOf(u) == DayOf(t) - d && o < u ==> !Occurs(s, u)
    ensures Latest(s, t, Some(o))
  {
    forall u | o < u <= t
      ensures !Occurs(s, u)
    {
      DaysAreOrdered(o, u);
    }
  }

  ghost predicate NoneSince(s: Schedule, t: int, day: int)
    requires Valid(s)
  {
    forall u :: u <= t && DayOf(u) > day ==> !Occurs(s, u)
  }

  lemma NoneYet(s: Schedule, t: int)
    requires Valid(s)
    ensures NoneSince(s, t, DayOf(t))
  {
    forall u | u <= t
      ensures DayOf(u) <= DayOf(t)
    {
      DaysAreOrdered(u, t);
    }
  }

  /** The days, from `t`'s back to the horizon. */
  method ScanDays(s: Schedule, t: int, horizon: int) returns (r: Option<int>)
    requires Valid(s) && s.Fields? && horizon >= 0
    ensures LatestSince(s, t, horizon, r)
  {
    var d := 0;
    NoneYet(s, t);
    while d <= horizon
      invariant 0 <= d <= horizon + 1 && NoneSince(s, t, DayOf(t) - d)
    {
      r := ScanDay(s, t, d);
      if r.Some? {
        LatestFound(s, t, d, r.value);
        return r;
      }
      d := d + 1;
    }
    r := None;
  }

  /** `lastOccurrenceAtOrBefore` as far as its horizon goes. */
  method Scan(s: Schedule, t: int) returns (r: Option<int>)
    requires Valid(s)
    ensures s.Every? ==> Latest(s, t, r) && r.Some? && DayOf(r.value) == DayOf(t)
    ensures s.Fields? ==> LatestSince(s, t, Horizon(s), r)
  {
    if s.Every? {
      var midnight := DayOf(t) * DAY;
      var k := (t - midnight) / s.every;
      EveryScanned(s.every, t);
      return Some(midnight + k * s.every);
    }
    r := ScanDays(s, t, if OnlyFeb29(s.months, s.dom) then 4 * 366 + 1 else 366);
  }

  /* ---- When the horizon suffices ------------------------------------------------------------ */

  /** The longest month `m` gets in a common year, and in any. */
  function CommonLength(m: int): int { MonthLength(1, m) }

  function LongestLength(m: int): int { MonthLength(4, m) }

  /** Only the date counts, and none listed is in the calendar. */
  predicate NeverOccurs(s: Schedule)
    requires s.Fields?
  {
    s.dowStar && forall m, d :: m in s.months && d in s.dom ==> d > LongestLength(m)
  }

  /** Only the date counts, and 29 February alone among those listed is in the calendar. */
  predicate OnlyLeapDays(s: Schedule)
    requires s.Fields?
  {
    && s.dowStar && 2 in s.months && 29 in s.dom
    && forall m, d :: m in s.months && d in s.dom ==> d > CommonLength(m)
  }

  predicate InYear(n: int, y: int) {
    YearStart(y) <= n < YearStart(y + 1)
  }

  lemma YearAround(n: int) returns (y: int)
    ensures InYear(n, y)
  {
    y := YearOf(n, 1);
  }

  /** A date in the year of the day before `day`, and the same one a year earlier. */
  lemma ThisYear(day: int, y: int, m: int, d: int)
    requires InYear(day - 1, y) && 1 <= m <= 12 && 1 <= d <= CommonLength(m)
    ensures Number(Date(y, m, d)) >= day - 366
  {
    YearLength(y);
    WithinYear(Date(y, m, d));
  }

  lemma LastYear(day: int, y: int, m: int, d: int)
    requires InYear(day - 1, y) && 1 <= m <= 12 && 1 <= d <= CommonLength(m)
    ensures Number(Date(y - 1, m, d)) < day
  {
    WithinYear(Date(y - 1, m, d));
  }

  lemma YearBack(y: int, m: int, d: int)
    requires 1 <= m <= 12 && 1 <= d <= CommonLength(m)
    ensures Number(Date(y - 1, m, d)) >= Number(Date(y, m, d)) - 366
  {
    YearApart(y - 1, m, d);
  }

  lemma NumberOf(y: int, m: int, d: int) returns (n: int)
    requires 1 <= m <= 12 && 1 <= d <= CommonLength(m)
    ensures n == Number(Date(y, m, d)) && DateOf(n).m == m && DateOf(n).d == d
  {
    n := Number(Date(y, m, d));
    DateOfNumber(Date(y, m, d));
  }

  lemma DatesAround(day: int, m: int, d: int) returns (a: int, b: int)
    requires 1 <= m <= 12 && 1 <= d <= CommonLength(m)
    ensures day - 366 <= a && b < day && a - 366 <= b
    ensures DateOf(a).m == m && DateOf(a).d == d && DateOf(b).m == m && DateOf(b).d == d
  {
    var y := YearAround(day - 1);
    a := NumberOf(y, m, d);
    b := NumberOf(y - 1, m, d);
    ThisYear(day, y, m, d);
    LastYear(day, y, m, d);
    YearBack(y, m, d);
  }

  lemma DateWithinAYear(day: int, m: int, d: int) returns (n: int)
    requires 1 <= m <= 12 && 1 <= d <= CommonLength(m)
    ensures day - 366 <= n < day && DateOf(n).m == m && DateOf(n).d == d
  {
    var a, b := DatesAround(day, m, d);
    n := if a < day then a else b;
  }

  lemma WeekdayIn(y: int, m: int, from: int, w: int) returns (n: int)
    requires 1 <= m <= 12 && 1 <= from <= 22 && 0 <= w <= 6
    ensures Number(Date(y, m, from)) <= n <= Number(Date(y, m, from)) + 6
    ensures DateOf(n).y == y && DateOf(n).m == m && Weekday(n) == w
  {
    var first := Number(Date(y, m, from));
    n := WeekdayComesUp(first, w);
    var d := from + n - first;
    assert Number(Date(y, m, d)) == n;
    DateOfNumber(Date(y, m, d));
  }

  /** A weekday in the first week of month `m` this year. */
  lemma WeekdayThisYear(day: int, y: int, m: int, w: int) returns (a: int)
    requires InYear(day - 1, y) && 1 <= m <= 12 && 0 <= w <= 6
    ensures day - 366 <= a <= Number(Date(y, m, 1)) + 6 && DateOf(a).m == m && Weekday(a) == w
  {
    ThisYear(day, y, m, 1);
    a := WeekdayIn(y, m, 1, w);
  }

  /** One in its fourth week last year. */
  lemma WeekdayLastYear(day: int, y: int, m: int, w: int) returns (b: int)
    requires InYear(day - 1, y) && 1 <= m <= 12 && 0 <= w <= 6
    ensures Number(Date(y, m, 1)) + 21 - 366 <= b < day && DateOf(b).m == m && Weekday(b) == w
  {
    b := WeekdayIn(y - 1, m, 22, w);
    FourthWeek(day, y, m);
  }

  lemma FourthWeek(day: int, y: int, m: int)
    requires InYear(day - 1, y) && 1 <= m <= 12
    ensures Number(Date(y, m, 1)) + 21 - 366 <= Number(Date(y - 1, m, 22))
    ensures Number(Date(y - 1, m, 22)) + 6 < day
  {
    LastYear(day, y, m, 28);
    YearBack(y, m, 22);
  }

  lemma WeekdayWithinAYear(day: int, m: int, w: int) returns (n: int)
    requires 1 <= m <= 12 && 0 <= w <= 6
    ensures day - 366 <= n < day && DateOf(n).m == m && Weekday(n) == w
  {
    var y := YearAround(day - 1);
    n := WeekdayThisYear(day, y, m, w);
    if n >= day {
      n := WeekdayLastYear(day, y, m, w);
    }
  }

  /** A schedule of neither kind has a day in every 366. */
  lemma RegularWithinAYear(s: Schedule, day: int) returns (n: int)
    requires Valid(s) && s.Fields? && !NeverOccurs(s) && !OnlyLeapDays(s)
    ensures day - 366 <= n < day && MatchDay(s, n)
  {
    if !s.dowStar {
      n := WeekdayWithinAYear(day, s.months[0], s.dow[0]);
    } else {
      var m, d := CommonPair(s);
      n := DateWithinAYear(day, m, d);
    }
  }

  lemma CommonPair(s: Schedule) returns (m: int, d: int)
    requires Valid(s) && s.Fields? && s.dowStar && !NeverOccurs(s) && !OnlyLeapDays(s)
    ensures m in s.months && d in s.dom && d <= CommonLength(m)
  {
    var m', d' :| m' in s.months && d' in s.dom && d' <= LongestLength(m');
    if d' <= CommonLength(m') {
      return m', d';
    }
    assert m' == 2 && d' == 29;
    m, d :| m in s.months && d in s.dom && d <= CommonLength(m);
  }

  lemma NeverMatches(s: Schedule, n: int)
    requires Valid(s) && s.Fields? && NeverOccurs(s)
    ensures !MatchDay(s, n)
  {
    assert s.months[0] in s.months;
    if s.domStar { assert 1 in s.dom; }
    assert DateOf(n).d <= MonthLength(DateOf(n).y, DateOf(n).m) <= LongestLength(DateOf(n).m);
  }

  lemma LeapDaysMatch(s: Schedule, n: int)
    requires Valid(s) && s.Fields? && OnlyLeapDays(s)
    ensures MatchDay(s, n) <==> DateOf(n).m == 2 && DateOf(n).d == 29
  {
    if s.domStar { assert 1 in s.dom; }
    var date := DateOf(n);
    assert date.d <= MonthLength(date.y, date.m);
    assert date.d > CommonLength(date.m) ==> date.m == 2 && date.d == 29;
  }

  /** The last day on which the schedule's first time is at or before `t`. */
  function LastStartDay(s: Schedule, t: int): int
    requires Valid(s) && s.Fields?
  {
    if At(DayOf(t), s.hours[0], s.minutes[0]) <= t then DayOf(t) else DayOf(t) - 1
  }

  /** The last leap day a window could have opened on lies behind the horizon. */
  predicate LeapDayTooFar(s: Schedule, t: int)
    requires Valid(s) && s.Fields?
  {
    LastLeapDay(LastStartDay(s, t)) < DayOf(t) - Horizon(s)
  }

  lemma FirstTime(s: Schedule, h: int, m: int)
    requires Valid(s) && s.Fields? && h in s.hours && m in s.minutes
    ensures s.hours[0] <= h && s.minutes[0] <= m
  {
  }

  /** A matching day has an occurrence, at its first time. */
  lemma DayHasOccurrence(s: Schedule, n: int)
    requires Valid(s) && s.Fields? && MatchDay(s, n)
    ensures var o := At(n, s.hours[0], s.minutes[0]); Occurs(s, o) && DayOf(o) == n
  {
    TimeParts(n, s.hours[0], s.minutes[0]);
  }

  /** Occurrences up to `t` lie on matching days up to the last start day. */
  lemma OccursBy(s: Schedule, t: int, u: int)
    requires Valid(s) && s.Fields? && Occurs(s, u) && u <= t
    ensures DayOf(u) <= LastStartDay(s, t) && MatchDay(s, DayOf(u))
  {
    NotBeforeFirst(s, u);
    StartDayBy(s, t, u);
  }

  lemma StartDayBy(s: Schedule, t: int, u: int)
    requires Valid(s) && s.Fields? && u <= t && At(DayOf(u), s.hours[0], s.minutes[0]) <= u
    ensures DayOf(u) <= LastStartDay(s, t)
  {
    DaysAreOrdered(u, t);
  }

  lemma NotBeforeFirst(s: Schedule, u: int)
    requires Valid(s) && s.Fields? && HourOf(u) in s.hours && MinuteOf(u) in s.minutes
    ensures At(DayOf(u), s.hours[0], s.minutes[0]) <= u
  {
    TimeIsItsParts(u);
    FirstTime(s, HourOf(u), MinuteOf(u));
  }

  lemma StartedBy(s: Schedule, t: int, n: int)
    requires Valid(s) && s.Fields? && n <= LastStartDay(s, t)
    ensures At(n, s.hours[0], s.minutes[0]) <= t
  {
    TimeParts(n, s.hours[0], s.minutes[0]);
    if n < DayOf(t) { LaterDay(At(n, s.hours[0], s.minutes[0]), t); }
  }

  /** A matching day up to the last start day has an occurrence by `t`. */
  lemma StartsBy(s: Schedule, t: int, n: int) returns (o: int)
    requires Valid(s) && s.Fields? && MatchDay(s, n) && n <= LastStartDay(s, t)
    ensures Occurs(s, o) && o <= t && DayOf(o) == n
  {
    o := At(n, s.hours[0], s.minutes[0]);
    StartedBy(s, t, n);
    DayHasOccurrence(s, n);
  }

  /** The scan is exact: it finds the latest occurrence, or rightly none, unless the schedule
      can only fall on 29 February and the last one lies behind the horizon. */
  lemma ScanIsExact(s: Schedule, t: int, r: Option<int>)
    requires Valid(s) && s.Fields? && LatestSince(s, t, Horizon(s), r)
    ensures Latest(s, t, r) <==> !(OnlyLeapDays(s) && LeapDayTooFar(s, t))
    ensures !NeverOccurs(s) && !OnlyLeapDays(s) ==> r.Some?
  {
    if OnlyLeapDays(s) {
      LeapScan(s, t, r);
    } else if NeverOccurs(s) {
      forall u
        ensures !Occurs(s, u)
      {
        NeverMatches(s, DayOf(u));
      }
    } else {
      var n := RegularWithinAYear(s, DayOf(t));
      var o := StartsBy(s, t, n);
    }
  }

  lemma LeapScan(s: Schedule, t: int, r: Option<int>)
    requires Valid(s) && s.Fields? && LatestSince(s, t, Horizon(s), r) && OnlyLeapDays(s)
    ensures Latest(s, t, r) <==> !LeapDayTooFar(s, t)
  {
    var n := LastLeapDay(LastStartDay(s, t));
    LeapDaysMatch(s, n);
    var o := StartsBy(s, t, n);
    if r.Some? {
      OccursBy(s, t, r.value);
      LeapDaysMatch(s, DayOf(r.value));
      NoLaterLeapDay(LastStartDay(s, t), DayOf(r.value));
    } else if LeapDayTooFar(s, t) {
      assert Occurs(s, o) && o <= t;
    }
  }

  /** The horizon reaches what there is at or before `t`. */
  predicate WithinReach(s: Schedule, t: int)
    requires Valid(s)
  {
    s.Every? || !OnlyLeapDays(s) || !LeapDayTooFar(s, t)
  }

  /** `lastOccurrenceAtOrBefore`: exact within reach; a schedule with a date that every year
      has, or with a weekday, always has its occurrence. */
  method LastOccurrence(s: Schedule, t: int) returns (r: Option<int>)
    requires Valid(s)
    ensures Latest(s, t, r) <==> WithinReach(s, t)
    ensures r.Some? ==> Latest(s, t, r)
    ensures r.None? ==> s.Fields? && (NeverOccurs(s) || OnlyLeapDays(s))
    ensures r.Some? && s.Fields? ==> DayOf(r.value) >= DayOf(t) - Horizon(s)
    ensures r.None? ==> forall u :: u <= t && DayOf(u) >= DayOf(t) - Horizon(s) ==> !Occurs(s, u)
  {
    r := Scan(s, t);
    if s.Fields? { ScanIsExact(s, t, r); }
  }

  /* ---- Windows ------------------------------------------------------------------------------ */

  ghost predicate Open(s: Schedule, grace: int, now: int)
    requires Valid(s)
  {
    exists o :: Occurs(s, o) && o <= now < o + grace
  }

  lemma OpenByLatest(s: Schedule, grace: int, now: int, r: Option<int>)
    requires Valid(s) && grace <= 366 * DAY
    requires r.Some? ==> Latest(s, now, r)
    requires r.None? ==> forall u :: u <= now && DayOf(u) >= DayOf(now) - 366 ==> !Occurs(s, u)
    ensures Open(s, grace, now) <==> r.Some? && r.value <= now && now - r.value < grace
  {
    if r.None? && Open(s, grace, now) {
      var o :| Occurs(s, o) && o <= now < o + grace;
      DaysApart(o, now);
    }
  }

  lemma DaysApart(o: int, now: int)
    requires o > now - 366 * DAY
    ensures DayOf(o) >= DayOf(now) - 366
  {
    DivisionIsUnique(now - 366 * DAY, DAY, DayOf(now) - 366, now % DAY);
    DaysAreOrdered(now - 366 * DAY, o);
  }

  method WindowOpen(s: Schedule, grace: int, now: int) returns (open: bool)
    requires Valid(s)
    ensures open ==> Open(s, grace, now)
    ensures grace <= 366 * DAY ==> (open <==> Open(s, grace, now))
  {
    var r := LastOccurrence(s, now);
    open := r.Some? && r.value <= now && now - r.value < grace;
    if grace <= 366 * DAY { OpenByLatest(s, grace, now, r); }
    if open { assert Occurs(s, r.value); }
  }

  /** `WindowsOpen`: exactly when some schedule has an occurrence whose grace period runs, for
      a grace of up to 366 days. */
  method WindowsOpen(specs: seq<Schedule>, grace: int, now: int) returns (open: bool)
    requires forall i :: 0 <= i < |specs| ==> Valid(specs[i])
    ensures open ==> exists i :: 0 <= i < |specs| && Open(specs[i], grace, now)
    ensures grace <= 366 * DAY ==> (open <==> exists i :: 0 <= i < |specs| && Open(specs[i], grace, now))
  {
    if grace <= 0 || |specs| == 0 {
      return false;
    }
    var i := 0;
    while i < |specs|
      invariant 0 <= i <= |specs|
      invariant grace <= 366 * DAY ==> forall k :: 0 <= k < i ==> !Open(specs[k], grace, now)
    {
      var here := WindowOpen(specs[i], grace, now);
      if here {
        return true;
      }
      i := i + 1;
    }
    open := false;
  }

  /* ---- A schedule against clock and calendar --------------------------------------------------- */

  /** The instant `h`:`m` of a date, in nanoseconds. */
  function Instant(date: Date, h: int, m: int): int
    requires date.Valid()
  {
    ((Number(date) * 24 + h) * 60 + m) * 60_000_000_000
  }

  /** What the five fields mean on the clock and the calendar: month, hour and minute are listed,
      and the day is listed by the one of its two fields that is restricted, by either of them
      if both are, and without more if none is. */
  lemma FieldsMean(s: Schedule, date: Date, h: int, m: int)
    requires Valid(s) && s.Fields? && date.Valid() && 0 <= h <= 23 && 0 <= m <= 59
    ensures var byDate, byWeekday := date.d in s.dom, Weekday(Number(date)) in s.dow;
            Occurs(s, Instant(date, h, m)) <==>
            && h in s.hours && m in s.minutes && date.m in s.months
            && (!s.domStar && s.dowStar ==> byDate)
            && (s.domStar && !s.dowStar ==> byWeekday)
            && (!s.domStar && !s.dowStar ==> byDate || byWeekday)
  {
    InstantIsAt(date, h, m);
    DateOfNumber(date);
    FieldsMeanOn(s, Number(date), h, m);
  }

  lemma InstantIsAt(date: Date, h: int, m: int)
    requires date.Valid()
    ensures Instant(date, h, m) == At(Number(date), h, m)
  {
  }

  lemma FieldsMeanOn(s: Schedule, day: int, h: int, m: int)
    requires Valid(s) && s.Fields? && 0 <= h <= 23 && 0 <= m <= 59
    ensures Occurs(s, At(day, h, m)) <==> h in s.hours && m in s.minutes && DateOf(day).m in s.months && DayMatches(s, day)
  {
    TimeParts(day, h, m);
  }

  /** Nothing occurs within a minute. */
  lemma OnlyAtWholeMinutes(s: Schedule, date: Date, h: int, m: int, rest: int)
    requires Valid(s) && s.Fields? && date.Valid() && 0 < rest < 60_000_000_000
    ensures !Occurs(s, Instant(date, h, m) + rest)
  {
    DivisionIsUnique(Instant(date, h, m) + rest, MINUTE, (Number(date) * 24 + h) * 60 + m, rest);
  }

  /** An interval is counted from midnight. */
  lemma IntervalsMean(every: int, date: Date, since: int)
    requires every > 0 && date.Valid() && 0 <= since < 86_400_000_000_000
    ensures Occurs(Every(every), Instant(date, 0, 0) + since) <==> since % every == 0
  {
    DivisionIsUnique(Instant(date, 0, 0) + since, DAY, Number(date), since);
  }

  /** `0 4 * * 0`: every Sunday at four. */
  const SUNDAYS := Fields([0], [4], Upto(31), Upto(12), [0], true, false)

  function Upto(n: nat): (s: seq<int>)
    ensures |s| == n && forall i :: 0 <= i < n ==> s[i] == i + 1
  {
    seq(n, i => i + 1)
  }

  lemma SundaysAreValid()
    ensures Valid(SUNDAYS)
  {
    forall d | 1 <= d <= 31
      ensures d in Upto(31)
    {
      assert Upto(31)[d - 1] == d;
    }
  }

  /** Restricted to weekdays alone, a schedule whose grace began the same day is closed on any
      other weekday. */
  lemma ClosedOnOtherWeekdays(s: Schedule, grace: int, date: Date, now: int)
    requires Valid(s) && s.Fields? && s.domStar && !s.dowStar && date.Valid() && Weekday(Number(date)) !in s.dow
    requires Instant(date, 0, 0) + grace <= now + 1 && now < Instant(date, 24, 0)
    ensures !Open(s, grace, now)
  {
    InstantIsAt(date, 0, 0);
    InstantIsAt(date, 24, 0);
    ClosedOnDay(s, grace, Number(date), now);
  }

  lemma ClosedOnDay(s: Schedule, grace: int, day: int, now: int)
    requires Valid(s) && s.Fields? && s.domStar && !s.dowStar && Weekday(day) !in s.dow
    requires day * DAY + grace <= now + 1 && now < (day + 1) * DAY
    ensures !Open(s, grace, now)
  {
    forall o | o <= now < o + grace
      ensures !Occurs(s, o)
    {
      DivisionIsUnique(o, DAY, day, o - day * DAY);
    }
  }

  lemma OpenAfter(s: Schedule, grace: int, o: int, now: int)
    requires Valid(s) && Occurs(s, o) && o <= now < o + grace
    ensures Open(s, grace, now)
  {
  }

  lemma SundaysOpenOn(sunday: Date, monday: Date)
    requires sunday.Valid() && monday.Valid() && Weekday(Number(sunday)) == 0 && Weekday(Number(monday)) == 1
    requires sunday.m == 1
    ensures Valid(SUNDAYS)
    ensures Open(SUNDAYS, HOUR, Instant(sunday, 4, 30)) && !Open(SUNDAYS, HOUR, Instant(monday, 4, 30))
  {
    SundaysAreValid();
    assert Upto(12)[0] == 1;
    FieldsMean(SUNDAYS, sunday, 4, 0);
    OpenAfter(SUNDAYS, HOUR, Instant(sunday, 4, 0), Instant(sunday, 4, 30));
    ClosedOnOtherWeekdays(SUNDAYS, HOUR, monday, Instant(monday, 4, 30));
  }

  /** With an hour's grace it is open on Sunday 4 January 2026 at 04:30, and not the day after. */
  lemma SundaysOpen()
    ensures Valid(SUNDAYS)
    ensures Open(SUNDAYS, HOUR, Instant(Date(2026, 1, 4), 4, 30)) && !Open(SUNDAYS, HOUR, Instant(Date(2026, 1, 5), 4, 30))
  {
    KnownDays();
    WeekdaysFollow(739619);
    SundaysOpenOn(Date(2026, 1, 4), Date(2026, 1, 5));
  }

  /** An occurrence no later than `now` that the scan of its schedule gets to. */
  ghost predicate Offers(s: Schedule, now: int, o: int)
    requires Valid(s)
  {
    o <= now && Occurs(s, o) && (s.Fields? ==> DayOf(o) >= DayOf(now) - Horizon(s))
  }

  /** `r` is no older than anything the schedule has to offer. */
  ghost predicate Beats(r: Option<int>, s: Schedule, now: int)
    requires Valid(s)
  {
    forall o :: Offers(s, now, o) ==> r.Some? && o <= r.value
  }

  method Offer(s: Schedule, now: int) returns (r: Option<int>)
    requires Valid(s)
    ensures (r.Some? ==> Offers(s, now, r.value)) && Beats(r, s, now)
  {
    r := LastOccurrence(s, now);
  }

  /** `NewestOccurrence`: an occurrence of one schedule, and none that a scan gets to is newer. */
  method NewestOccurrence(specs: seq<Schedule>, now: int) returns (r: Option<int>)
    requires forall i :: 0 <= i < |specs| ==> Valid(specs[i])
    ensures r.Some? ==> exists i :: 0 <= i < |specs| && Offers(specs[i], now, r.value)
    ensures forall i :: 0 <= i < |specs| ==> Beats(r, specs[i], now)
  {
    r := None;
    var i := 0;
    while i < |specs|
      invariant 0 <= i <= |specs|
      invariant r.Some? ==> exists k :: 0 <= k < |specs| && Offers(specs[k], now, r.value)
      invariant forall k :: 0 <= k < i ==> Beats(r, specs[k], now)
    {
      var found := Offer(specs[i], now);
      if found.Some? && (r.None? || found.value > r.value) {
        r := found;
      }
      i := i + 1;
    }
  }

  /* ---- Leap days ---------------------------------------------------------------------------- */

  /** Every fourth year from `y` - 4 on is a leap year: no century skips one. */
  ghost predicate NoSkippedYear(y: int) {
    forall z :: y - 4 <= z <= y && z % 4 == 0 ==> Leap(z)
  }

  /** Four years back suffice while every fourth year is a leap year. */
  lemma FourYearsSuffice(s: Schedule, t: int)
    requires Valid(s) && s.Fields? && OnlyFeb29(s.months, s.dom)
    requires NoSkippedYear(DateOf(LastStartDay(s, t)).y)
    ensures !LeapDayTooFar(s, t)
  {
    FourYearsBack(LastStartDay(s, t), DateOf(LastStartDay(s, t)).y);
  }

  lemma FourYearsBack(n: int, y: int)
    requires y == DateOf(n).y && NoSkippedYear(y)
    ensures LastLeapDay(n) >= n - 1464
  {
    var l := y - 4 + (0 - y) % 4;
    FourthYear(y);
    assert Leap(l);
    if y % 4 == 0 {
      assert Leap(y);
      if LeapDay(y) <= n {
        LeapDayNear(y, n);
      } else {
        LeapDayPast(l, n);
        LeapDayDue(l, n);
      }
    } else {
      LeapDayPast(l, n);
      LeapDayNear(l, n);
    }
  }

  lemma YearToCome(n: int, z: int)
    requires DateOf(n).y < z
    ensures n < YearStart(z)
  {
    WithinYear(DateOf(n));
    YearsGrow(DateOf(n).y + 1, z);
  }

  /** Less than four years after a leap day. */
  lemma LeapDayNear(l: int, n: int)
    requires Leap(l) && l <= DateOf(n).y < l + 4 && LeapDay(l) <= n
    ensures LastLeapDay(n) >= n - 1464
  {
    LeapDayBound(n, l);
    LeapDayInYear(l);
    YearToCome(n, l + 4);
    YearsGrow(l, l + 4);
  }

  /** In the fourth year, before its own leap day. */
  lemma LeapDayDue(l: int, n: int)
    requires Leap(l) && Leap(l + 4) && LeapDay(l) <= n < LeapDay(l + 4)
    ensures LastLeapDay(n) >= n - 1464
  {
    LeapDayBound(n, l);
    LeapDayInYear(l);
    LeapDayInYear(l + 4);
    YearsGrow(l, l + 4);
  }

  lemma FourthYear(y: int)
    ensures var l := y - 4 + (0 - y) % 4; l % 4 == 0 && y - 4 <= l < y && (if y % 4 == 0 then y == l + 4 else y < l + 4)
  {
  }

  lemma LeapDayInYear(l: int)
    requires Leap(l)
    ensures LeapDay(l) == YearStart(l) + 59 && Date(l, 2, 29).Valid()
  {
    assert Before(l, 2) == 31;
  }

  /* ---- Where the horizon falls short ------------------------------------------------------- */

  /** A leap day up to `day` belongs to a leap year `l` up to day's year, 307 days before the
      next one. */
  lemma LeapYearOf(k: int, day: int) returns (l: int)
    requires DateOf(k).m == 2 && DateOf(k).d == 29 && k <= day
    ensures Leap(l) && l <= DateOf(day).y && k + 307 == YearStart(l + 1)
  {
    l := DateOf(k).y;
    NumberIsMonotone(DateOf(k), DateOf(day));
    BeforeMarch(k);
  }

  lemma BeforeMarch(k: int)
    requires DateOf(k).m == 2 && DateOf(k).d == 29
    ensures Leap(DateOf(k).y) && k + 307 == YearStart(DateOf(k).y + 1)
  {
    var y := DateOf(k).y;
    assert Leap(y);
    LeapDayInYear(y);
    YearLength(y);
    assert Date(y, 2, 29) == DateOf(k);
  }

  /** So many years on, so many days on. */
  lemma YearsOn(k: int, l: int, day: int)
    requires k + 307 == YearStart(l + 1) && l < DateOf(day).y
    ensures k + 307 + 365 * (DateOf(day).y - l - 1) <= day
  {
    WithinYear(DateOf(day));
    YearsGrow(l + 1, DateOf(day).y);
  }

  /** Any other list with 29 February alone in the calendar has a horizon of 366 days: two
      years after a leap day it lies too far back. */
  lemma MixedListMisses(s: Schedule, t: int)
    requires Valid(s) && s.Fields? && OnlyLeapDays(s) && !OnlyFeb29(s.months, s.dom)
    requires DateOf(DayOf(t)).y % 4 == 2
    ensures LeapDayTooFar(s, t)
  {
    var k := LastLeapDay(LastStartDay(s, t));
    var l := LeapYearOf(k, DayOf(t));
    TwoYearsOff(l, DateOf(DayOf(t)).y);
    YearsOn(k, l, DayOf(t));
  }

  lemma TwoYearsOff(l: int, y: int)
    requires Leap(l) && l <= y && y % 4 == 2
    ensures l <= y - 2
  {
  }

  /** Nor do four years and a day span a century that skips its leap day: in January 1904, say. */
  lemma SkippedCenturyMisses(s: Schedule, t: int, c: int)
    requires Valid(s) && s.Fields? && OnlyLeapDays(s)
    requires c % 100 == 0 && c % 400 != 0
    requires DateOf(DayOf(t)).y == c + 4 && DateOf(DayOf(t)).m == 1
    ensures LeapDayTooFar(s, t)
  {
    var k := LastLeapDay(LastStartDay(s, t));
    var l := LeapYearOf(k, DayOf(t));
    NotThisYear(k, DayOf(t), l);
    YearsOn(k, l, DayOf(t));
    NoLeapYearNear(c, l);
  }

  lemma NotThisYear(k: int, day: int, l: int)
    requires k + 307 == YearStart(l + 1) && k <= day && Leap(l) && DateOf(day).m == 1 && l <= DateOf(day).y
    ensures l < DateOf(day).y
  {
    YearLength(l);
  }

  lemma NoLeapYearNear(c: int, l: int)
    requires c % 100 == 0 && c % 400 != 0 && Leap(l) && l < c + 4
    ensures l <= c - 4
  {
  }

  /** What a miss is: the scan finds nothing though there was an occurrence. */
  lemma ScanMisses(s: Schedule, t: int, r: Option<int>)
    requires Valid(s) && s.Fields? && OnlyLeapDays(s) && LeapDayTooFar(s, t) && LatestSince(s, t, Horizon(s), r)
    ensures r.None? && exists o :: Occurs(s, o) && o <= t
  {
    ScanIsExact(s, t, r);
    var n := LastLeapDay(LastStartDay(s, t));
    LeapDaysMatch(s, n);
    var o := StartsBy(s, t, n);
  }

  /** Midnight of 29 and 30 February, whatever the weekday. */
  const FEBRUARY_LIST := Fields([0], [0], [29, 30], [2], [0, 1, 2, 3, 4, 5, 6], false, true)

  lemma FebruaryList()
    ensures Valid(FEBRUARY_LIST) && OnlyLeapDays(FEBRUARY_LIST) && Horizon(FEBRUARY_LIST) == 366
  {
    assert 2 in FEBRUARY_LIST.months && 29 in FEBRUARY_LIST.dom;
  }

  lemma NewYear2026() returns (t: int)
    ensures t == At(Number(Date(2026, 1, 1)), 0, 0) && DateOf(DayOf(t)).y == 2026
  {
    t := At(Number(Date(2026, 1, 1)), 0, 0);
    TimeParts(Number(Date(2026, 1, 1)), 0, 0);
    DateOfNumber(Date(2026, 1, 1));
  }

  /** For one: on New Year's Day 2026 the scan of `0 0 29,30 2 *` finds nothing. */
  lemma FebruaryListMisses(r: Option<int>)
    requires Valid(FEBRUARY_LIST) && LatestSince(FEBRUARY_LIST, At(Number(Date(2026, 1, 1)), 0, 0), 366, r)
    ensures r.None? && exists o :: Occurs(FEBRUARY_LIST, o) && o <= At(Number(Date(2026, 1, 1)), 0, 0)
  {
    FebruaryList();
    var t := NewYear2026();
    MixedListMisses(FEBRUARY_LIST, t);
    ScanMisses(FEBRUARY_LIST, t, r);
  }
}
