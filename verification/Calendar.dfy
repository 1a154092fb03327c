/** Business time: working minutes and working days between two instants. */
module Calendar {
  // An instant is a number of seconds since 1970-01-01 00:00 UTC; a date is its day number.

  datatype WorkCalendar = WorkCalendar(workdays: set<int>, startMin: int, endMin: int, holidays: set<int>,
                                       extra: set<int>)

  const DAY: int := 86400
  const MAX_DAYS: int := 4000

  /** Sunday is 0; 1970-01-01 was a Thursday. */
  function Weekday(date: int): int {
    (date + 4) % 7
  }

  /** Holidays outweigh both the weekly pattern and the extra dates; those two add up. */
  predicate IsWorkday(c: WorkCalendar, date: int) {
    date !in c.holidays && (Weekday(date) in c.workdays || date in c.extra)
  }

  /** The working window lies within one day. */
  predicate WithinDay(c: WorkCalendar) {
    0 <= c.startMin && c.endMin <= 1440
  }

  // ---- what counts ------------------------------------------------------------------

  /** Minute m runs from second 60m to second 60(m + 1). */
  predicate WorkingMinute(c: WorkCalendar, m: int) {
    IsWorkday(c, m / 1440) && c.startMin <= m % 1440 < c.endMin
  }

  function WorkingMinutes(c: WorkCalendar, a: int, b: int): nat
    decreases b - a
  {
    if a >= b then 0
    else WorkingMinutes(c, a, b - 1) + if WorkingMinute(c, b - 1) then 1 else 0
  }

  function WorkingDays(c: WorkCalendar, a: int, b: int): nat
    decreases b - a
  {
    if a >= b then 0
    else WorkingDays(c, a, b - 1) + if IsWorkday(c, b - 1) then 1 else 0
  }

  lemma {:induction false} MinutesSplit(c: WorkCalendar, a: int, b: int, e: int)
    requires a <= b <= e
    ensures WorkingMinutes(c, a, e) == WorkingMinutes(c, a, b) + WorkingMinutes(c, b, e)
    decreases e - b
  {
    if b < e {
      MinutesSplit(c, a, b, e - 1);
    }
  }

  lemma {:induction false} DaysSplit(c: WorkCalendar, a: int, b: int, e: int)
    requires a <= b <= e
    ensures WorkingDays(c, a, e) == WorkingDays(c, a, b) + WorkingDays(c, b, e)
    decreases e - b
  {
    if b < e {
      DaysSplit(c, a, b, e - 1);
    }
  }

  function Max(a: int, b: int): int { if a > b then a else b }

  function Min(a: int, b: int): int { if a < b then a else b }

  /** Within one date the working minutes are one clipped interval. */
  lemma {:induction false} MinutesWithinDay(c: WorkCalendar, date: int, a: int, b: int)
    requires WithinDay(c) && date * 1440 <= a <= b <= (date + 1) * 1440
    ensures WorkingMinutes(c, a, b) ==
      if IsWorkday(c, date) then Max(0, Min(b, date * 1440 + c.endMin) - Max(a, date * 1440 + c.startMin)) else 0
    decreases b - a
  {
    if a < b {
      MinutesWithinDay(c, date, a, b - 1);
      assert (b - 1) / 1440 == date && (b - 1) % 1440 == b - 1 - date * 1440;
    }
  }

  // ---- the loops ------------------------------------------------------------------------

  function Midnight(t: int): int { t / DAY * DAY }

  /** What one date contributes: its window clipped to the interval, in whole minutes. */
  function DatePart(c: WorkCalendar, from: int, to: int, date: int): nat {
    var s := Max(from, date * DAY + c.startMin * 60);
    var e := Min(to, date * DAY + c.endMin * 60);
    if IsWorkday(c, date) && e > s then (e - s) / 60 else 0
  }

  /** The contributions of at most n dates, up to the end of the interval. */
  function Parts(c: WorkCalendar, from: int, to: int, date: int, n: nat): nat
    decreases n
  {
    if n == 0 || date * DAY >= to then 0
    else DatePart(c, from, to, date) + Parts(c, from, to, date + 1, n - 1)
  }

  function BusinessMinutes(c: WorkCalendar, from: int, to: int): nat {
    if to <= from then 0 else Parts(c, from, to, from / DAY, MAX_DAYS)
  }

  lemma PartsStep(c: WorkCalendar, from: int, to: int, date: int, n: nat)
    ensures n == 0 || date * DAY >= to ==> Parts(c, from, to, date, n) == 0
    ensures n > 0 && date * DAY < to ==>
      Parts(c, from, to, date, n) == DatePart(c, from, to, date) + Parts(c, from, to, date + 1, n - 1)
  {
  }

  method BusinessMinutesBetween(c: WorkCalendar, from: int, to: int) returns (total: int)
    ensures total == BusinessMinutes(c, from, to)
  {
    hide Parts;
    if to <= from {
      return 0;
    }
    total := 0;
    var day := Midnight(from);
    var guard := 0;
    while day < to && guard < MAX_DAYS
      invariant 0 <= guard <= MAX_DAYS && day == (from / DAY + guard) * DAY
      invariant total + Parts(c, from, to, from / DAY + guard, MAX_DAYS - guard) == BusinessMinutes(c, from, to)
      decreases MAX_DAYS - guard
    {
      PartsStep(c, from, to, from / DAY + guard, MAX_DAYS - guard);
      assert day / DAY == from / DAY + guard;
      if IsWorkday(c, day / DAY) {
        var s, e := day + c.startMin * 60, day + c.endMin * 60;
        if from > s {
          s := from;
        }
        if to < e {
          e := to;
        }
        if e > s {
          total := total + (e - s) / 60;
        }
      }
      day := day + DAY;
      guard := guard + 1;
    }
    PartsStep(c, from, to, from / DAY + guard, MAX_DAYS - guard);
  }

  /** The last minute a count starting at minute a can reach: the loop gives up after 4000 dates. */
  function Horizon(a: int): int { (a / 1440 + MAX_DAYS) * 1440 }

  lemma WholeDatePart(c: WorkCalendar, a: int, b: int, date: int)
    ensures DatePart(c, a * 60, b * 60, date) ==
      if IsWorkday(c, date) then Max(0, Min(b, date * 1440 + c.endMin) - Max(a, date * 1440 + c.startMin)) else 0
  {
    assert date * DAY + c.startMin * 60 == (date * 1440 + c.startMin) * 60;
    assert date * DAY + c.endMin * 60 == (date * 1440 + c.endMin) * 60;
  }

  lemma {:induction false} PartsAreMinutes(c: WorkCalendar, a: int, b: int, date: int, n: nat)
    requires WithinDay(c) && a < b && a / 1440 <= date
    ensures Parts(c, a * 60, b * 60, date, n) ==
      WorkingMinutes(c, Max(a, Min(b, date * 1440)), Min(b, (date + n) * 1440))
    decreases n
  {
    if n > 0 && date * 1440 < b {
      var low, mid, high := Max(a, date * 1440), Min(b, (date + 1) * 1440), Min(b, (date + n) * 1440);
      PartsAreMinutes(c, a, b, date + 1, n - 1);
      WholeDatePart(c, a, b, date);
      MinutesWithinDay(c, date, low, mid);
      MinutesSplit(c, low, mid, high);
    }
  }

  /** Between whole minutes the count is exact: every working minute of the interval, up to the horizon. */
  lemma WholeMinutesExact(c: WorkCalendar, a: int, b: int)
    requires WithinDay(c)
    ensures BusinessMinutes(c, a * 60, b * 60) == WorkingMinutes(c, a, Min(b, Horizon(a)))
  {
    hide Parts;
    if a < b {
      assert a * 60 / DAY == a / 1440;
      PartsAreMinutes(c, a, b, a / 1440, MAX_DAYS);
    }
  }

  method BusinessDaysBetween(c: WorkCalendar, from: int, to: int) returns (count: int)
    ensures count == BusinessDays(c, from / DAY, to / DAY)
    ensures to / DAY <= from / DAY + MAX_DAYS ==> count == WorkingDays(c, from / DAY + 1, to / DAY + 1)
  {
    count := 0;
    if to <= from {
      assert to / DAY <= from / DAY;
      return;
    }
    var day, end := Midnight(from) + DAY, Midnight(to);
    var guard := 0;
    while day <= end && guard < MAX_DAYS
      invariant 0 <= guard <= MAX_DAYS && day == Midnight(from) + (guard + 1) * DAY
      invariant guard <= to / DAY - from / DAY
      invariant count == WorkingDays(c, from / DAY + 1, from / DAY + 1 + guard)
      decreases MAX_DAYS - guard
    {
      assert day / DAY == from / DAY + 1 + guard;
      if IsWorkday(c, day / DAY) {
        count := count + 1;
      }
      day := day + DAY;
      guard := guard + 1;
    }
  }

  // ---- additivity --------------------------------------------------------------------------

  lemma HorizonGrows(a: int, b: int)
    requires a <= b
    ensures Horizon(a) <= Horizon(b)
  {
  }

  /** Splitting a whole-minute interval anywhere: the parts count the working minutes the whole leaves out
      because they lie past its horizon, and nothing else is counted twice or lost. */
  lemma SplitMinutes(c: WorkCalendar, a: int, b: int, e: int)
    requires WithinDay(c) && a <= b <= e
    ensures BusinessMinutes(c, a * 60, b * 60) + BusinessMinutes(c, b * 60, e * 60) ==
      BusinessMinutes(c, a * 60, e * 60) + WorkingMinutes(c, Max(b, Min(e, Horizon(a))), Min(e, Horizon(b)))
  {
    hide BusinessMinutes, Horizon, WorkingMinutes;
    HorizonGrows(a, b);
    WholeMinutesExact(c, a, b);
    WholeMinutesExact(c, b, e);
    WholeMinutesExact(c, a, e);
    if b <= Horizon(a) {
      MinutesSplit(c, a, b, Min(e, Horizon(a)));
      MinutesSplit(c, b, Min(e, Horizon(a)), Min(e, Horizon(b)));
    }
  }

  /** So consecutive whole-minute intervals add up exactly when no working minute lies between the two horizons. */
  lemma MinutesAddIff(c: WorkCalendar, a: int, b: int, e: int)
    requires WithinDay(c) && a <= b <= e
    ensures BusinessMinutes(c, a * 60, b * 60) + BusinessMinutes(c, b * 60, e * 60) ==
      BusinessMinutes(c, a * 60, e * 60)
      <==> forall m :: Max(b, Min(e, Horizon(a))) <= m < Min(e, Horizon(b)) ==> !WorkingMinute(c, m)
    ensures e <= Horizon(a) ==>
      BusinessMinutes(c, a * 60, b * 60) + BusinessMinutes(c, b * 60, e * 60) == BusinessMinutes(c, a * 60, e * 60)
  {
    hide BusinessMinutes, Horizon;
    HorizonGrows(a, b);
    SplitMinutes(c, a, b, e);
    NoneWorking(c, Max(b, Min(e, Horizon(a))), Min(e, Horizon(b)));
  }

  lemma {:induction false} NoneWorking(c: WorkCalendar, a: int, b: int)
    ensures WorkingMinutes(c, a, b) == 0 <==> forall m :: a <= m < b ==> !WorkingMinute(c, m)
    decreases b - a
  {
    if a < b {
      NoneWorking(c, a, b - 1);
      if forall m :: a <= m < b - 1 ==> !WorkingMinute(c, m) {
        assert WorkingMinute(c, b - 1) <==> !(forall m :: a <= m < b ==> !WorkingMinute(c, m));
      }
    }
  }

  // ---- splitting at any second ---------------------------------------------------------------

  /** The working seconds of one date inside an interval. */
  function WindowSeconds(c: WorkCalendar, from: int, to: int, date: int): nat {
    if IsWorkday(c, date) then Max(0, Min(to, date * DAY + c.endMin * 60) - Max(from, date * DAY + c.startMin * 60))
      else 0
  }

  /** Whether the two parts of a date's window, each rounded down to minutes, miss one minute of the whole. */
  predicate LosesMinute(c: WorkCalendar, a: int, b: int, e: int) {
    WindowSeconds(c, a, b, b / DAY) % 60 + WindowSeconds(c, b, e, b / DAY) % 60 >= 60
  }

  /** Splitting an interval at any second: the parts miss a minute exactly when the leftover seconds of the split
      date's two parts make one, and they count what lies past the whole interval's horizon. */
  lemma SplitAnywhere(c: WorkCalendar, a: int, b: int, e: int)
    requires WithinDay(c) && a <= b <= e
    ensures var k := b / DAY - a / DAY;
      && (k < MAX_DAYS ==>
            BusinessMinutes(c, a, b) + BusinessMinutes(c, b, e) + (if LosesMinute(c, a, b, e) then 1 else 0) ==
            BusinessMinutes(c, a, e) + Parts(c, b, e, a / DAY + MAX_DAYS, k))
      && (k >= MAX_DAYS ==> BusinessMinutes(c, a, b) == BusinessMinutes(c, a, e))
  {
    BusinessMinutesIs(c, a, b);
    BusinessMinutesIs(c, b, e);
    BusinessMinutesIs(c, a, e);
    hide Parts, BusinessMinutes, LosesMinute, WindowSeconds;
    var da, db := a / DAY, b / DAY;
    var k := db - da;
    if k < MAX_DAYS {
      PartsSplit(c, a, b, da, k, MAX_DAYS);
      PartsSplit(c, a, e, da, k, MAX_DAYS);
      PartsEarlier(c, a, b, e, da, k);
      SplitFirst(c, a, b, e);
      SplitTail(c, a, b, e, k);
    } else {
      PartsEarlier(c, a, b, e, da, MAX_DAYS);
    }
  }

  /** Within the horizon, splitting at any second keeps the total exactly when the leftover seconds of the split
      date's two parts do not make a minute. */
  lemma SplitAddsIff(c: WorkCalendar, a: int, b: int, e: int)
    requires WithinDay(c) && a <= b <= e <= (a / DAY + MAX_DAYS) * DAY
    ensures BusinessMinutes(c, a, b) + BusinessMinutes(c, b, e) == BusinessMinutes(c, a, e) <==>
      !LosesMinute(c, a, b, e)
  {
    hide BusinessMinutes, LosesMinute;
    SplitAnywhere(c, a, b, e);
    var k := b / DAY - a / DAY;
    if k < MAX_DAYS {
      PartsStep(c, b, e, a / DAY + MAX_DAYS, k);
    } else {
      assert b == e == (a / DAY + MAX_DAYS) * DAY;
      NothingLost(c, a, b);
      BusinessMinutesIs(c, b, e);
    }
  }

  lemma BusinessMinutesIs(c: WorkCalendar, from: int, to: int)
    ensures from <= to ==> BusinessMinutes(c, from, to) == Parts(c, from, to, from / DAY, MAX_DAYS)
    ensures from == to ==> BusinessMinutes(c, from, to) == 0
  {
    hide Parts;
    PartsStep(c, from, to, from / DAY, MAX_DAYS);
    PartsStep(c, from, to, from / DAY + 1, MAX_DAYS - 1);
  }

  lemma NothingLost(c: WorkCalendar, a: int, b: int)
    requires a <= b && b % DAY == 0 && WithinDay(c)
    ensures !LosesMinute(c, a, b, b)
  {
  }

  lemma {:induction false} PartsSplit(c: WorkCalendar, from: int, to: int, date: int, k: nat, n: nat)
    requires k <= n
    ensures Parts(c, from, to, date, n) == Parts(c, from, to, date, k) + Parts(c, from, to, date + k, n - k)
    decreases k
  {
    if k > 0 && date * DAY < to {
      PartsSplit(c, from, to, date + 1, k - 1, n - 1);
    } else if k > 0 {
      PartsStep(c, from, to, date + k, n - k);
    }
  }

  /** Dates that end before b contribute the same to any interval that reaches b. */
  lemma {:induction false} PartsEarlier(c: WorkCalendar, a: int, b: int, e: int, date: int, n: nat)
    requires WithinDay(c) && b <= e && (date + n) * DAY <= b
    ensures Parts(c, a, b, date, n) == Parts(c, a, e, date, n)
    decreases n
  {
    if n > 0 {
      PartsEarlier(c, a, b, e, date + 1, n - 1);
    }
  }

  /** Dates that start after b contribute the same to any interval that starts before. */
  lemma {:induction false} PartsLater(c: WorkCalendar, a: int, b: int, e: int, date: int, n: nat)
    requires WithinDay(c) && a <= b <= date * DAY
    ensures Parts(c, a, e, date, n) == Parts(c, b, e, date, n)
    decreases n
  {
    if n > 0 {
      PartsLater(c, a, b, e, date + 1, n - 1);
    }
  }

  /** The split date itself. */
  lemma SplitFirst(c: WorkCalendar, a: int, b: int, e: int)
    requires WithinDay(c) && a <= b <= e
    ensures DatePart(c, a, b, b / DAY) + DatePart(c, b, e, b / DAY) + (if LosesMinute(c, a, b, e) then 1 else 0) ==
      DatePart(c, a, e, b / DAY)
  {
    var p, q := WindowSeconds(c, a, b, b / DAY), WindowSeconds(c, b, e, b / DAY);
    assert DatePart(c, a, b, b / DAY) == p / 60;
    assert DatePart(c, b, e, b / DAY) == q / 60;
    assert DatePart(c, a, e, b / DAY) == (p + q) / 60;
  }

  /** From the split date on. */
  lemma SplitTail(c: WorkCalendar, a: int, b: int, e: int, k: nat)
    requires WithinDay(c) && a <= b <= e && k == b / DAY - a / DAY < MAX_DAYS
    ensures Parts(c, a, b, b / DAY, MAX_DAYS - k) == DatePart(c, a, b, b / DAY)
    ensures Parts(c, a, e, b / DAY, MAX_DAYS - k) + Parts(c, b, e, a / DAY + MAX_DAYS, k) +
      DatePart(c, b, e, b / DAY) ==
      DatePart(c, a, e, b / DAY) + Parts(c, b, e, b / DAY, MAX_DAYS)
  {
    hide Parts;
    var db := b / DAY;
    PartsStep(c, a, b, db, MAX_DAYS - k);
    PartsStep(c, a, b, db + 1, MAX_DAYS - k - 1);
    PartsStep(c, a, e, db, MAX_DAYS - k);
    PartsStep(c, b, e, db, MAX_DAYS);
    if db * DAY < e {
      PartsSplit(c, b, e, db + 1, MAX_DAYS - k - 1, MAX_DAYS - 1);
      PartsLater(c, a, b, e, db + 1, MAX_DAYS - k - 1);
    } else {
      PartsStep(c, b, e, a / DAY + MAX_DAYS, k);
    }
  }

  // ---- days -----------------------------------------------------------------------------------

  /** What businessDaysBetween returns for instants on two dates. */
  function BusinessDays(c: WorkCalendar, a: int, b: int): nat {
    WorkingDays(c, a + 1, Min(b, a + MAX_DAYS) + 1)
  }

  /** Consecutive day counts add up but for the working dates past the whole interval's 4000. */
  lemma SplitDays(c: WorkCalendar, a: int, b: int, e: int)
    requires a <= b <= e
    ensures BusinessDays(c, a, b) + BusinessDays(c, b, e) ==
      BusinessDays(c, a, e) + WorkingDays(c, Max(b, Min(e, a + MAX_DAYS)) + 1, Min(e, b + MAX_DAYS) + 1)
  {
    hide WorkingDays;
    if b <= a + MAX_DAYS {
      DaysSplit(c, a + 1, b + 1, Min(e, a + MAX_DAYS) + 1);
      DaysSplit(c, b + 1, Min(e, a + MAX_DAYS) + 1, Min(e, b + MAX_DAYS) + 1);
    }
  }

  lemma DaysAddIff(c: WorkCalendar, a: int, b: int, e: int)
    requires a <= b <= e
    ensures BusinessDays(c, a, b) + BusinessDays(c, b, e) == BusinessDays(c, a, e)
      <==> forall d :: Max(b, Min(e, a + MAX_DAYS)) < d <= Min(e, b + MAX_DAYS) ==> !IsWorkday(c, d)
    ensures e <= a + MAX_DAYS ==> BusinessDays(c, a, b) + BusinessDays(c, b, e) == BusinessDays(c, a, e)
  {
    hide BusinessDays;
    SplitDays(c, a, b, e);
    NoneWorked(c, Max(b, Min(e, a + MAX_DAYS)) + 1, Min(e, b + MAX_DAYS) + 1);
  }

  lemma {:induction false} NoneWorked(c: WorkCalendar, a: int, b: int)
    ensures WorkingDays(c, a, b) == 0 <==> forall d :: a <= d < b ==> !IsWorkday(c, d)
    decreases b - a
  {
    if a < b {
      NoneWorked(c, a, b - 1);
    }
  }

  // ---- what is counted ---------------------------------------------------------------------------

  /** The weekday of a date, Sunday being 0: Thursday, the first of January 1970, is a number of weeks away. */
  predicate FallsOn(date: int, weekday: int) {
    0 <= weekday < 7 && (date - (weekday - 4)) % 7 == 0
  }

  /** Not a holiday, and on a weekday of the calendar or one of its extra dates. */
  ghost predicate WorkDate(c: WorkCalendar, date: int) {
    date !in c.holidays && (date in c.extra || exists k <- c.workdays :: FallsOn(date, k))
  }

  /** Minutes are counted from 1970 on: a date has 1440 of them. */
  ghost predicate Works(c: WorkCalendar, m: int) {
    WorkDate(c, m / 1440) && c.startMin <= m - 1440 * (m / 1440) < c.endMin
  }

  lemma WorkdayIs(c: WorkCalendar, date: int)
    ensures IsWorkday(c, date) <==> WorkDate(c, date)
    ensures Weekday(0) == 4 && Weekday(19723) == 1 && FallsOn(date, Weekday(date))
  {
    forall k ensures FallsOn(date, k) <==> k == Weekday(date) {
    }
  }

  lemma MinuteIs(c: WorkCalendar, m: int)
    ensures WorkingMinute(c, m) <==> Works(c, m)
  {
    WorkdayIs(c, m / 1440);
    hide IsWorkday, WorkDate;
  }

  lemma {:induction false} MinutesAreCounted(c: WorkCalendar, a: int, b: int)
    ensures WorkingMinutes(c, a, b) == |set m | a <= m < b && Works(c, m)|
    decreases b - a
  {
    hide Works, WorkingMinute;
    if a < b {
      MinutesAreCounted(c, a, b - 1);
      MinuteIs(c, b - 1);
      var less := set m | a <= m < b - 1 && Works(c, m);
      assert (set m | a <= m < b && Works(c, m)) == less + if Works(c, b - 1) then {b - 1} else {};
    } else {
      assert (set m | a <= m < b && Works(c, m)) == {};
    }
  }

  lemma {:induction false} DaysAreCounted(c: WorkCalendar, a: int, b: int)
    ensures WorkingDays(c, a, b) == |set d | a <= d < b && WorkDate(c, d)|
    decreases b - a
  {
    hide WorkDate, IsWorkday;
    if a < b {
      DaysAreCounted(c, a, b - 1);
      WorkdayIs(c, b - 1);
      var less := set d | a <= d < b - 1 && WorkDate(c, d);
      assert (set d | a <= d < b && WorkDate(c, d)) == less + if WorkDate(c, b - 1) then {b - 1} else {};
    } else {
      assert (set d | a <= d < b && WorkDate(c, d)) == {};
    }
  }

  /** Between whole minutes, business time is the number of minutes that work, in the 4000 dates from the first. */
  lemma BusinessMinutesAre(c: WorkCalendar, a: int, b: int)
    requires WithinDay(c)
    ensures BusinessMinutes(c, a * 60, b * 60) ==
      |set m | a <= m < b && m < (a / 1440 + 4000) * 1440 && Works(c, m)|
  {
    hide Works, BusinessMinutes, WorkingMinutes;
    var end := Min(b, Horizon(a));
    WholeMinutesExact(c, a, b);
    MinutesAreCounted(c, a, end);
    assert (set m | a <= m < end && Works(c, m)) ==
      (set m | a <= m < b && m < (a / 1440 + 4000) * 1440 && Works(c, m));
  }

  /** Business days are the work dates after the first one, up to the last, of 4000 dates at most. */
  lemma BusinessDaysAre(c: WorkCalendar, a: int, b: int)
    ensures BusinessDays(c, a, b) == |set d | a < d <= b && d <= a + 4000 && WorkDate(c, d)|
  {
    hide WorkDate, WorkingDays;
    DaysAreCounted(c, a + 1, Min(b, a + MAX_DAYS) + 1);
    assert (set d | a + 1 <= d < Min(b, a + MAX_DAYS) + 1 && WorkDate(c, d)) ==
      (set d | a < d <= b && d <= a + 4000 && WorkDate(c, d));
  }
}
