/** Billing periods (billing.rules.ts): what one interval adds to an instant. */
module BillingRules {
  import opened Calendar

  datatype BillingInterval = Monthly | Yearly

  function AddInterval(t: int, interval: BillingInterval): int {
    if interval.Yearly?
    then SetUtcFullYear(t, CivilOf(DayOf(t)).year + 1)
    else SetUtcMonth(t, CivilOf(DayOf(t)).month + 1)
  }

  /** A mutable Date holding a time value. */
  class JsDate {
    var time: int

    constructor (time: int)
      ensures this.time == time
    {
      this.time := time;
    }

    method SetMonth(month: int)
      modifies this
      ensures time == SetUtcMonth(old(time), month)
    {
      var c := CivilOf(DayOf(time));
      time := MakeTime(MakeDay(c.year, month, c.date), TimeWithinDay(time));
    }

    method SetFullYear(year: int)
      modifies this
      ensures time == SetUtcFullYear(old(time), year)
    {
      var c := CivilOf(DayOf(time));
      time := MakeTime(MakeDay(year, c.month, c.date), TimeWithinDay(time));
    }
  }

  /** Works on a copy: the argument keeps its time, because nothing but the copy is modified. */
  method AddIntervalToDate(date: JsDate, interval: BillingInterval) returns (next: JsDate)
    ensures fresh(next)
    ensures next.time == AddInterval(date.time, interval)
  {
    hide CivilOf, SetUtcMonth, SetUtcFullYear;
    next := new JsDate(date.time);
    var c := CivilOf(DayOf(next.time));
    if interval.Yearly? {
      next.SetFullYear(c.year + 1);
    } else {
      next.SetMonth(c.month + 1);
    }
  }

  /* ---------------------------------------------------------------------- */
  /* Months numbered consecutively                                          */
  /* ---------------------------------------------------------------------- */

  function FirstOfIndex(k: int): int {
    FirstOfMonth(k / 12, k % 12)
  }

  function LengthOfIndex(k: int): int {
    DaysInMonth(k / 12, k % 12)
  }

  function MonthIndexOf(day: int): (k: int)
    ensures FirstOfIndex(k) <= day < FirstOfIndex(k) + LengthOfIndex(k)
  {
    hide CivilOf, DayFromYear, DaysBeforeMonth;
    var c := CivilOf(day);
    IndexParts(c.year, c.month);
    12 * c.year + c.month
  }

  lemma IndexParts(y: int, m: int)
    requires 0 <= m < 12
    ensures (12 * y + m) / 12 == y && (12 * y + m) % 12 == m
  {
  }

  lemma MonthStep(k: int)
    ensures FirstOfIndex(k + 1) == FirstOfIndex(k) + LengthOfIndex(k)
    ensures 28 <= LengthOfIndex(k) <= 31
  {
    YearStep(k / 12);
    hide DayFromYear, IsLeapYear;
    var y, m := k / 12, k % 12;
    if m < 11 {
      assert (k + 1) / 12 == y && (k + 1) % 12 == m + 1;
    } else {
      assert (k + 1) / 12 == y + 1 && (k + 1) % 12 == 0;
    }
  }

  /** The date components of a day, in terms of its month index. */
  lemma CivilByIndex(day: int)
    ensures var k := MonthIndexOf(day);
            CivilOf(day) == Civil(k / 12, k % 12, day - FirstOfIndex(k) + 1)
    ensures MonthIndexOf(day) == 12 * CivilOf(day).year + CivilOf(day).month
  {
    hide YearOf, DayFromYear, DaysBeforeMonth, MonthFromDayInYear, IsLeapYear;
    var c := CivilOf(day);
    IndexParts(c.year, c.month);
  }

  lemma MakeDayByIndex(y: int, m: int, date: int)
    ensures MakeDay(y, m, date) == FirstOfIndex(12 * y + m) + date - 1
  {
    hide FirstOfMonth;
    assert (12 * y + m) / 12 == y + m / 12 && (12 * y + m) % 12 == m % 12;
  }

  lemma {:induction false} MonthsIncrease(j: int, k: int)
    requires j <= k
    ensures FirstOfIndex(j) <= FirstOfIndex(k)
    decreases k - j
  {
    if j == k {
    } else {
      MonthStep(k - 1);
      MonthsIncrease(j, k - 1);
    }
  }

  lemma MonthIndexUnique(day: int, k: int)
    requires FirstOfIndex(k) <= day < FirstOfIndex(k + 1)
    ensures MonthIndexOf(day) == k
  {
    hide MonthIndexOf, FirstOfIndex, LengthOfIndex;
    var j := MonthIndexOf(day);
    MonthStep(j);
    if j < k {
      MonthsIncrease(j + 1, k);
    } else if k < j {
      MonthsIncrease(k + 1, j);
    }
  }

  /* ---------------------------------------------------------------------- */
  /* What an interval adds                                                  */
  /* ---------------------------------------------------------------------- */

  /** A month later is as many days later as the starting instant's own month has. */
  lemma MonthlyAddsDaysOfMonth(t: int)
    ensures var c := CivilOf(DayOf(t));
            AddInterval(t, Monthly) == t + DaysInMonth(c.year, c.month) * MS_PER_DAY
    ensures TimeWithinDay(AddInterval(t, Monthly)) == TimeWithinDay(t)
  {
    hide CivilOf, FirstOfIndex, FirstOfMonth, DaysInMonth, MakeDay, MonthIndexOf;
    var c := CivilOf(DayOf(t));
    var k := MonthIndexOf(DayOf(t));
    CivilByIndex(DayOf(t));
    MakeDayByIndex(c.year, c.month + 1, c.date);
    MonthStep(k);
    assert MakeDay(c.year, c.month + 1, c.date) == DayOf(t) + LengthOfIndex(k);
  }

  /** A 29 February that is not before the first of c's month, and is before the first of that month a year later. */
  ghost predicate LeapDayInYearFrom(c: Civil, leapYear: int)
    requires c.Valid()
  {
    var leapDay := Civil(leapYear, 1, 29);
    && leapDay.Valid()
    && FirstOfMonth(c.year, c.month) <= DayOfCivil(leapDay) < FirstOfMonth(c.year + 1, c.month)
  }

  /** From the first of a month to the first of that month a year later there are 366 days or 365. */
  lemma YearFromMonth(c: Civil)
    requires c.Valid()
    ensures FirstOfMonth(c.year + 1, c.month) - FirstOfMonth(c.year, c.month)
            == if exists y :: LeapDayInYearFrom(c, y) then 366 else 365
  {
    YearStep(c.year);
    YearStep(c.year + 1);
    hide DayFromYear;
    var next := if c.month <= 1 then c.year else c.year + 1;
    assert IsLeapYear(next) ==> LeapDayInYearFrom(c, next);
    forall y | LeapDayInYearFrom(c, y)
      ensures y == next && IsLeapYear(next)
    {
      LeapDayYear(c, y);
    }
  }

  /** A year later is 366 days later exactly when a leap day lies in the year that starts with t's month. */
  lemma YearlyAddsLeapDay(t: int)
    ensures var c := CivilOf(DayOf(t));
            AddInterval(t, Yearly)
            == t + (if exists y :: LeapDayInYearFrom(c, y) then 366 else 365) * MS_PER_DAY
    ensures TimeWithinDay(AddInterval(t, Yearly)) == TimeWithinDay(t)
  {
    hide CivilOf, FirstOfMonth, LeapDayInYearFrom;
    var c := CivilOf(DayOf(t));
    YearFromMonth(c);
    var days := if exists y :: LeapDayInYearFrom(c, y) then 366 else 365;
    assert MakeDay(c.year + 1, c.month, c.date) == DayOf(t) + days by {
      assert (c.year + 1) + c.month / 12 == c.year + 1 && c.month % 12 == c.month;
    }
  }

  lemma LeapDayYear(c: Civil, y: int)
    requires c.Valid() && LeapDayInYearFrom(c, y)
    ensures y == if c.month <= 1 then c.year else c.year + 1
  {
    YearStep(y);
    YearStep(c.year);
    YearStep(c.year + 1);
    hide DayFromYear, IsLeapYear;
    if y < c.year {
      YearsIncrease(y, c.year);
      if y + 1 < c.year { YearsIncrease(y + 1, c.year); }
    } else if c.year + 1 < y {
      YearsIncrease(c.year + 1, y);
      if c.year + 2 < y { YearsIncrease(c.year + 2, y); }
    }
  }

  lemma MonthLength(c: Civil)
    requires c.Valid()
    ensures 28 <= DaysInMonth(c.year, c.month) <= 31
  {
  }

  lemma IntervalBounds(t: int, interval: BillingInterval)
    ensures t + 28 * MS_PER_DAY <= AddInterval(t, interval) <= t + 366 * MS_PER_DAY
    ensures interval.Monthly? ==> AddInterval(t, interval) <= t + 31 * MS_PER_DAY
  {
    hide CivilOf, AddInterval, LeapDayInYearFrom, DaysBeforeMonth;
    if interval.Monthly? {
      MonthlyAddsDaysOfMonth(t);
      MonthLength(CivilOf(DayOf(t)));
    } else {
      YearlyAddsLeapDay(t);
    }
  }

  function AddIntervals(t: int, interval: BillingInterval, n: nat): int
  {
    if n == 0 then t else AddInterval(AddIntervals(t, interval, n - 1), interval)
  }

  lemma {:induction false} AddIntervalFirst(t: int, n: nat)
    ensures AddIntervals(AddInterval(t, Monthly), Monthly, n) == AddIntervals(t, Monthly, n + 1)
  {
    hide AddInterval;
    if n == 0 {
    } else {
      AddIntervalFirst(t, n - 1);
    }
  }

  lemma {:induction false} MonthlyIterateBounds(t: int, n: nat)
    ensures t + 28 * n * MS_PER_DAY <= AddIntervals(t, Monthly, n) <= t + 31 * n * MS_PER_DAY
  {
    hide AddInterval;
    if n == 0 {
    } else {
      MonthlyIterateBounds(t, n - 1);
      IntervalBounds(AddIntervals(t, Monthly, n - 1), Monthly);
    }
  }

  /* ---------------------------------------------------------------------- */
  /* Month ends overflow, and so the order of instants can change           */
  /* ---------------------------------------------------------------------- */

  predicate FitsNextMonth(t: int) {
    var c := CivilOf(DayOf(t));
    c.date <= LengthOfIndex(12 * c.year + c.month + 1)
  }

  /** The result is the same date of the next month if there is one, and otherwise spills over into the month after. */
  lemma MonthlyOverflow(t: int)
    ensures var c := CivilOf(DayOf(t));
            var k := 12 * c.year + c.month + 1;
            CivilOf(DayOf(AddInterval(t, Monthly)))
            == if FitsNextMonth(t) then Civil(k / 12, k % 12, c.date)
               else Civil((k + 1) / 12, (k + 1) % 12, c.date - LengthOfIndex(k))
  {
    hide CivilOf, AddInterval, MonthIndexOf, FirstOfIndex, DaysInMonth;
    var c := CivilOf(DayOf(t));
    var k := 12 * c.year + c.month + 1;
    MonthlyAddsDaysOfMonth(t);
    CivilByIndex(DayOf(t));
    MonthStep(k - 1);
    MonthStep(k);
    MonthStep(k + 1);
    var later := DayOf(AddInterval(t, Monthly));
    assert later == DayOf(t) + LengthOfIndex(k - 1) == FirstOfIndex(k) + c.date - 1;
    MonthIndexUnique(later, if FitsNextMonth(t) then k else k + 1);
    CivilByIndex(later);
  }

  /** A month from 31 January, in any year, is in March. */
  lemma JanuaryThirtyFirst(y: int, time: int)
    requires 0 <= time < MS_PER_DAY
    ensures CivilOf(DayOf(AddInterval(MakeTime(DayOfCivil(Civil(y, 0, 31)), time), Monthly)))
            == Civil(y, 2, if IsLeapYear(y) then 2 else 3)
  {
    hide CivilOf, AddInterval, FirstOfMonth;
    CivilRoundTrip(Civil(y, 0, 31));
    var t := MakeTime(DayOfCivil(Civil(y, 0, 31)), time);
    assert DayOf(t) == DayOfCivil(Civil(y, 0, 31));
    MonthlyOverflow(t);
    IndexParts(y, 1);
    IndexParts(y, 2);
  }

  /** s is not past the first midnight that has no counterpart in the next month. */
  predicate BeforeOverflow(s: int) {
    var c := CivilOf(DayOf(s));
    FitsNextMonth(s) || (c.date == LengthOfIndex(12 * c.year + c.month + 1) + 1 && TimeWithinDay(s) == 0)
  }

  /**
   Adding a month keeps s no later than every later instant exactly when s is before the dates that overflow:
   of 30 January and 1 February, the first ends up later.
   */
  lemma MonthlyKeepsOrderIff(s: int)
    ensures (forall t :: s <= t ==> AddInterval(s, Monthly) <= AddInterval(t, Monthly)) <==> BeforeOverflow(s)
  {
    hide CivilOf, AddInterval, MonthIndexOf, FirstOfIndex, DaysInMonth, BeforeOverflow;
    if BeforeOverflow(s) {
      forall t | s <= t
        ensures AddInterval(s, Monthly) <= AddInterval(t, Monthly)
      {
        LaterStaysLater(s, t);
      }
    } else {
      var t := OvertakenBy(s);
    }
  }

  /** The first instant of the next month is later than s, and a month later it is earlier. */
  lemma OvertakenBy(s: int) returns (t: int)
    requires !BeforeOverflow(s)
    ensures s <= t && AddInterval(t, Monthly) < AddInterval(s, Monthly)
  {
    hide CivilOf, AddInterval, MonthIndexOf, FirstOfIndex, DaysInMonth;
    var k := MonthIndexOf(DayOf(s)) + 1;
    CivilByIndex(DayOf(s));
    MonthlyAddsDaysOfMonth(s);
    MonthStep(k - 1);
    MonthStep(k);
    t := FirstOfIndex(k) * MS_PER_DAY;
    DayOfMidnight(FirstOfIndex(k));
    MonthIndexUnique(DayOf(t), k);
    CivilByIndex(DayOf(t));
    MonthlyAddsDaysOfMonth(t);
    assert AddInterval(t, Monthly) == (FirstOfIndex(k) + LengthOfIndex(k)) * MS_PER_DAY;
  }

  lemma DayOfMidnight(day: int)
    ensures DayOf(day * MS_PER_DAY) == day && TimeWithinDay(day * MS_PER_DAY) == 0
  {
  }

  lemma LaterStaysLater(s: int, t: int)
    requires s <= t && BeforeOverflow(s)
    ensures AddInterval(s, Monthly) <= AddInterval(t, Monthly)
  {
    hide CivilOf, AddInterval, MonthIndexOf, FirstOfIndex, DaysInMonth;
    var j, k := MonthIndexOf(DayOf(s)), MonthIndexOf(DayOf(t));
    MonthlyAddsDaysOfMonth(s);
    CivilByIndex(DayOf(s));
    MonthStep(j);
    MonthStep(j + 1);
    assert AddInterval(s, Monthly) <= FirstOfIndex(j + 2) * MS_PER_DAY;
    LaterMonthLater(t, j);
    if j == k {
      MonthlyAddsDaysOfMonth(t);
      CivilByIndex(DayOf(t));
    } else if k < j {
      MonthStep(k);
      MonthsIncrease(k + 1, j);
    }
  }

  lemma LaterMonthLater(t: int, j: int)
    ensures j < MonthIndexOf(DayOf(t)) ==> FirstOfIndex(j + 2) * MS_PER_DAY <= AddInterval(t, Monthly)
  {
    hide CivilOf, AddInterval, MonthIndexOf, FirstOfIndex, DaysInMonth;
    var k := MonthIndexOf(DayOf(t));
    MonthlyAddsDaysOfMonth(t);
    CivilByIndex(DayOf(t));
    MonthStep(k);
    if j < k {
      MonthsIncrease(j + 2, k + 1);
    }
  }

  /** At any time of 31 January, in any year: the midnight after it is later, and a month later it is earlier. */
  lemma JanuaryOvertaken(y: int, time: int)
    requires 0 <= time < MS_PER_DAY
    ensures var s := MakeTime(DayOfCivil(Civil(y, 0, 31)), time);
            var t := MakeTime(DayOfCivil(Civil(y, 1, 1)), 0);
            s < t && AddInterval(t, Monthly) < AddInterval(s, Monthly)
  {
    var january, february := Civil(y, 0, 31), Civil(y, 1, 1);
    var d := DayOfCivil(january);
    assert DayOfCivil(february) == d + 1;
    CivilRoundTrip(january);
    CivilRoundTrip(february);
    assert DaysInMonth(y, 0) == 31 && DaysInMonth(y, 1) <= 29;
    hide AddInterval, CivilOf, DayOfCivil, DaysInMonth;
    MonthlyAddsDaysOfMonth(MakeTime(d, time));
    MonthlyAddsDaysOfMonth(MakeTime(d + 1, 0));
    DayOfTime(d, time);
    DayOfTime(d + 1, 0);
  }

  lemma DayOfTime(day: int, time: int)
    requires 0 <= time < MS_PER_DAY
    ensures DayOf(MakeTime(day, time)) == day && TimeWithinDay(MakeTime(day, time)) == time
  {
  }

  /* ---------------------------------------------------------------------- */
  /* Order of yearly periods                                                */
  /* ---------------------------------------------------------------------- */

  /** The day a year after a day. */
  function YearAfter(day: int): int {
    var c := CivilOf(day);
    MakeDay(c.year + 1, c.month, c.date)
  }

  predicate IsLeapDay(day: int) {
    CivilOf(day).month == 1 && CivilOf(day).date == 29
  }

  lemma YearAfterOf(t: int)
    ensures AddInterval(t, Yearly) == MakeTime(YearAfter(DayOf(t)), TimeWithinDay(t))
  {
    hide CivilOf, MakeDay;
  }

  lemma YearAfterCivil(c: Civil)
    requires c.Valid()
    ensures YearAfter(DayOfCivil(c)) == FirstOfMonth(c.year + 1, c.month) + c.date - 1
    ensures IsLeapDay(DayOfCivil(c)) <==> c.month == 1 && c.date == 29
  {
    CivilRoundTrip(c);
    hide CivilOf, DayOfCivil, FirstOfMonth;
    assert c.month / 12 == 0 && c.month % 12 == c.month;
  }

  lemma LeapYearsApart(y: int)
    requires IsLeapYear(y)
    ensures !IsLeapYear(y + 1)
  {
  }

  /** A month is shorter a year later only if it is a leap February, and then by one day. */
  lemma MonthYearLater(y: int, m: int)
    requires 0 <= m < 12
    ensures DaysInMonth(y + 1, m) + 1 >= DaysInMonth(y, m)
    ensures DaysInMonth(y + 1, m) + 1 == DaysInMonth(y, m) <==> m == 1 && DaysInMonth(y, m) == 29
  {
    if IsLeapYear(y) { LeapYearsApart(y); }
    hide IsLeapYear;
  }

  lemma MonthAfter(y: int, m: int)
    requires 0 <= m < 12
    ensures m < 11 ==> FirstOfMonth(y, m + 1) == FirstOfMonth(y, m) + DaysInMonth(y, m)
    ensures m == 11 ==> FirstOfMonth(y + 1, 0) == FirstOfMonth(y, m) + DaysInMonth(y, m)
    ensures 28 <= DaysInMonth(y, m) <= 31 && (m == 11 ==> DaysInMonth(y, m) == 31)
  {
    YearStep(y);
    hide DayFromYear, IsLeapYear;
  }

  /** The same two dates a year later are in order, and meet only if the first of them is 29 February. */
  lemma NextDateLater(c: Civil)
    requires c.Valid()
    ensures var n := NextDate(c);
            var gap := FirstOfMonth(n.year + 1, n.month) + n.date - FirstOfMonth(c.year + 1, c.month) - c.date;
            gap >= 0 && (gap == 0 <==> c.month == 1 && c.date == 29)
  {
    hide FirstOfMonth, DaysInMonth, DayFromYear, IsLeapYear, DaysBeforeMonth;
    MonthAfter(c.year, c.month);
    MonthAfter(c.year + 1, c.month);
    MonthYearLater(c.year, c.month);
    FebruaryLength(c);
  }

  lemma FebruaryLength(c: Civil)
    requires c.Valid()
    ensures c.month == 1 ==> DaysInMonth(c.year, c.month) <= 29
  {
    hide IsLeapYear;
  }

  /** Only a leap day and the day after it meet a year later. */
  lemma YearAfterStep(day: int)
    ensures YearAfter(day) <= YearAfter(day + 1)
    ensures YearAfter(day) == YearAfter(day + 1) <==> IsLeapDay(day)
  {
    var c := CivilOf(day);
    hide CivilOf, DayOfCivil, YearAfter, IsLeapDay, NextDate, FirstOfMonth;
    NextDateIsNext(c);
    YearAfterCivil(c);
    YearAfterCivil(NextDate(c));
    NextDateLater(c);
  }

  lemma {:induction false} YearAfterMonotone(day: int, later: int)
    requires day <= later
    ensures YearAfter(day) <= YearAfter(later)
    ensures day < later && !IsLeapDay(day) ==> YearAfter(day) < YearAfter(later)
    decreases later - day
  {
    hide YearAfter, IsLeapDay;
    if day == later {
    } else {
      YearAfterStep(day);
      YearAfterMonotone(day + 1, later);
    }
  }

  /** Adding a year keeps s no later than every later instant exactly when s is not on a leap day after midnight. */
  lemma YearlyKeepsOrderIff(s: int)
    ensures (forall t :: s <= t ==> AddInterval(s, Yearly) <= AddInterval(t, Yearly))
            <==> !(IsLeapDay(DayOf(s)) && TimeWithinDay(s) > 0)
  {
    if IsLeapDay(DayOf(s)) && TimeWithinDay(s) > 0 {
      LeapDayOvertaken(s);
    } else {
      forall t | s <= t
        ensures AddInterval(s, Yearly) <= AddInterval(t, Yearly)
      {
        YearlyInOrder(s, t);
      }
    }
  }

  /** The midnight after a leap day is later than its instants, and a year later it is earlier. */
  lemma LeapDayOvertaken(s: int)
    requires IsLeapDay(DayOf(s)) && TimeWithinDay(s) > 0
    ensures var t := MakeTime(DayOf(s) + 1, 0); s < t && AddInterval(t, Yearly) < AddInterval(s, Yearly)
  {
    hide AddInterval, YearAfter, IsLeapDay, DayOf, TimeWithinDay;
    var t := MakeTime(DayOf(s) + 1, 0);
    DayOfTime(DayOf(s) + 1, 0);
    TimeParts(s);
    YearAfterOf(s);
    YearAfterOf(t);
    YearAfterStep(DayOf(s));
  }

  lemma TimeParts(t: int)
    ensures t == MakeTime(DayOf(t), TimeWithinDay(t)) && 0 <= TimeWithinDay(t) < MS_PER_DAY
  {
  }

  lemma YearlyInOrder(s: int, t: int)
    requires s <= t && !(IsLeapDay(DayOf(s)) && TimeWithinDay(s) > 0)
    ensures AddInterval(s, Yearly) <= AddInterval(t, Yearly)
  {
    hide AddInterval, YearAfter, IsLeapDay;
    YearAfterOf(s);
    YearAfterOf(t);
    DaysInOrder(s, t);
    YearAfterMonotone(DayOf(s), DayOf(t));
  }

  lemma DaysInOrder(s: int, t: int)
    requires s <= t
    ensures DayOf(s) < DayOf(t) || (DayOf(s) == DayOf(t) && TimeWithinDay(s) <= TimeWithinDay(t))
  {
  }
}
