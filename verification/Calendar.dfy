/**
 The proleptic Gregorian calendar of the JavaScript Date object (ECMA-262 section 21.4.1).

 An instant is a number of milliseconds since 1970-01-01T00:00:00Z, a day number is an instant divided by
 MS_PER_DAY rounded down, and months count from 0.
 */
module Calendar {

  const MS_PER_DAY: int := 86_400_000

  function DayOf(t: int): int {
    t / MS_PER_DAY
  }

  function TimeWithinDay(t: int): int {
    t % MS_PER_DAY
  }

  predicate IsLeapYear(y: int) {
    y % 4 == 0 && (y % 100 != 0 || y % 400 == 0)
  }

  function DaysInYear(y: int): int {
    if IsLeapYear(y) then 366 else 365
  }

  function DayFromYear(y: int): int {
    365 * (y - 1970) + (y - 1969) / 4 - (y - 1901) / 100 + (y - 1601) / 400
  }

  lemma YearStep(y: int)
    ensures DayFromYear(y + 1) == DayFromYear(y) + DaysInYear(y)
  {
    FloorStep(y - 1969, 4);
    FloorStep(y - 1901, 100);
    FloorStep(y - 1601, 400);
  }

  lemma FloorStep(n: int, d: int)
    requires d == 4 || d == 100 || d == 400
    ensures (n + 1) / d == n / d + (if (n + 1) % d == 0 then 1 else 0)
  {
  }

  lemma {:induction false} YearsIncrease(y: int, z: int)
    requires y < z
    ensures DayFromYear(y) + 365 * (z - y) <= DayFromYear(z)
    decreases z - y
  {
    YearStep(z - 1);
    if y == z - 1 {
    } else {
      YearsIncrease(y, z - 1);
    }
  }

  /** A year is 365.2425 days on average, so this guess is at most one year off. */
  function YearGuess(day: int): int {
    1970 + 400 * day / 146_097
  }

  lemma YearGuessIsClose(day: int)
    ensures DayFromYear(YearGuess(day) - 1) <= day < DayFromYear(YearGuess(day) + 2)
  {
  }

  /** The year that contains a day: the last one that starts no later. */
  function YearOf(day: int): (y: int)
    ensures DayFromYear(y) <= day < DayFromYear(y + 1)
  {
    YearGuessIsClose(day);
    hide DayFromYear, YearGuess;
    var g := YearGuess(day);
    if day < DayFromYear(g) then g - 1 else if day < DayFromYear(g + 1) then g else g + 1
  }

  function DaysBeforeMonth(m: int, leap: bool): int
    requires 0 <= m <= 12
  {
    var n := if leap then 1 else 0;
    match m
    case 0 => 0
    case 1 => 31
    case 2 => 59 + n
    case 3 => 90 + n
    case 4 => 120 + n
    case 5 => 151 + n
    case 6 => 181 + n
    case 7 => 212 + n
    case 8 => 243 + n
    case 9 => 273 + n
    case 10 => 304 + n
    case 11 => 334 + n
    case _ => 365 + n
  }

  function DaysInMonth(y: int, m: int): int
    requires 0 <= m < 12
  {
    DaysBeforeMonth(m + 1, IsLeapYear(y)) - DaysBeforeMonth(m, IsLeapYear(y))
  }

  function FirstOfMonth(y: int, m: int): int
    requires 0 <= m < 12
  {
    DayFromYear(y) + DaysBeforeMonth(m, IsLeapYear(y))
  }

  /** A civil date; `date` counts from 1. */
  datatype Civil = Civil(year: int, month: int, date: int) {
    predicate Valid() {
      0 <= month < 12 && 1 <= date <= DaysInMonth(year, month)
    }
  }

  function DayOfCivil(c: Civil): int
    requires c.Valid()
  {
    FirstOfMonth(c.year, c.month) + c.date - 1
  }

  function MonthFromDayInYear(d: int, leap: bool): (m: int)
    requires 0 <= d < (if leap then 366 else 365)
    ensures 0 <= m < 12 && DaysBeforeMonth(m, leap) <= d < DaysBeforeMonth(m + 1, leap)
  {
    if d < DaysBeforeMonth(1, leap) then 0
    else if d < DaysBeforeMonth(2, leap) then 1
    else if d < DaysBeforeMonth(3, leap) then 2
    else if d < DaysBeforeMonth(4, leap) then 3
    else if d < DaysBeforeMonth(5, leap) then 4
    else if d < DaysBeforeMonth(6, leap) then 5
    else if d < DaysBeforeMonth(7, leap) then 6
    else if d < DaysBeforeMonth(8, leap) then 7
    else if d < DaysBeforeMonth(9, leap) then 8
    else if d < DaysBeforeMonth(10, leap) then 9
    else if d < DaysBeforeMonth(11, leap) then 10
    else 11
  }

  /** The civil date of a day number. */
  function CivilOf(day: int): (c: Civil)
    ensures c.Valid() && DayOfCivil(c) == day
  {
    hide DayFromYear, YearGuess;
    var y := YearOf(day);
    YearStep(y);
    var m := MonthFromDayInYear(day - DayFromYear(y), IsLeapYear(y));
    Civil(y, m, day - FirstOfMonth(y, m) + 1)
  }

  /** Days are ordered as their civil years are. */
  lemma YearOfUnique(day: int, y: int)
    requires DayFromYear(y) <= day < DayFromYear(y + 1)
    ensures YearOf(day) == y
  {
    var z := YearOf(day);
    if y < z {
      if y + 1 < z { YearsIncrease(y + 1, z); }
    } else if z < y {
      if z + 1 < y { YearsIncrease(z + 1, y); }
    }
  }

  lemma MonthUnique(d: int, leap: bool, m: int)
    requires 0 <= d < (if leap then 366 else 365)
    requires 0 <= m < 12 && DaysBeforeMonth(m, leap) <= d < DaysBeforeMonth(m + 1, leap)
    ensures MonthFromDayInYear(d, leap) == m
  {
  }

  /** Every valid civil date is the date of its own day number, so CivilOf and DayOfCivil are inverse bijections. */
  lemma CivilRoundTrip(c: Civil)
    requires c.Valid()
    ensures CivilOf(DayOfCivil(c)) == c
  {
    hide DayFromYear, YearGuess, YearOf, MonthFromDayInYear;
    var day := DayOfCivil(c);
    YearStep(c.year);
    assert 0 <= DaysBeforeMonth(c.month, IsLeapYear(c.year)) <= day - DayFromYear(c.year) < DaysInYear(c.year) by {
      assert DaysBeforeMonth(c.month + 1, IsLeapYear(c.year)) <= DaysInYear(c.year);
    }
    YearOfUnique(day, c.year);
    MonthUnique(day - DayFromYear(c.year), IsLeapYear(c.year), c.month);
  }

  /** The lengths of the months, February one day longer in years divisible by 4, except 3 of 4 centuries. */
  lemma MonthLengths(y: int, m: int)
    requires 0 <= m < 12
    ensures DaysInMonth(y, m)
            == [31, 28, 31, 30, 31, 30, 31, 31, 30, 31, 30, 31][m]
               + (if m == 1 && y % 4 == 0 && (y % 100 != 0 || y % 400 == 0) then 1 else 0)
  {
  }

  /** The date after a date, by counting. */
  function NextDate(c: Civil): Civil
    requires c.Valid()
  {
    if c.date < DaysInMonth(c.year, c.month) then Civil(c.year, c.month, c.date + 1)
    else if c.month < 11 then Civil(c.year, c.month + 1, 1)
    else Civil(c.year + 1, 0, 1)
  }

  lemma NextDateIsNext(c: Civil)
    requires c.Valid()
    ensures NextDate(c).Valid() && DayOfCivil(NextDate(c)) == DayOfCivil(c) + 1
  {
    YearStep(c.year);
    hide DayFromYear, IsLeapYear;
  }

  /** The calendar is the one that counts dates, one day after the other, from 1 January 1970. */
  lemma CalendarCounts(day: int)
    ensures CivilOf(0) == Civil(1970, 0, 1)
    ensures CivilOf(day + 1) == NextDate(CivilOf(day))
  {
    hide *;
    Epoch();
    CivilRoundTrip(Civil(1970, 0, 1));
    var c := CivilOf(day);
    NextDateIsNext(c);
    CivilRoundTrip(NextDate(c));
  }

  lemma Epoch()
    ensures Civil(1970, 0, 1).Valid() && DayOfCivil(Civil(1970, 0, 1)) == 0
  {
  }

  /** 0 is Sunday, 1 is Monday: 1970-01-01 was a Thursday. */
  function WeekDay(day: int): int {
    (day + 4) % 7
  }

  /* ---------------------------------------------------------------------- */
  /* Making a day number from date components                                */
  /* ---------------------------------------------------------------------- */

  /** MakeDay: months outside 0..11 carry into the year, dates outside the month carry into the day number. */
  function MakeDay(y: int, m: int, date: int): int {
    FirstOfMonth(y + m / 12, m % 12) + date - 1
  }

  /** MakeDate. */
  function MakeTime(day: int, timeWithinDay: int): int {
    day * MS_PER_DAY + timeWithinDay
  }

  function SetUtcMonth(t: int, month: int): int {
    var c := CivilOf(DayOf(t));
    MakeTime(MakeDay(c.year, month, c.date), TimeWithinDay(t))
  }

  function SetUtcFullYear(t: int, year: int): int {
    var c := CivilOf(DayOf(t));
    MakeTime(MakeDay(year, c.month, c.date), TimeWithinDay(t))
  }
}
