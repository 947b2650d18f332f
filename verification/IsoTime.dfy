/** Date.prototype.toISOString (ECMA-262 section 21.4.4.36). */
module IsoTime {
  import opened Calendar
  import opened Text
  import opened Wrappers

  predicate IsIsoChar(c: char) {
    IsDigit(c) || c == '+' || c == '-' || c == ':' || c == '.' || c == 'T' || c == 'Z'
  }

  /** Only digits and the signs of the format appear, so no separator of another format does. */
  predicate IsIsoText(s: string) {
    forall i :: 0 <= i < |s| ==> IsIsoChar(s[i])
  }

  function Padded(n: nat, width: nat): (s: string)
    ensures IsIsoText(s)
  {
    PadStart(Decimal(n), width)
  }

  function YearText(y: int): (s: string)
    ensures IsIsoText(s)
  {
    if 0 <= y <= 9999 then Padded(y, 4) else if y < 0 then "-" + Padded(-y, 6) else "+" + Padded(y, 6)
  }

  function DateText(c: Civil): (s: string)
    requires c.Valid()
    ensures IsIsoText(s)
  {
    YearText(c.year) + "-" + Padded(c.month + 1, 2) + "-" + Padded(c.date, 2)
  }

  function TimeText(time: int): (s: string)
    requires 0 <= time < MS_PER_DAY
    ensures IsIsoText(s)
  {
    Padded(time / 3_600_000, 2) + ":" + Padded(time / 60_000 % 60, 2) + ":"
    + Padded(time / 1000 % 60, 2) + "." + Padded(time % 1000, 3)
  }

  function IsoString(t: int): (s: string)
    ensures IsIsoText(s)
  {
    hide CivilOf, DateText, TimeText;
    DateText(CivilOf(DayOf(t))) + "T" + TimeText(TimeWithinDay(t)) + "Z"
  }

  /* ---------------------------------------------------------------------- */
  /* Reading                                                                */
  /* ---------------------------------------------------------------------- */

  function ReadNumber(s: string): nat {
    if AllDigits(s) then DecimalValue(s) else 0
  }

  function ReadYear(s: string): int {
    if s == "" then 0
    else if s[0] == '-' then 0 - ReadNumber(s[1..])
    else if s[0] == '+' then ReadNumber(s[1..])
    else ReadNumber(s)
  }

  /** Four digits, or a sign and six digits or more for the years that do not fit. */
  predicate IsYear(y: string) {
    if |y| == 4 then AllDigits(y) else |y| >= 7 && (y[0] == '-' || y[0] == '+') && AllDigits(y[1..])
  }

  /** The signs after the year: -MM-DDTHH:mm:ss.sssZ. */
  predicate IsFormat(rest: string) {
    |rest| == 20 && rest[0] == '-' && rest[3] == '-' && rest[6] == 'T' && rest[9] == ':' && rest[12] == ':'
    && rest[15] == '.' && rest[19] == 'Z'
  }

  /** The year is whatever comes before the last twenty characters, which have fixed positions. */
  function ReadIso(s: string): Option<int> {
    if |s| < 20 then None
    else
      var y, rest := s[..|s| - 20], s[|s| - 20..];
      var c := Civil(ReadYear(y), ReadNumber(rest[1..3]) - 1, ReadNumber(rest[4..6]));
      if !IsYear(y) || !IsFormat(rest) || !c.Valid() then None
      else
        Some(MakeTime(DayOfCivil(c),
                      3_600_000 * ReadNumber(rest[7..9]) + 60_000 * ReadNumber(rest[10..12])
                      + 1000 * ReadNumber(rest[13..15]) + ReadNumber(rest[16..19])))
  }

  lemma PaddedReads(n: nat, width: nat)
    ensures ReadNumber(Padded(n, width)) == n && AllDigits(Padded(n, width)) && |Padded(n, width)| >= width
    ensures width == 2 && n < 100 ==> |Padded(n, width)| == 2
    ensures width == 3 && n < 1000 ==> |Padded(n, width)| == 3
    ensures width == 4 && n < 10_000 ==> |Padded(n, width)| == 4
  {
    hide Decimal, DecimalValue;
    PaddedRoundTrip(n, width);
    assert PowerOfTen(2) == 100 && PowerOfTen(3) == 1000 && PowerOfTen(4) == 10_000;
    if width == 2 && n < 100 { DecimalLength(n, 2); }
    if width == 3 && n < 1000 { DecimalLength(n, 3); }
    if width == 4 && n < 10_000 { DecimalLength(n, 4); }
  }

  lemma YearReads(y: int)
    ensures ReadYear(YearText(y)) == y && IsYear(YearText(y))
  {
    hide Padded, ReadNumber;
    var s := YearText(y);
    if y < 0 {
      PaddedReads(-y, 6);
      assert s[1..] == Padded(-y, 6);
    } else if y <= 9999 {
      PaddedReads(y, 4);
      assert IsDigit(s[0]);
    } else {
      PaddedReads(y, 6);
      assert s[1..] == Padded(y, 6);
    }
  }

  /** Reading a text whose parts are known. */
  lemma PartsRead(y: string, month: string, date: string, hour: string, minute: string, second: string, milli: string)
    requires |month| == |date| == |hour| == |minute| == |second| == 2 && |milli| == 3 && IsYear(y)
    requires Civil(ReadYear(y), ReadNumber(month) - 1, ReadNumber(date)).Valid()
    ensures ReadIso(y + ("-" + month + "-" + date + "T" + (hour + ":" + minute + ":" + second + "." + milli) + "Z"))
            == Some(MakeTime(DayOfCivil(Civil(ReadYear(y), ReadNumber(month) - 1, ReadNumber(date))),
                             3_600_000 * ReadNumber(hour) + 60_000 * ReadNumber(minute)
                             + 1000 * ReadNumber(second) + ReadNumber(milli)))
  {
    hide ReadNumber, ReadYear, DayOfCivil, DaysBeforeMonth, IsYear;
    var rest := Positions(month, date, hour, minute, second, milli);
    var s := y + rest;
    assert s[..|s| - 20] == y && s[|s| - 20..] == rest;
  }

  /** The printed instant is the instant: two documents that print the same time were issued at the same time. */
  lemma IsoReadsBack(t: int)
    ensures ReadIso(IsoString(t)) == Some(t)
  {
    hide CivilOf, DayOfCivil, YearText, Padded, ReadNumber, ReadYear, ReadIso, DaysBeforeMonth, IsYear;
    var c, time := CivilOf(DayOf(t)), TimeWithinDay(t);
    DateBounds(c);
    YearReads(c.year);
    PaddedReads(c.month + 1, 2);
    PaddedReads(c.date, 2);
    PaddedReads(time / 3_600_000, 2);
    PaddedReads(time / 60_000 % 60, 2);
    PaddedReads(time / 1000 % 60, 2);
    PaddedReads(time % 1000, 3);
    PartsRead(YearText(c.year), Padded(c.month + 1, 2), Padded(c.date, 2), Padded(time / 3_600_000, 2),
              Padded(time / 60_000 % 60, 2), Padded(time / 1000 % 60, 2), Padded(time % 1000, 3));
    ClockParts(time);
    IsoParts(t);
  }

  lemma DateBounds(c: Civil)
    requires c.Valid()
    ensures 1 <= c.date <= 31
  {
  }

  lemma IsoParts(t: int)
    ensures var c, time := CivilOf(DayOf(t)), TimeWithinDay(t);
            IsoString(t)
            == YearText(c.year)
               + ("-" + Padded(c.month + 1, 2) + "-" + Padded(c.date, 2) + "T"
                  + (Padded(time / 3_600_000, 2) + ":" + Padded(time / 60_000 % 60, 2) + ":"
                     + Padded(time / 1000 % 60, 2) + "." + Padded(time % 1000, 3)) + "Z")
  {
    hide CivilOf, YearText, Padded;
  }

  /** Where the parts are, counted from the end of the year. */
  lemma Positions(month: string, date: string, hour: string, minute: string, second: string, milli: string)
    returns (rest: string)
    requires |month| == |date| == |hour| == |minute| == |second| == 2 && |milli| == 3
    ensures rest == "-" + month + "-" + date + "T" + (hour + ":" + minute + ":" + second + "." + milli) + "Z"
    ensures |rest| == 20 && rest[1..3] == month && rest[4..6] == date
    ensures rest[7..9] == hour && rest[10..12] == minute && rest[13..15] == second && rest[16..19] == milli
    ensures IsFormat(rest)
  {
    rest := "-" + month + "-" + date + "T" + (hour + ":" + minute + ":" + second + "." + milli) + "Z";
  }

  lemma ClockParts(time: int)
    ensures time == 3_600_000 * (time / 3_600_000) + 60_000 * (time / 60_000 % 60) + 1000 * (time / 1000 % 60)
            + time % 1000
  {
    assert time / 60_000 == time / 1000 / 60 && time / 3_600_000 == time / 60_000 / 60;
  }
}
