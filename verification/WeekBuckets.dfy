/** The weekly growth figures of the platform overview (monitoring.service.ts). */
module WeekBuckets {
  import opened Calendar

  const LUANDA_OFFSET_MS: int := 3_600_000
  const WEEKS: nat := 8

  /* ---------------------------------------------------------------------- */
  /* Luanda days and weeks                                                  */
  /* ---------------------------------------------------------------------- */

  /** How far the clocks of Africa/Luanda are ahead of UTC at an instant, as the time zone database has it. */
  type Zone = int -> int

  ghost predicate ValidZone(zone: Zone) {
    forall t :: -MS_PER_DAY < zone(t) < MS_PER_DAY
  }

  /** The day number on a Luanda calendar. */
  function LuandaDay(t: int, zone: Zone): int {
    DayOf(t + zone(t))
  }

  function LuandaDayKey(t: int, zone: Zone): Civil {
    CivilOf(LuandaDay(t, zone))
  }

  /** The same where the clocks are always one hour ahead, as the code's constant says. */
  function OneHourDay(t: int): int {
    DayOf(t + LUANDA_OFFSET_MS)
  }

  function OneHourMidnight(day: int): int {
    day * MS_PER_DAY - LUANDA_OFFSET_MS
  }

  /** The formatter prints the year of the era, so the year before year 1 prints as 1. */
  function PrintedYear(y: int): int {
    if y <= 0 then 1 - y else y
  }

  /** Date.UTC reads the years 0 to 99 as 1900 to 1999 (MakeFullYear). */
  function MakeFullYear(y: int): int {
    if 0 <= y <= 99 then 1900 + y else y
  }

  /** Prints the Luanda date and reads it back as a UTC date. */
  function FoundDay(t: int, zone: Zone): int {
    var c := LuandaDayKey(t, zone);
    MakeDay(MakeFullYear(PrintedYear(c.year)), c.month, c.date)
  }

  function LuandaDayStart(now: int, zone: Zone): int {
    MakeTime(FoundDay(now, zone), 0) - LUANDA_OFFSET_MS
  }

  function WeekStart(t: int, zone: Zone): int {
    var start := LuandaDayStart(t, zone);
    var weekday := WeekDay(DayOf(start + LUANDA_OFFSET_MS));
    start - (weekday + 6) % 7 * MS_PER_DAY
  }

  /** The same month and date of another year are about a year or more away. */
  lemma MakeDayInYear(y: int, c: Civil)
    requires c.Valid()
    ensures y == c.year ==> MakeDay(y, c.month, c.date) == DayOfCivil(c)
    ensures y < c.year ==> MakeDay(y, c.month, c.date) + 364 <= DayOfCivil(c)
    ensures c.year < y ==> DayOfCivil(c) + 364 <= MakeDay(y, c.month, c.date)
  {
    hide DayFromYear;
    assert (c.month / 12, c.month % 12) == (0, c.month);
    if y < c.year {
      YearsIncrease(y, c.year);
    } else if c.year < y {
      YearsIncrease(c.year, y);
    }
  }

  /** The day found is the printed one from the year 100 on, and about a year off or more before. */
  lemma FoundDayIff(t: int, zone: Zone)
    ensures LuandaDayKey(t, zone).year >= 100 ==> FoundDay(t, zone) == LuandaDay(t, zone)
    ensures LuandaDayKey(t, zone).year < 100 ==>
              FoundDay(t, zone) + 364 <= LuandaDay(t, zone) || LuandaDay(t, zone) + 364 <= FoundDay(t, zone)
  {
    hide CivilOf, MakeDay, FirstOfMonth, LuandaDay;
    var c := LuandaDayKey(t, zone);
    MakeDayInYear(MakeFullYear(PrintedYear(c.year)), c);
  }

  /** The clocks show midnight, at the start of this day. */
  predicate StartsDay(s: int, day: int, zone: Zone) {
    s + zone(s) == day * MS_PER_DAY
  }

  /** The code finds the start of the Luanda day exactly when its year is at least 100 and it starts one hour ahead. */
  lemma DayStartIff(now: int, zone: Zone)
    requires ValidZone(zone)
    ensures StartsDay(LuandaDayStart(now, zone), LuandaDay(now, zone), zone)
            <==> LuandaDayKey(now, zone).year >= 100
                 && zone(OneHourMidnight(LuandaDay(now, zone))) == LUANDA_OFFSET_MS
  {
    hide CivilOf, FoundDay, LuandaDay;
    FoundDayIff(now, zone);
    var s := LuandaDayStart(now, zone);
    assert -MS_PER_DAY < zone(s) < MS_PER_DAY;
  }

  /** The Monday that begins the week of a day. */
  function MondayOf(day: int): (m: int)
    ensures WeekDay(m) == 1 && m <= day < m + 7
  {
    day - (day + 3) % 7
  }

  lemma WeekStartFound(t: int, zone: Zone)
    ensures WeekStart(t, zone) == OneHourMidnight(MondayOf(FoundDay(t, zone)))
  {
    hide FoundDay;
    var found := FoundDay(t, zone);
    assert LuandaDayStart(t, zone) == OneHourMidnight(found);
    OneHourRoundTrip(found);
    DaysSinceMonday(found);
  }

  lemma DaysSinceMonday(day: int)
    ensures day - (WeekDay(day) + 6) % 7 == MondayOf(day)
  {
  }

  lemma OneHourRoundTrip(day: int)
    ensures OneHourDay(OneHourMidnight(day)) == day
  {
  }

  /** The date the clocks show is in the week that clocks one hour ahead are in. */
  predicate SameWeek(t: int, zone: Zone) {
    LuandaDayKey(t, zone).year >= 100 && MondayOf(LuandaDay(t, zone)) == MondayOf(OneHourDay(t))
  }

  lemma DaysClose(t: int, zone: Zone)
    requires ValidZone(zone)
    ensures OneHourDay(t) - 2 <= LuandaDay(t, zone) <= OneHourDay(t) + 2
  {
    assert -MS_PER_DAY < zone(t) < MS_PER_DAY;
  }

  /** The start of the week is the Monday of clocks one hour ahead exactly when the printed date is in that week. */
  lemma WeekStartIff(t: int, zone: Zone)
    requires ValidZone(zone)
    ensures WeekStart(t, zone) == OneHourMidnight(MondayOf(OneHourDay(t))) <==> SameWeek(t, zone)
  {
    hide CivilOf, FoundDay, LuandaDay, OneHourDay, WeekStart, MondayOf, ValidZone;
    WeekStartFound(t, zone);
    FoundDayIff(t, zone);
    DaysClose(t, zone);
    var found, fixed := FoundDay(t, zone), OneHourDay(t);
    assert MondayOf(found) == MondayOf(fixed) ==> -7 < found - fixed < 7;
  }

  /* ---------------------------------------------------------------------- */
  /* The eight windows                                                      */
  /* ---------------------------------------------------------------------- */

  /** The length of that many weeks. */
  function WeeksMs(weeks: int): int {
    weeks * 7 * MS_PER_DAY
  }

  datatype Bucket<K> = Bucket(key: K, from: int, to: int)

  datatype GrowthBucket<K> = GrowthBucket(title: K, count: nat)

  predicate Inside<K>(b: Bucket<K>, date: int) {
    b.from <= date < b.to
  }

  function WeekWindow(now: int, index: nat, zone: Zone): Bucket<Civil>
    requires index < WEEKS
  {
    var from := WeekStart(now - WeeksMs(7 - index), zone);
    Bucket(LuandaDayKey(from, zone), from, from + 7 * MS_PER_DAY)
  }

  function WeekWindows(now: int, zone: Zone): (windows: seq<Bucket<Civil>>)
    ensures |windows| == WEEKS
  {
    seq(WEEKS, index requires 0 <= index < WEEKS => WeekWindow(now, index, zone))
  }

  /** Midnight of a Luanda Monday. */
  predicate StartsMonday(s: int, zone: Zone) {
    WeekDay(LuandaDay(s, zone)) == 1 && StartsDay(s, LuandaDay(s, zone), zone)
  }

  /** The windows are consecutive Luanda weeks with distinct keys, and `now` is in the last. */
  predicate Tiles(now: int, zone: Zone) {
    var w := WeekWindows(now, zone);
    && (forall i :: 0 <= i < WEEKS ==> StartsMonday(w[i].from, zone) && w[i].to == w[i].from + 7 * MS_PER_DAY)
    && (forall i :: 0 <= i < WEEKS ==> w[i].from == w[0].from + WeeksMs(i))
    && (forall i, j :: 0 <= i < WEEKS && 0 <= j < WEEKS && i != j ==> w[i].key != w[j].key)
    && Inside(w[WEEKS - 1], now)
  }

  /** The Monday `weeks` weeks before the week of `now`, where the clocks are one hour ahead. */
  function MondayBefore(now: int, weeks: nat): int {
    MondayOf(OneHourDay(now)) - 7 * weeks
  }

  /** The zone is one hour ahead as far as the window `weeks` weeks back can tell. */
  predicate AgreesAt(now: int, weeks: nat, zone: Zone) {
    && SameWeek(now - WeeksMs(weeks), zone)
    && zone(OneHourMidnight(MondayBefore(now, weeks))) == LUANDA_OFFSET_MS
  }

  predicate ZoneAgrees(now: int, zone: Zone) {
    forall weeks :: 0 <= weeks < WEEKS ==> AgreesAt(now, weeks, zone)
  }

  lemma DayShift(now: int, days: int)
    ensures OneHourDay(now - days * MS_PER_DAY) == OneHourDay(now) - days
  {
    var t := now + LUANDA_OFFSET_MS;
    assert now - days * MS_PER_DAY + LUANDA_OFFSET_MS == t - days * MS_PER_DAY;
    assert t == OneHourDay(now) * MS_PER_DAY + t % MS_PER_DAY;
  }

  lemma MondayShift(day: int, weeks: int)
    ensures MondayOf(day - 7 * weeks) == MondayOf(day) - 7 * weeks
  {
  }

  /** Where the week that many weeks back starts, if the zone agrees: where the fixed offset says. */
  lemma WeekBefore(now: int, weeks: nat, zone: Zone)
    requires ValidZone(zone)
    ensures WeekStart(now - WeeksMs(weeks), zone) == OneHourMidnight(MondayBefore(now, weeks))
            <==> SameWeek(now - WeeksMs(weeks), zone)
  {
    hide SameWeek, OneHourMidnight, WeekStart, MondayOf, OneHourDay, ValidZone;
    WeekStartIff(now - WeeksMs(weeks), zone);
    DayShift(now, weeks * 7);
    MondayShift(OneHourDay(now), weeks);
  }

  lemma MondayStarts(monday: int, zone: Zone)
    requires WeekDay(monday) == 1 && ValidZone(zone)
    ensures StartsMonday(OneHourMidnight(monday), zone) <==> zone(OneHourMidnight(monday)) == LUANDA_OFFSET_MS
    ensures StartsMonday(OneHourMidnight(monday), zone) ==> LuandaDay(OneHourMidnight(monday), zone) == monday
  {
    var s := OneHourMidnight(monday);
    assert -MS_PER_DAY < zone(s) < MS_PER_DAY;
  }

  lemma MondayBeforeIsMonday(now: int, weeks: nat)
    ensures WeekDay(MondayBefore(now, weeks)) == 1
    ensures OneHourMidnight(MondayBefore(now, weeks)) + 7 * MS_PER_DAY == OneHourMidnight(MondayBefore(now, weeks) + 7)
  {
    hide MondayOf, OneHourDay;
    var monday := MondayOf(OneHourDay(now));
    assert WeekDay(monday) == 1;
  }

  lemma WindowIsWeek(now: int, index: nat, zone: Zone)
    requires index < WEEKS && ValidZone(zone) && AgreesAt(now, 7 - index, zone)
    ensures var monday := MondayBefore(now, 7 - index);
            && WeekWindow(now, index, zone)
               == Bucket(CivilOf(monday), OneHourMidnight(monday), OneHourMidnight(monday) + 7 * MS_PER_DAY)
            && StartsMonday(OneHourMidnight(monday), zone)
  {
    hide CivilOf, WeekStart, SameWeek, OneHourMidnight, StartsMonday, MondayBefore, ValidZone, LuandaDay;
    WeekBefore(now, 7 - index, zone);
    MondayBeforeIsMonday(now, 7 - index);
    MondayStarts(MondayBefore(now, 7 - index), zone);
  }

  lemma NowInItsWeek(now: int)
    ensures var monday := MondayBefore(now, 0);
            OneHourMidnight(monday) <= now < OneHourMidnight(monday) + 7 * MS_PER_DAY
  {
    var day, monday := OneHourDay(now), MondayOf(OneHourDay(now));
    assert OneHourMidnight(day) <= now < OneHourMidnight(day) + MS_PER_DAY;
    hide MondayOf;
    assert monday <= day <= monday + 6;
  }

  lemma WindowsTile(now: int, zone: Zone)
    requires ValidZone(zone) && ZoneAgrees(now, zone)
    ensures Tiles(now, zone)
  {
    hide CivilOf, WeekWindow, MondayOf, OneHourDay, StartsMonday, AgreesAt, ValidZone;
    var w := WeekWindows(now, zone);
    var monday := MondayBefore(now, 7);
    forall i | 0 <= i < WEEKS
      ensures w[i] == Bucket(CivilOf(monday + 7 * i), OneHourMidnight(monday + 7 * i),
                             OneHourMidnight(monday + 7 * i) + 7 * MS_PER_DAY)
      ensures StartsMonday(w[i].from, zone)
    {
      assert AgreesAt(now, 7 - i, zone);
      WindowIsWeek(now, i, zone);
    }
    forall i, j | 0 <= i < WEEKS && 0 <= j < WEEKS && i != j
      ensures w[i].key != w[j].key
    {
      assert DayOfCivil(CivilOf(monday + 7 * i)) != DayOfCivil(CivilOf(monday + 7 * j));
    }
    NowInItsWeek(now);
  }

  lemma MondayFromRange(day: int, monday: int)
    requires WeekDay(monday) == 1 && monday <= day < monday + 7
    ensures MondayOf(day) == monday
  {
  }

  /** A Monday whose week contains `now` is the Monday of the week of `now`. */
  lemma MondayIsUnique(now: int, monday: int)
    requires WeekDay(monday) == 1 && OneHourMidnight(monday) <= now < OneHourMidnight(monday) + 7 * MS_PER_DAY
    ensures MondayOf(OneHourDay(now)) == monday
  {
    hide WeekDay, MondayOf;
    var day := OneHourDay(now);
    assert day * MS_PER_DAY <= now + LUANDA_OFFSET_MS < day * MS_PER_DAY + MS_PER_DAY;
    MondayFromRange(day, monday);
  }

  lemma WeeksBack(weeks: nat)
    requires weeks < WEEKS
    ensures WeeksMs(7 - weeks) == WeeksMs(7) - WeeksMs(weeks) && WeeksMs(0) == 0
  {
  }

  lemma TilesAt(now: int, zone: Zone, index: nat)
    requires index < WEEKS && Tiles(now, zone)
    ensures var from := WeekWindow(now, index, zone).from;
            && StartsMonday(from, zone) && from == WeekWindow(now, 0, zone).from + WeeksMs(index)
            && Inside(WeekWindow(now, 7, zone), now)
  {
    hide WeekWindow, StartsMonday, WeeksMs, LuandaDayKey, CivilOf;
    var w := WeekWindows(now, zone);
    assert w[index] == WeekWindow(now, index, zone);
  }

  lemma WindowStarts(now: int, zone: Zone, weeks: nat)
    requires weeks < WEEKS && Tiles(now, zone)
    ensures var last := WeekStart(now, zone);
            && WeekStart(now - WeeksMs(weeks), zone) == last - WeeksMs(weeks)
            && StartsMonday(last - WeeksMs(weeks), zone)
            && last <= now < last + 7 * MS_PER_DAY
  {
    hide WeekStart, StartsMonday, WeeksMs, Tiles, LuandaDayKey, CivilOf;
    WeeksBack(weeks);
    TilesAt(now, zone, 7 - weeks);
    TilesAt(now, zone, 7);
  }

  /** Windows that tile are the weeks that clocks one hour ahead give. */
  lemma TilesAgree(now: int, zone: Zone, weeks: nat)
    requires ValidZone(zone) && weeks < WEEKS && Tiles(now, zone)
    ensures AgreesAt(now, weeks, zone)
  {
    hide Tiles, WeekStart, SameWeek, StartsMonday, ValidZone, MondayOf, OneHourDay;
    WindowStarts(now, zone, weeks);
    WeekStartFound(now, zone);
    hide FoundDay;
    MondayIsUnique(now, MondayOf(FoundDay(now, zone)));
    assert WeekStart(now, zone) - WeeksMs(weeks) == OneHourMidnight(MondayBefore(now, weeks));
    WeekBefore(now, weeks, zone);
    MondayBeforeIsMonday(now, weeks);
    MondayStarts(MondayBefore(now, weeks), zone);
  }

  /**
   The windows are the eight Luanda weeks up to `now` exactly when the zone is one hour ahead where they start and
   shows dates of the same weeks at the instants they are computed from.
   */
  lemma WindowsTileIff(now: int, zone: Zone)
    requires ValidZone(zone)
    ensures Tiles(now, zone) <==> ZoneAgrees(now, zone)
  {
    hide Tiles, AgreesAt, ValidZone;
    if ZoneAgrees(now, zone) {
      WindowsTile(now, zone);
    }
    if Tiles(now, zone) {
      forall weeks | 0 <= weeks < WEEKS
        ensures AgreesAt(now, weeks, zone)
      {
        TilesAgree(now, zone, weeks);
      }
    }
  }

  /** From nine weeks after a zone settles on one hour ahead the windows are right, whatever it was before. */
  lemma TilesSince(start: int, now: int, zone: Zone)
    requires ValidZone(zone) && forall t :: t >= start ==> zone(t) == LUANDA_OFFSET_MS
    requires start >= DayFromYear(100) * MS_PER_DAY && now >= start + 9 * 7 * MS_PER_DAY
    ensures Tiles(now, zone)
  {
    forall weeks | 0 <= weeks < WEEKS
      ensures AgreesAt(now, weeks, zone)
    {
      AgreesSince(start, now, zone, weeks);
    }
    hide AgreesAt, ValidZone, Tiles;
    WindowsTile(now, zone);
  }

  lemma AgreesSince(start: int, now: int, zone: Zone, weeks: nat)
    requires weeks < WEEKS && forall t :: t >= start ==> zone(t) == LUANDA_OFFSET_MS
    requires start >= DayFromYear(100) * MS_PER_DAY && now >= start + 9 * 7 * MS_PER_DAY
    ensures AgreesAt(now, weeks, zone)
  {
    hide DayFromYear, CivilOf, MondayOf;
    var t := now - WeeksMs(weeks);
    assert t >= start && LuandaDay(t, zone) == OneHourDay(t) >= DayFromYear(100);
    YearAtLeast(OneHourDay(t), 100);
    NowInItsWeek(now);
    hide OneHourDay, LuandaDay;
    assert OneHourMidnight(MondayBefore(now, weeks)) == OneHourMidnight(MondayBefore(now, 0)) - WeeksMs(weeks);
    assert OneHourMidnight(MondayBefore(now, weeks)) >= start;
  }

  lemma YearsIncreaseWeakly(y: int, z: int)
    requires y <= z
    ensures DayFromYear(y) <= DayFromYear(z)
  {
    hide DayFromYear;
    if y < z { YearsIncrease(y, z); }
  }

  lemma YearAtLeast(day: int, y: int)
    requires DayFromYear(y) <= day
    ensures CivilOf(day).year >= y
  {
    hide DayFromYear, MonthFromDayInYear, YearOf, FirstOfMonth;
    var z := CivilOf(day).year;
    if z < y { YearsIncreaseWeakly(z + 1, y); }
  }

  /**
   Before the zone was one hour ahead they can miss: on Sunday 6 January 1850 at 23:05 UTC, clocks less than 55 minutes
   ahead still show that Sunday, and the last window ends at 23:00 UTC.
   */
  lemma MeanTimeMisses(zone: Zone)
    requires ValidZone(zone)
    requires 0 <= zone(MakeTime(DayOfCivil(Civil(1850, 0, 6)), 83_100_000)) < 3_300_000
    ensures !Tiles(MakeTime(DayOfCivil(Civil(1850, 0, 6)), 83_100_000), zone)
  {
    var day := DayOfCivil(Civil(1850, 0, 6));
    var now := MakeTime(day, 83_100_000);
    assert day == -43_824 && WeekDay(day) == 0;
    assert LuandaDay(now, zone) == day && OneHourDay(now) == day + 1;
    assert !SameWeek(now, zone);
    assert WeeksMs(0) == 0;
    assert !AgreesAt(now, 0, zone);
    hide Tiles, ValidZone, AgreesAt;
    WindowsTileIff(now, zone);
  }

  /* ---------------------------------------------------------------------- */
  /* Counting                                                               */
  /* ---------------------------------------------------------------------- */

  /** How many of the dates fall in [from, to). */
  function CountIn(dates: seq<int>, from: int, to: int): nat {
    if dates == [] then 0
    else
      var n := |dates| - 1;
      CountIn(dates[..n], from, to) + (if from <= dates[n] < to then 1 else 0)
  }

  /** The first bucket a date is inside of, or the number of buckets if there is none. */
  function FirstHit<K>(buckets: seq<Bucket<K>>, date: int): (r: nat)
    ensures r <= |buckets|
    ensures forall j :: 0 <= j < r ==> !Inside(buckets[j], date)
    ensures r < |buckets| ==> Inside(buckets[r], date)
  {
    if buckets == [] || Inside(buckets[0], date) then 0 else 1 + FirstHit(buckets[1..], date)
  }

  predicate HitsKey<K(==)>(buckets: seq<Bucket<K>>, date: int, key: K) {
    var r := FirstHit(buckets, date);
    r < |buckets| && buckets[r].key == key
  }

  /** How many of the dates have `key` on the first bucket they are inside of. */
  function CountKey<K(==)>(dates: seq<int>, buckets: seq<Bucket<K>>, key: K): nat {
    if dates == [] then 0
    else
      var n := |dates| - 1;
      CountKey(dates[..n], buckets, key) + (if HitsKey(buckets, dates[n], key) then 1 else 0)
  }

  lemma FirstHitIs<K>(buckets: seq<Bucket<K>>, date: int, k: nat)
    requires k <= |buckets|
    requires forall j :: 0 <= j < k ==> !Inside(buckets[j], date)
    requires k < |buckets| ==> Inside(buckets[k], date)
    ensures FirstHit(buckets, date) == k
  {
    var r := FirstHit(buckets, date);
  }

  /** One counter for each key, right for the dates seen so far. */
  ghost predicate Counted<K>(counts: map<K, nat>, seen: seq<int>, buckets: seq<Bucket<K>>) {
    && (forall i :: 0 <= i < |buckets| ==> buckets[i].key in counts)
    && (forall k :: k in counts ==> counts[k] == CountKey(seen, buckets, k))
  }

  lemma CountOneMore<K>(counts: map<K, nat>, dates: seq<int>, d: nat, buckets: seq<Bucket<K>>, hit: nat)
    requires d < |dates| && hit <= |buckets| && Counted(counts, dates[..d], buckets)
    requires forall j :: 0 <= j < hit ==> !Inside(buckets[j], dates[d])
    requires hit < |buckets| ==> Inside(buckets[hit], dates[d])
    ensures hit < |buckets| ==>
              Counted(counts[buckets[hit].key := counts[buckets[hit].key] + 1], dates[..d + 1], buckets)
    ensures hit == |buckets| ==> Counted(counts, dates[..d + 1], buckets)
  {
    FirstHitIs(buckets, dates[d], hit);
    hide FirstHit, Inside;
    assert dates[..d + 1][..d] == dates[..d];
  }

  /** The nested loops with their early exit, over one counter for each key. */
  method Bucketize<K(==)>(dates: seq<int>, buckets: seq<Bucket<K>>) returns (growth: seq<GrowthBucket<K>>)
    ensures |growth| == |buckets|
    ensures forall i :: 0 <= i < |buckets| ==> growth[i].title == buckets[i].key
    ensures forall i :: 0 <= i < |buckets| ==> growth[i].count == CountKey(dates, buckets, buckets[i].key)
  {
    hide HitsKey, Inside;
    var counts: map<K, nat> := map b | b in buckets :: b.key := 0;
    assert forall i :: 0 <= i < |buckets| ==> buckets[i] in buckets;
    for d := 0 to |dates|
      invariant Counted(counts, dates[..d], buckets)
    {
      ghost var before := counts;
      var hit := |buckets|;
      for i := 0 to |buckets|
        invariant forall j :: 0 <= j < i ==> !Inside(buckets[j], dates[d])
        invariant counts == before && hit == |buckets|
      {
        if Inside(buckets[i], dates[d]) {
          counts := counts[buckets[i].key := counts[buckets[i].key] + 1];
          hit := i;
          break;
        }
      }
      CountOneMore(before, dates, d, buckets, hit);
    }
    assert dates[..|dates|] == dates;
    growth := seq(|buckets|, i requires 0 <= i < |buckets| && buckets[i].key in counts =>
                               GrowthBucket(buckets[i].key, counts[buckets[i].key]));
  }

  ghost predicate Disjoint<K(!new)>(buckets: seq<Bucket<K>>) {
    forall i, j, date | 0 <= i < |buckets| && 0 <= j < |buckets| ::
      Inside(buckets[i], date) && Inside(buckets[j], date) ==> i == j
  }

  predicate DistinctKeys<K(==)>(buckets: seq<Bucket<K>>) {
    forall i, j :: 0 <= i < |buckets| && 0 <= j < |buckets| && buckets[i].key == buckets[j].key ==> i == j
  }

  /** Over disjoint buckets with distinct keys, the first hit is the only one: counting by key is brute force. */
  lemma {:induction false} CountKeyIsBruteForce<K(!new)>(dates: seq<int>, buckets: seq<Bucket<K>>, i: nat)
    requires Disjoint(buckets) && DistinctKeys(buckets) && i < |buckets|
    ensures CountKey(dates, buckets, buckets[i].key) == CountIn(dates, buckets[i].from, buckets[i].to)
  {
    hide FirstHit;
    if dates == [] {
    } else {
      var n := |dates| - 1;
      CountKeyIsBruteForce(dates[..n], buckets, i);
      var r := FirstHit(buckets, dates[n]);
      assert Inside(buckets[i], dates[n]) ==> r <= i;
    }
  }

  lemma {:induction false} CountInSplits(dates: seq<int>, from: int, middle: int, to: int)
    requires from <= middle <= to
    ensures CountIn(dates, from, to) == CountIn(dates, from, middle) + CountIn(dates, middle, to)
  {
    if dates == [] {
    } else {
      CountInSplits(dates[..|dates| - 1], from, middle, to);
    }
  }

  /** The rows a query for `createdAt >= start` returns. */
  function Since(dates: seq<int>, start: int): seq<int> {
    if dates == [] then []
    else
      var n := |dates| - 1;
      Since(dates[..n], start) + (if dates[n] >= start then [dates[n]] else [])
  }

  /** No date before `start` is missed by windows that start no earlier. */
  lemma {:induction false} SinceKeepsCounts(dates: seq<int>, start: int, from: int, to: int)
    requires start <= from
    ensures CountIn(Since(dates, start), from, to) == CountIn(dates, from, to)
  {
    if dates == [] {
    } else {
      var n := |dates| - 1;
      var kept := Since(dates[..n], start);
      SinceKeepsCounts(dates[..n], start, from, to);
      assert (kept + [dates[n]])[..|kept|] == kept;
      assert kept + [] == kept;
    }
  }

  function Total<K>(growth: seq<GrowthBucket<K>>): nat {
    if growth == [] then 0 else Total(growth[..|growth| - 1]) + growth[|growth| - 1].count
  }

  /** Counts over consecutive windows of one width add up to the count over their whole span. */
  lemma {:induction false} TotalIsSpan<K>(dates: seq<int>, growth: seq<GrowthBucket<K>>, from: int, width: nat)
    requires forall i :: 0 <= i < |growth| ==> growth[i].count == CountIn(dates, from + i * width, from + i * width
             + width)
    ensures Total(growth) == CountIn(dates, from, from + |growth| * width)
  {
    var n := |growth|;
    if n == 0 {
      EmptySpan(dates, from);
    } else {
      TotalIsSpan(dates, growth[..n - 1], from, width);
      assert from + (n - 1) * width + width == from + n * width;
      CountInSplits(dates, from, from + (n - 1) * width, from + n * width);
    }
  }

  lemma {:induction false} EmptySpan(dates: seq<int>, from: int)
    ensures CountIn(dates, from, from) == 0
  {
    if dates == [] {
    } else {
      EmptySpan(dates[..|dates| - 1], from);
    }
  }

  /** Where the windows are right, the key of each is the date of its Monday: that date begins where the window does. */
  lemma KeyIsMonday(now: int, zone: Zone, i: nat)
    requires i < WEEKS && Tiles(now, zone)
    ensures var w := WeekWindows(now, zone)[i];
            && w.key.Valid() && WeekDay(DayOfCivil(w.key)) == 1
            && w.from + zone(w.from) == DayOfCivil(w.key) * MS_PER_DAY
  {
    hide CivilOf, WeekStart;
    assert StartsMonday(WeekWindows(now, zone)[i].from, zone);
  }

  lemma WindowsAreDisjoint(now: int, zone: Zone)
    requires Tiles(now, zone)
    ensures Disjoint(WeekWindows(now, zone)) && DistinctKeys(WeekWindows(now, zone))
  {
    hide WeekWindows, StartsMonday;
  }

  /** organizationsByWeek and usersByWeek: `monthsFrom` is where the first month bucket starts. */
  method GrowthByWeek(now: int, createdAt: seq<int>, monthsFrom: int, zone: Zone)
    returns (growth: seq<GrowthBucket<Civil>>)
    ensures |growth| == WEEKS
    ensures forall i :: 0 <= i < WEEKS ==> growth[i].title == WeekWindows(now, zone)[i].key
    ensures Tiles(now, zone) ==>
              forall i :: 0 <= i < WEEKS ==>
                growth[i].count == CountIn(createdAt, WeekWindows(now, zone)[i].from, WeekWindows(now, zone)[i].to)
    ensures Tiles(now, zone) ==>
              Total(growth) == CountIn(createdAt, WeekWindows(now, zone)[0].from, WeekWindows(now, zone)[WEEKS - 1].to)
  {
    hide WeekWindow, StartsMonday;
    var weeks := WeekWindows(now, zone);
    var windowStart := if weeks[0].from < monthsFrom then weeks[0].from else monthsFrom;
    var dates := Since(createdAt, windowStart);
    growth := Bucketize(dates, weeks);
    if Tiles(now, zone) {
      WindowsAreDisjoint(now, zone);
      forall i | 0 <= i < WEEKS
        ensures growth[i].count == CountIn(createdAt, weeks[i].from, weeks[i].to)
      {
        CountKeyIsBruteForce(dates, weeks, i);
        SinceKeepsCounts(createdAt, windowStart, weeks[i].from, weeks[i].to);
      }
      forall i | 0 <= i < WEEKS
        ensures growth[i].count == CountIn(createdAt, weeks[0].from + i * (7 * MS_PER_DAY),
                                           weeks[0].from + i * (7 * MS_PER_DAY) + 7 * MS_PER_DAY)
      {
        assert WeeksMs(i) == i * (7 * MS_PER_DAY);
      }
      TotalIsSpan(createdAt, growth, weeks[0].from, 7 * MS_PER_DAY);
    }
  }
}
