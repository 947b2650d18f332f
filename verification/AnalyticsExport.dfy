/** The analytics report as CSV (buildAnalyticsCsv in analytics-export.ts). */
module AnalyticsExport {
  import opened Wrappers
  import T = Text
  import opened Csv
  import IsoTime

  datatype TicketStatus = Waiting | Called | Serving | Completed | Cancelled | NoShow

  datatype Labels = Labels(
    organization: string, periodFrom: string, periodTo: string, timezone: string, generatedAt: string,
    summary: string, value: string,
    issuedTickets: string, completedTickets: string, cancelledTickets: string, noShowTickets: string,
    waitingTickets: string, completionRate: string, cancellationRate: string, noShowRate: string,
    averageWait: string, averageService: string,
    peak: string, busiestDay: string, busiestHour: string,
    daily: string, date: string, tickets: string, weekly: string, weekStart: string,
    queuePerformance: string, branchPerformance: string, staffPerformance: string, staff: string, servedTickets: string,
    branch: string, queue: string, completed: string, averageWaitSeconds: string, averageServiceSeconds: string,
    statusDistribution: string, status: string, statusLabels: TicketStatus -> string,
    hourly: string, issuedHourly: string, hour: string)

  datatype DayCount = DayCount(date: string, count: int)
  datatype HourCount = HourCount(hour: int, count: int)
  datatype StatusCount = StatusCount(status: TicketStatus, count: int)

  datatype Performance = Performance(branchName: string, queueName: string, staffName: string, tickets: int,
                                     averageWaitSeconds: Option<int>, averageServiceSeconds: Option<int>)

  datatype Totals = Totals(
    issuedTickets: int, completedTickets: int, cancelledTickets: int, noShowTickets: int, waitingTickets: int,
    completionRateBps: nat, cancellationRateBps: nat, noShowRateBps: nat,
    averageWaitSeconds: Option<int>, averageServiceSeconds: Option<int>)

  datatype Report = Report(
    from: string, to: string, timezone: string, totals: Totals,
    busiestDay: Option<DayCount>, busiestHour: Option<HourCount>,
    issuedByDay: seq<DayCount>, issuedByWeek: seq<DayCount>,
    branchPerformance: seq<Performance>, queuePerformance: seq<Performance>, staffPerformance: seq<Performance>,
    statusDistribution: seq<StatusCount>, issuedByHour: seq<HourCount>, completedByHour: seq<HourCount>)

  datatype Meta = Meta(organizationName: string, generatedAt: int)

  const BOM: string := "\U{FEFF}"

  /** 1400 becomes 14.00%. */
  function FormatRateBps(bps: nat): string {
    T.Decimal(bps / 100) + "." + T.PadStart(T.Decimal(bps % 100), 2) + "%"
  }

  /** Printing a rate loses nothing: the hundredths read back from the fixed positions at the end. */
  lemma RateReadsBack(bps: nat)
    ensures var s := FormatRateBps(bps);
            && |s| >= 5 && s[|s| - 4] == '.' && s[|s| - 1] == '%'
            && T.AllDigits(s[..|s| - 4]) && T.AllDigits(s[|s| - 3..|s| - 1])
            && bps == 100 * T.DecimalValue(s[..|s| - 4]) + T.DecimalValue(s[|s| - 3..|s| - 1])
  {
    hide T.Decimal, T.DecimalValue;
    var whole, cents := T.Decimal(bps / 100), T.PadStart(T.Decimal(bps % 100), 2);
    T.DecimalRoundTrip(bps / 100);
    T.PaddedRoundTrip(bps % 100, 2);
    assert T.PowerOfTen(2) == 100;
    T.DecimalLength(bps % 100, 2);
    var s := FormatRateBps(bps);
    assert s[..|s| - 4] == whole && s[|s| - 3..|s| - 1] == cents;
  }

  function Seconds(value: Option<int>): Cell {
    match value
    case Some(n) => Number(n)
    case None => Text("")
  }

  /* ---------------------------------------------------------------------- */
  /* The report, section by section                                         */
  /* ---------------------------------------------------------------------- */

  function Identification(r: Report, m: Meta, l: Labels): seq<Record> {
    [[Text(l.organization), Text(m.organizationName)],
     [Text(l.periodFrom), Text(r.from)],
     [Text(l.periodTo), Text(r.to)],
     [Text(l.timezone), Text(r.timezone)],
     [Text(l.generatedAt), Text(IsoTime.IsoString(m.generatedAt))]]
  }

  function Summary(t: Totals, l: Labels): seq<Record> {
    [[Text(l.summary), Text(l.value)],
     [Text(l.issuedTickets), Number(t.issuedTickets)],
     [Text(l.completedTickets), Number(t.completedTickets)],
     [Text(l.cancelledTickets), Number(t.cancelledTickets)],
     [Text(l.noShowTickets), Number(t.noShowTickets)],
     [Text(l.waitingTickets), Number(t.waitingTickets)],
     [Text(l.completionRate), Text(FormatRateBps(t.completionRateBps))],
     [Text(l.cancellationRate), Text(FormatRateBps(t.cancellationRateBps))],
     [Text(l.noShowRate), Text(FormatRateBps(t.noShowRateBps))],
     [Text(l.averageWait), Seconds(t.averageWaitSeconds)],
     [Text(l.averageService), Seconds(t.averageServiceSeconds)]]
  }

  function Peak(r: Report, l: Labels): seq<Record> {
    [[Text(l.peak), Text(l.value)],
     [Text(l.busiestDay),
      if r.busiestDay.Some? then Text(r.busiestDay.value.date) else Text(""),
      if r.busiestDay.Some? then Number(r.busiestDay.value.count) else Text("")],
     [Text(l.busiestHour),
      if r.busiestHour.Some? then Number(r.busiestHour.value.hour) else Text(""),
      if r.busiestHour.Some? then Number(r.busiestHour.value.count) else Text("")]]
  }

  /** A heading, and a record for each entry. */
  function Series<T>(heading: Record, entries: seq<T>, record: T -> Record): (section: seq<Record>)
    ensures |section| == 1 + |entries| && section[0] == heading
    ensures forall k :: 0 <= k < |entries| ==> section[1 + k] == record(entries[k])
  {
    [heading] + seq(|entries|, k requires 0 <= k < |entries| => record(entries[k]))
  }

  function DayRecord(section: string, d: DayCount): Record {
    [Text(section), Text(d.date), Number(d.count)]
  }

  function HourRecord(section: string, h: HourCount): Record {
    [Text(section), Number(h.hour), Number(h.count)]
  }

  function StatusRecord(l: Labels, c: StatusCount): Record {
    [Text(l.statusDistribution), Text(l.statusLabels(c.status)), Number(c.count)]
  }

  function BranchRecord(l: Labels, p: Performance): Record {
    [Text(l.branchPerformance), Text(p.branchName), Number(p.tickets),
     Seconds(p.averageWaitSeconds), Seconds(p.averageServiceSeconds)]
  }

  function QueueRecord(l: Labels, p: Performance): Record {
    [Text(l.queuePerformance), Text(p.branchName), Text(p.queueName), Number(p.tickets),
     Seconds(p.averageWaitSeconds), Seconds(p.averageServiceSeconds)]
  }

  function StaffRecord(l: Labels, p: Performance): Record {
    [Text(l.staffPerformance), Text(p.staffName), Number(p.tickets),
     Seconds(p.averageWaitSeconds), Seconds(p.averageServiceSeconds)]
  }

  function Days(r: Report, l: Labels): seq<Record> {
    Series([Text(l.daily), Text(l.date), Text(l.tickets)], r.issuedByDay, d => DayRecord(l.daily, d))
  }

  function Weeks(r: Report, l: Labels): seq<Record> {
    Series([Text(l.weekly), Text(l.weekStart), Text(l.tickets)], r.issuedByWeek, d => DayRecord(l.weekly, d))
  }

  function Branches(r: Report, l: Labels): seq<Record> {
    Series([Text(l.branchPerformance), Text(l.branch), Text(l.completed),
            Text(l.averageWaitSeconds), Text(l.averageServiceSeconds)],
           r.branchPerformance, p => BranchRecord(l, p))
  }

  function Queues(r: Report, l: Labels): seq<Record> {
    Series([Text(l.queuePerformance), Text(l.branch), Text(l.queue), Text(l.completed),
            Text(l.averageWaitSeconds), Text(l.averageServiceSeconds)],
           r.queuePerformance, p => QueueRecord(l, p))
  }

  function Staff(r: Report, l: Labels): seq<Record> {
    Series([Text(l.staffPerformance), Text(l.staff), Text(l.servedTickets),
            Text(l.averageWaitSeconds), Text(l.averageServiceSeconds)],
           r.staffPerformance, p => StaffRecord(l, p))
  }

  function Statuses(r: Report, l: Labels): seq<Record> {
    Series([Text(l.statusDistribution), Text(l.status), Text(l.tickets)], r.statusDistribution, c => StatusRecord(l, c))
  }

  function IssuedHours(r: Report, l: Labels): seq<Record> {
    Series([Text(l.issuedHourly), Text(l.hour), Text(l.tickets)], r.issuedByHour, h => HourRecord(l.issuedHourly, h))
  }

  function CompletedHours(r: Report, l: Labels): seq<Record> {
    Series([Text(l.hourly), Text(l.hour), Text(l.completed)], r.completedByHour, h => HourRecord(l.hourly, h))
  }

  function Sections(r: Report, m: Meta, l: Labels): (sections: seq<seq<Record>>)
    ensures |sections| == 11
  {
    [Identification(r, m, l), Summary(r.totals, l), Peak(r, l), Days(r, l), Weeks(r, l), Branches(r, l), Queues(r, l),
     Staff(r, l), Statuses(r, l), IssuedHours(r, l), CompletedHours(r, l)]
  }

  const BLANK: Record := []

  /** All records of the file: a blank line between two sections. */
  function ReportRecords(r: Report, m: Meta, l: Labels): seq<Record> {
    T.Join(Sections(r, m, l), [BLANK])
  }

  /* ---------------------------------------------------------------------- */
  /* Reading                                                                */
  /* ---------------------------------------------------------------------- */

  /** What a reader of the file finds; names as the file shows them, and the labels of the statuses for the statuses. */
  datatype Reading = Reading(
    organizationName: string, from: string, to: string, timezone: string, generatedAt: Option<int>,
    totals: Totals, busiestDay: Option<DayCount>, busiestHour: Option<HourCount>,
    days: seq<DayCount>, weeks: seq<DayCount>,
    branches: seq<Performance>, queues: seq<Performance>, staff: seq<Performance>,
    statuses: seq<DayCount>, issuedHours: seq<HourCount>, completedHours: seq<HourCount>)

  /** Takes off the apostrophe that keeps a cell from being a formula. */
  function Unguard(s: string): string {
    if s != "" && s[0] == '\'' then s[1..] else s
  }

  function ReadInt(s: string): int {
    if T.IsIntText(Unguard(s)) then T.IntValue(Unguard(s)) else 0
  }

  function ReadOptional(s: string): Option<int> {
    if s == "" then None else Some(ReadInt(s))
  }

  function ReadRate(s: string): nat {
    if |s| >= 5 && T.AllDigits(s[..|s| - 4]) && T.AllDigits(s[|s| - 3..|s| - 1])
    then 100 * T.DecimalValue(s[..|s| - 4]) + T.DecimalValue(s[|s| - 3..|s| - 1])
    else 0
  }

  /** A cell of a record, empty where there is none. */
  function At(record: seq<string>, k: nat): string {
    if k < |record| then record[k] else ""
  }

  function RecordAt(section: seq<seq<string>>, k: nat): seq<string> {
    if k < |section| then section[k] else []
  }

  function ReadTotals(s: seq<seq<string>>): Totals {
    Totals(ReadInt(At(RecordAt(s, 1), 1)), ReadInt(At(RecordAt(s, 2), 1)), ReadInt(At(RecordAt(s, 3), 1)),
           ReadInt(At(RecordAt(s, 4), 1)), ReadInt(At(RecordAt(s, 5), 1)),
           ReadRate(At(RecordAt(s, 6), 1)), ReadRate(At(RecordAt(s, 7), 1)), ReadRate(At(RecordAt(s, 8), 1)),
           ReadOptional(At(RecordAt(s, 9), 1)), ReadOptional(At(RecordAt(s, 10), 1)))
  }

  function ReadDay(record: seq<string>): DayCount {
    DayCount(At(record, 1), ReadInt(At(record, 2)))
  }

  function ReadHour(record: seq<string>): HourCount {
    HourCount(ReadInt(At(record, 1)), ReadInt(At(record, 2)))
  }

  function ReadBranch(record: seq<string>): Performance {
    Performance(At(record, 1), "", "", ReadInt(At(record, 2)), ReadOptional(At(record, 3)), ReadOptional(At(record, 4)))
  }

  function ReadQueue(record: seq<string>): Performance {
    Performance(At(record, 1), At(record, 2), "", ReadInt(At(record, 3)),
                ReadOptional(At(record, 4)), ReadOptional(At(record, 5)))
  }

  function ReadStaff(record: seq<string>): Performance {
    Performance("", "", At(record, 1), ReadInt(At(record, 2)), ReadOptional(At(record, 3)), ReadOptional(At(record, 4)))
  }

  /** The entries below the heading of a section. */
  function ReadSeries<T>(section: seq<seq<string>>, read: seq<string> -> T): (entries: seq<T>)
    ensures |entries| == if section == [] then 0 else |section| - 1
    ensures forall k :: 0 <= k < |entries| ==> entries[k] == read(section[1 + k])
  {
    if section == [] then [] else seq(|section| - 1, k requires 0 <= k < |section| - 1 => read(section[1 + k]))
  }

  function ReadSections(s: seq<seq<seq<string>>>): Reading
    requires |s| == 11
  {
    Reading(At(RecordAt(s[0], 0), 1), At(RecordAt(s[0], 1), 1), At(RecordAt(s[0], 2), 1), At(RecordAt(s[0], 3), 1),
            IsoTime.ReadIso(Unguard(At(RecordAt(s[0], 4), 1))),
            ReadTotals(s[1]),
            if At(RecordAt(s[2], 1), 2) == "" then None else Some(ReadDay(RecordAt(s[2], 1))),
            if At(RecordAt(s[2], 2), 2) == "" then None else Some(ReadHour(RecordAt(s[2], 2))),
            ReadSeries(s[3], ReadDay), ReadSeries(s[4], ReadDay),
            ReadSeries(s[5], ReadBranch), ReadSeries(s[6], ReadQueue), ReadSeries(s[7], ReadStaff),
            ReadSeries(s[8], ReadDay), ReadSeries(s[9], ReadHour), ReadSeries(s[10], ReadHour))
  }

  /** Reads the file, splits it at blank records, and reads each section by position. */
  function ReadReport(text: string): Option<Reading> {
    match ReadFile(text)
    case None => None
    case Some(records) =>
      var sections := T.Split(records, [""]);
      if |sections| == 11 then Some(ReadSections(sections)) else None
  }

  /* ---------------------------------------------------------------------- */
  /* Reading what was written                                               */
  /* ---------------------------------------------------------------------- */

  function GuardDay(d: DayCount): DayCount {
    d.(date := Guard(d.date))
  }

  function Map<S, T>(s: seq<S>, f: S -> T): (t: seq<T>)
    ensures |t| == |s| && forall k :: 0 <= k < |s| ==> t[k] == f(s[k])
  {
    seq(|s|, k requires 0 <= k < |s| => f(s[k]))
  }

  /** The report itself, with the names guarded and without the columns that a section does not print. */
  function Expected(r: Report, m: Meta, l: Labels): Reading {
    Reading(Guard(m.organizationName), Guard(r.from), Guard(r.to), Guard(r.timezone), Some(m.generatedAt),
            r.totals, if r.busiestDay.Some? then Some(GuardDay(r.busiestDay.value)) else None, r.busiestHour,
            Map(r.issuedByDay, GuardDay), Map(r.issuedByWeek, GuardDay),
            Map(r.branchPerformance, (p: Performance) =>
              p.(branchName := Guard(p.branchName), queueName := "", staffName := "")),
            Map(r.queuePerformance, (p: Performance) =>
              p.(branchName := Guard(p.branchName), queueName := Guard(p.queueName), staffName := "")),
            Map(r.staffPerformance, (p: Performance) =>
              p.(branchName := "", queueName := "", staffName := Guard(p.staffName))),
            Map(r.statusDistribution, (c: StatusCount) => DayCount(Guard(l.statusLabels(c.status)), c.count)),
            r.issuedByHour, r.completedByHour)
  }

  lemma UnguardGuard(s: string)
    requires s == "" || s[0] != '\''
    ensures Unguard(Guard(s)) == s
  {
  }

  lemma IntReads(n: int)
    ensures ReadInt(Guard(T.IntText(n))) == n && Guard(T.IntText(n)) != ""
  {
    T.IntRoundTrip(n);
    var s := T.IntText(n);
    assert s[0] in s;
    UnguardGuard(s);
  }

  lemma OptionalReads(value: Option<int>)
    ensures ReadOptional(Guard(CellText(Seconds(value)))) == value
  {
    hide T.IntText, ReadInt;
    match value
    case Some(n) => IntReads(n);
    case None => assert Guard("") == "";
  }

  lemma DigitFirst(s: string)
    requires s != "" && T.IsDigit(s[0])
    ensures Guard(s) == s
  {
    assert !T.IsSpace(s[0]);
    assert T.TrimStart(s) == s;
  }

  lemma RateReads(bps: nat)
    ensures ReadRate(Guard(FormatRateBps(bps))) == bps
  {
    hide FormatRateBps, T.DecimalValue, Guard;
    RateReadsBack(bps);
    var s := FormatRateBps(bps);
    assert s[0] == s[..|s| - 4][0];
    DigitFirst(s);
  }

  lemma InstantReads(t: int)
    ensures IsoTime.ReadIso(Unguard(Guard(IsoTime.IsoString(t)))) == Some(t)
  {
    IsoTime.IsoReadsBack(t);
    var s := IsoTime.IsoString(t);
    assert s != "" ==> IsoTime.IsIsoChar(s[0]);
    hide IsoTime.IsoString, IsoTime.ReadIso, Guard;
    UnguardGuard(s);
  }

  lemma CellAt(record: Record, k: nat)
    requires k < |record|
    ensures At(Fields(record), k) == Guard(CellText(record[k]))
  {
  }

  lemma DayReads(section: string, d: DayCount)
    ensures ReadDay(Fields(DayRecord(section, d))) == GuardDay(d)
  {
    hide Guard, T.IntText, ReadInt;
    var record := DayRecord(section, d);
    CellAt(record, 1);
    CellAt(record, 2);
    IntReads(d.count);
  }

  lemma HourReads(section: string, h: HourCount)
    ensures ReadHour(Fields(HourRecord(section, h))) == h
  {
    hide Guard, T.IntText, ReadInt;
    var record := HourRecord(section, h);
    CellAt(record, 1);
    CellAt(record, 2);
    IntReads(h.hour);
    IntReads(h.count);
  }

  /** The last three cells of a performance record. */
  lemma PerformanceReads(record: Record, k: nat, p: Performance)
    requires k + 3 == |record|
    requires record[k..] == [Number(p.tickets), Seconds(p.averageWaitSeconds), Seconds(p.averageServiceSeconds)]
    ensures ReadInt(At(Fields(record), k)) == p.tickets
    ensures ReadOptional(At(Fields(record), k + 1)) == p.averageWaitSeconds
    ensures ReadOptional(At(Fields(record), k + 2)) == p.averageServiceSeconds
  {
    hide Guard, T.IntText, ReadInt, ReadOptional, Seconds;
    assert record[k] == record[k..][0] && record[k + 1] == record[k..][1] && record[k + 2] == record[k..][2];
    CellAt(record, k);
    CellAt(record, k + 1);
    CellAt(record, k + 2);
    IntReads(p.tickets);
    OptionalReads(p.averageWaitSeconds);
    OptionalReads(p.averageServiceSeconds);
  }

  lemma BranchReads(l: Labels, p: Performance)
    ensures ReadBranch(Fields(BranchRecord(l, p)))
            == p.(branchName := Guard(p.branchName), queueName := "", staffName := "")
  {
    hide Guard, ReadInt, ReadOptional, Seconds;
    CellAt(BranchRecord(l, p), 1);
    PerformanceReads(BranchRecord(l, p), 2, p);
  }

  lemma QueueReads(l: Labels, p: Performance)
    ensures ReadQueue(Fields(QueueRecord(l, p)))
            == p.(branchName := Guard(p.branchName), queueName := Guard(p.queueName), staffName := "")
  {
    hide Guard, ReadInt, ReadOptional, Seconds;
    CellAt(QueueRecord(l, p), 1);
    CellAt(QueueRecord(l, p), 2);
    PerformanceReads(QueueRecord(l, p), 3, p);
  }

  lemma StaffReads(l: Labels, p: Performance)
    ensures ReadStaff(Fields(StaffRecord(l, p)))
            == p.(branchName := "", queueName := "", staffName := Guard(p.staffName))
  {
    hide Guard, ReadInt, ReadOptional, Seconds;
    CellAt(StaffRecord(l, p), 1);
    PerformanceReads(StaffRecord(l, p), 2, p);
  }

  lemma StatusReads(l: Labels, c: StatusCount)
    ensures ReadDay(Fields(StatusRecord(l, c))) == DayCount(Guard(l.statusLabels(c.status)), c.count)
  {
    hide Guard, T.IntText, ReadInt;
    CellAt(StatusRecord(l, c), 1);
    CellAt(StatusRecord(l, c), 2);
    IntReads(c.count);
  }

  lemma SeriesReads<S, R>(heading: Record, entries: seq<S>, record: S -> Record, read: seq<string> -> R, f: S -> R)
    requires forall k :: 0 <= k < |entries| ==> read(Fields(record(entries[k]))) == f(entries[k])
    ensures ReadSeries(AllFields(Series(heading, entries, record)), read) == Map(entries, f)
  {
    hide Fields, Series, ReadSeries, AllFields, Map;
    var section := Series(heading, entries, record);
    var fields := AllFields(section);
    var back, mapped := ReadSeries(fields, read), Map(entries, f);
    forall k | 0 <= k < |entries|
      ensures back[k] == mapped[k]
    {
      assert fields[1 + k] == Fields(section[1 + k]) && section[1 + k] == record(entries[k]);
      assert read(Fields(record(entries[k]))) == f(entries[k]);
    }
  }

  lemma IdentificationReads(r: Report, m: Meta, l: Labels)
    ensures var s := AllFields(Identification(r, m, l));
            && At(RecordAt(s, 0), 1) == Guard(m.organizationName)
            && At(RecordAt(s, 1), 1) == Guard(r.from) && At(RecordAt(s, 2), 1) == Guard(r.to)
            && At(RecordAt(s, 3), 1) == Guard(r.timezone)
            && IsoTime.ReadIso(Unguard(At(RecordAt(s, 4), 1))) == Some(m.generatedAt)
  {
    hide Guard, IsoTime.IsoString, IsoTime.ReadIso, Unguard;
    var section := Identification(r, m, l);
    forall k | 0 <= k < 5
      ensures At(RecordAt(AllFields(section), k), 1) == Guard(CellText(section[k][1]))
    {
      CellAt(section[k], 1);
    }
    InstantReads(m.generatedAt);
  }

  lemma TotalsRead(t: Totals, l: Labels)
    ensures ReadTotals(AllFields(Summary(t, l))) == t
  {
    hide Guard, T.IntText, ReadInt, ReadOptional, ReadRate, FormatRateBps, Seconds;
    var section := Summary(t, l);
    forall k | 0 <= k < 11
      ensures At(RecordAt(AllFields(section), k), 1) == Guard(CellText(section[k][1]))
    {
      CellAt(section[k], 1);
    }
    IntReads(t.issuedTickets);
    IntReads(t.completedTickets);
    IntReads(t.cancelledTickets);
    IntReads(t.noShowTickets);
    IntReads(t.waitingTickets);
    RateReads(t.completionRateBps);
    RateReads(t.cancellationRateBps);
    RateReads(t.noShowRateBps);
    OptionalReads(t.averageWaitSeconds);
    OptionalReads(t.averageServiceSeconds);
  }

  lemma PeakReads(r: Report, l: Labels)
    ensures var s := AllFields(Peak(r, l));
            && (if At(RecordAt(s, 1), 2) == "" then None else Some(ReadDay(RecordAt(s, 1))))
               == (if r.busiestDay.Some? then Some(GuardDay(r.busiestDay.value)) else None)
            && (if At(RecordAt(s, 2), 2) == "" then None else Some(ReadHour(RecordAt(s, 2)))) == r.busiestHour
  {
    hide T.IntText, ReadInt;
    var section := Peak(r, l);
    forall k | 0 <= k < 3
      ensures RecordAt(AllFields(section), k) == Fields(section[k])
    {
    }
    assert Guard("") == "";
    hide Guard;
    CellAt(section[1], 1);
    CellAt(section[1], 2);
    CellAt(section[2], 1);
    CellAt(section[2], 2);
    if r.busiestDay.Some? { IntReads(r.busiestDay.value.count); }
    if r.busiestHour.Some? {
      IntReads(r.busiestHour.value.hour);
      IntReads(r.busiestHour.value.count);
    }
  }

  lemma TablesRead(r: Report, l: Labels)
    ensures ReadSeries(AllFields(Days(r, l)), ReadDay) == Map(r.issuedByDay, GuardDay)
    ensures ReadSeries(AllFields(Weeks(r, l)), ReadDay) == Map(r.issuedByWeek, GuardDay)
    ensures ReadSeries(AllFields(IssuedHours(r, l)), ReadHour) == r.issuedByHour
    ensures ReadSeries(AllFields(CompletedHours(r, l)), ReadHour) == r.completedByHour
  {
    hide Series, ReadSeries, Fields, AllFields, ReadDay, ReadHour, DayRecord, HourRecord, GuardDay;
    forall section, d { DayReads(section, d); }
    forall section, h { HourReads(section, h); }
    var same := (h: HourCount) => h;
    SeriesReads([Text(l.daily), Text(l.date), Text(l.tickets)],
                r.issuedByDay, d => DayRecord(l.daily, d), ReadDay, GuardDay);
    SeriesReads([Text(l.weekly), Text(l.weekStart), Text(l.tickets)],
                r.issuedByWeek, d => DayRecord(l.weekly, d), ReadDay, GuardDay);
    SeriesReads([Text(l.issuedHourly), Text(l.hour), Text(l.tickets)],
                r.issuedByHour, h => HourRecord(l.issuedHourly, h), ReadHour, same);
    SeriesReads([Text(l.hourly), Text(l.hour), Text(l.completed)],
                r.completedByHour, h => HourRecord(l.hourly, h), ReadHour, same);
    assert Map(r.issuedByHour, same) == r.issuedByHour && Map(r.completedByHour, same) == r.completedByHour;
  }

  lemma BranchesRead(r: Report, m: Meta, l: Labels)
    ensures ReadSeries(AllFields(Branches(r, l)), ReadBranch) == Expected(r, m, l).branches
  {
    hide Series, ReadSeries, Fields, AllFields, ReadBranch, BranchRecord, Map, Guard;
    forall p: Performance { BranchReads(l, p); }
    SeriesReads([Text(l.branchPerformance), Text(l.branch), Text(l.completed),
                 Text(l.averageWaitSeconds), Text(l.averageServiceSeconds)],
                r.branchPerformance, p => BranchRecord(l, p), ReadBranch,
                (p: Performance) => p.(branchName := Guard(p.branchName), queueName := "", staffName := ""));
  }

  lemma QueuesRead(r: Report, m: Meta, l: Labels)
    ensures ReadSeries(AllFields(Queues(r, l)), ReadQueue) == Expected(r, m, l).queues
  {
    hide Series, ReadSeries, Fields, AllFields, ReadQueue, QueueRecord, Map, Guard;
    forall p: Performance { QueueReads(l, p); }
    SeriesReads([Text(l.queuePerformance), Text(l.branch), Text(l.queue), Text(l.completed),
                 Text(l.averageWaitSeconds), Text(l.averageServiceSeconds)],
                r.queuePerformance, p => QueueRecord(l, p), ReadQueue,
                (p: Performance) =>
                  p.(branchName := Guard(p.branchName), queueName := Guard(p.queueName), staffName := ""));
  }

  lemma StaffTableReads(r: Report, m: Meta, l: Labels)
    ensures ReadSeries(AllFields(Staff(r, l)), ReadStaff) == Expected(r, m, l).staff
  {
    hide Series, ReadSeries, Fields, AllFields, ReadStaff, StaffRecord, Map, Guard;
    forall p: Performance { StaffReads(l, p); }
    SeriesReads([Text(l.staffPerformance), Text(l.staff), Text(l.servedTickets),
                 Text(l.averageWaitSeconds), Text(l.averageServiceSeconds)],
                r.staffPerformance, p => StaffRecord(l, p), ReadStaff,
                (p: Performance) => p.(branchName := "", queueName := "", staffName := Guard(p.staffName)));
  }

  lemma StatusesRead(r: Report, m: Meta, l: Labels)
    ensures ReadSeries(AllFields(Statuses(r, l)), ReadDay) == Expected(r, m, l).statuses
  {
    hide Series, ReadSeries, Fields, AllFields, ReadDay, StatusRecord, Map, Guard;
    forall c: StatusCount { StatusReads(l, c); }
    SeriesReads([Text(l.statusDistribution), Text(l.status), Text(l.tickets)], r.statusDistribution,
                c => StatusRecord(l, c), ReadDay,
                (c: StatusCount) => DayCount(Guard(l.statusLabels(c.status)), c.count));
  }

  /** A record of two cells or more is no blank line. */
  predicate Filled(section: seq<Record>) {
    forall k :: 0 <= k < |section| ==> |section[k]| >= 2
  }

  lemma SeriesFilled<S>(heading: Record, entries: seq<S>, record: S -> Record)
    requires |heading| >= 2 && forall e :: e in entries ==> |record(e)| >= 2
    ensures Filled(Series(heading, entries, record))
  {
    var section := Series(heading, entries, record);
    forall k | 0 <= k < |section|
      ensures |section[k]| >= 2
    {
      if k > 0 {
        assert section[1 + (k - 1)] == record(entries[k - 1]) && entries[k - 1] in entries;
      }
    }
  }

  lemma AllFilled(r: Report, m: Meta, l: Labels, i: nat)
    requires i < 11
    ensures Filled(Sections(r, m, l)[i])
  {
    hide Series, FormatRateBps, IsoTime.IsoString, Seconds;
    if i < 3 {
      assert Filled([Identification(r, m, l), Summary(r.totals, l), Peak(r, l)][i]);
    } else {
      hide Filled;
      SeriesFilled([Text(l.daily), Text(l.date), Text(l.tickets)], r.issuedByDay, d => DayRecord(l.daily, d));
      SeriesFilled([Text(l.weekly), Text(l.weekStart), Text(l.tickets)], r.issuedByWeek, d => DayRecord(l.weekly, d));
      SeriesFilled([Text(l.branchPerformance), Text(l.branch), Text(l.completed),
                    Text(l.averageWaitSeconds), Text(l.averageServiceSeconds)],
                   r.branchPerformance, p => BranchRecord(l, p));
      SeriesFilled([Text(l.queuePerformance), Text(l.branch), Text(l.queue), Text(l.completed),
                    Text(l.averageWaitSeconds), Text(l.averageServiceSeconds)],
                   r.queuePerformance, p => QueueRecord(l, p));
      SeriesFilled([Text(l.staffPerformance), Text(l.staff), Text(l.servedTickets),
                    Text(l.averageWaitSeconds), Text(l.averageServiceSeconds)],
                   r.staffPerformance, p => StaffRecord(l, p));
      SeriesFilled([Text(l.statusDistribution), Text(l.status), Text(l.tickets)], r.statusDistribution,
                   c => StatusRecord(l, c));
      SeriesFilled([Text(l.issuedHourly), Text(l.hour), Text(l.tickets)], r.issuedByHour,
                   h => HourRecord(l.issuedHourly, h));
      SeriesFilled([Text(l.hourly), Text(l.hour), Text(l.completed)], r.completedByHour, h => HourRecord(l.hourly, h));
    }
  }

  lemma AllFieldsConcat(a: seq<Record>, b: seq<Record>)
    ensures AllFields(a + b) == AllFields(a) + AllFields(b)
  {
    hide Fields;
  }

  function SectionFields(sections: seq<seq<Record>>): (s: seq<seq<seq<string>>>)
    ensures |s| == |sections| && forall i :: 0 <= i < |s| ==> s[i] == AllFields(sections[i])
  {
    seq(|sections|, i requires 0 <= i < |sections| => AllFields(sections[i]))
  }

  lemma {:induction false} FieldsOfJoin(sections: seq<seq<Record>>)
    ensures AllFields(T.Join(sections, [BLANK])) == T.Join(SectionFields(sections), [[""]])
  {
    hide AllFields;
    var s := SectionFields(sections);
    if sections == [] {
      NoFields();
    } else if |sections| == 1 {
    } else {
      FieldsOfJoin(sections[1..]);
      assert s[1..] == SectionFields(sections[1..]);
      AllFieldsConcat(sections[0], [BLANK]);
      AllFieldsConcat(sections[0] + [BLANK], T.Join(sections[1..], [BLANK]));
      BlankFields();
    }
  }

  lemma NoFields()
    ensures AllFields([]) == []
  {
  }

  lemma BlankFields()
    ensures AllFields([BLANK]) == [[""]]
  {
  }

  /** Splitting what is read at blank records gives the sections. */
  lemma SectionsRead(r: Report, m: Meta, l: Labels)
    ensures T.Split(AllFields(ReportRecords(r, m, l)), [""]) == SectionFields(Sections(r, m, l))
  {
    hide T.Split, T.Join, Sections, AllFields;
    var sections := Sections(r, m, l);
    var s := SectionFields(sections);
    FieldsOfJoin(sections);
    forall p | p in s
      ensures [""] !in p
    {
      var i :| 0 <= i < |s| && s[i] == p;
      AllFilled(r, m, l, i);
      NoBlank(sections[i]);
    }
    T.SplitJoin(s, [""]);
  }

  lemma NoBlank(section: seq<Record>)
    requires Filled(section)
    ensures [""] !in AllFields(section)
  {
    assert forall k :: 0 <= k < |section| ==> |AllFields(section)[k]| >= 2;
  }

  lemma ReportReads(r: Report, m: Meta, l: Labels)
    ensures ReadSections(SectionFields(Sections(r, m, l))) == Expected(r, m, l)
  {
    hide AllFields, Identification, Summary, Peak, Days, Weeks, Branches, Queues, Staff, Statuses, IssuedHours,
         CompletedHours, ReadTotals, ReadSeries, ReadDay, ReadHour, ReadBranch, ReadQueue, ReadStaff, Map, Guard,
         GuardDay, At,
         RecordAt, Unguard, IsoTime.ReadIso;
    IdentificationReads(r, m, l);
    TotalsRead(r.totals, l);
    PeakReads(r, l);
    TablesRead(r, l);
    BranchesRead(r, m, l);
    QueuesRead(r, m, l);
    StaffTableReads(r, m, l);
    StatusesRead(r, m, l);
  }

  lemma AfterBom(text: string)
    ensures (BOM + text)[|BOM|..] == text
  {
  }

  lemma NoSections(sections: seq<seq<Record>>)
    ensures T.Join(sections[..0], [BLANK]) == [] && Lines([]) == []
  {
  }

  /** Whatever the names, labels and figures are, a reader of the file recovers the report. */
  lemma FileReads(r: Report, m: Meta, l: Labels)
    ensures ReadReport(FileText(ReportRecords(r, m, l))) == Some(Expected(r, m, l))
  {
    FirstSection(r, m, l);
    hide Sections, Expected, ReadSections, ReadFile, FileText, ReportRecords, T.Split, AllFields, SectionFields;
    FileReadsBack(ReportRecords(r, m, l));
    SectionsRead(r, m, l);
    ReportReads(r, m, l);
  }

  /** Pushes the lines of every section, and a blank one between two. */
  method PushSections(sections: seq<seq<Record>>) returns (lines: seq<string>)
    ensures lines == Lines(T.Join(sections, [BLANK]))
  {
    hide Lines, T.Join, Row;
    lines := [];
    ghost var records: seq<Record> := [];
    NoSections(sections);
    for i := 0 to |sections|
      invariant lines == Lines(records) && records == T.Join(sections[..i], [BLANK])
    {
      if i > 0 {
        PushLine(records, BLANK);
        lines, records := lines + [Row(BLANK)], records + [BLANK];
      }
      ghost var before := records;
      for j := 0 to |sections[i]|
        invariant lines == Lines(records) && records == before + sections[i][..j]
      {
        PushLine(records, sections[i][j]);
        lines, records := lines + [Row(sections[i][j])], records + [sections[i][j]];
        NextRecord(before, sections[i], j);
      }
      NextSection(sections, i);
    }
    assert sections[..|sections|] == sections;
  }

  method BuildAnalyticsCsv(r: Report, m: Meta, l: Labels) returns (csv: string)
    ensures csv == BOM + FileText(ReportRecords(r, m, l))
    ensures BOM <= csv && ReadReport(csv[|BOM|..]) == Some(Expected(r, m, l))
  {
    hide Sections, Expected, ReadReport, Lines, T.Join;
    var lines := PushSections(Sections(r, m, l));
    csv := BOM + T.Join(lines, CRLF) + CRLF;
    assert csv == BOM + FileText(ReportRecords(r, m, l));
    AfterBom(FileText(ReportRecords(r, m, l)));
    FileReads(r, m, l);
  }

  lemma NextRecord(before: seq<Record>, section: seq<Record>, j: nat)
    requires j < |section|
    ensures before + section[..j] + [section[j]] == before + section[..j + 1]
  {
  }

  lemma PushLine(records: seq<Record>, record: Record)
    ensures Lines(records + [record]) == Lines(records) + [Row(record)]
  {
    LinesConcat(records, [record]);
    assert Lines([record]) == [Row(record)];
  }

  lemma NextSection(sections: seq<seq<Record>>, i: nat)
    requires i < |sections|
    ensures T.Join(sections[..i + 1], [BLANK])
            == (if i == 0 then [] else T.Join(sections[..i], [BLANK]) + [BLANK]) + sections[i][..|sections[i]|]
  {
    assert sections[..i + 1] == sections[..i] + [sections[i]];
    if i > 0 { T.JoinOneMore(sections[..i], [BLANK], sections[i]); }
  }

  lemma FirstSection(r: Report, m: Meta, l: Labels)
    ensures ReportRecords(r, m, l) != []
  {
    assert |Sections(r, m, l)[0]| == 5;
  }
}
