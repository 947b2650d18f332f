/** What a reader who goes by labels finds in the report: every figure stands beside its own label. */
module AnalyticsLabels {
  import opened Wrappers
  import T = Text
  import opened Csv
  import opened AnalyticsExport
  import IsoTime

  /** The file has a record with these cells, as a reader gets them. */
  predicate Has(records: seq<seq<string>>, cells: Record) {
    Fields(cells) in records
  }

  lemma InReport(r: Report, m: Meta, l: Labels, i: nat, k: nat)
    requires i < 11 && k < |Sections(r, m, l)[i]|
    ensures Has(AllFields(ReportRecords(r, m, l)), Sections(r, m, l)[i][k])
  {
    hide Sections, Fields;
    var sections, records := Sections(r, m, l), ReportRecords(r, m, l);
    T.InJoin(sections, [BLANK], i, sections[i][k]);
    var j :| 0 <= j < |records| && records[j] == sections[i][k];
    assert AllFields(records)[j] == Fields(sections[i][k]);
  }

  /** A whole section, record by record. */
  lemma SectionFound(r: Report, m: Meta, l: Labels, i: nat, section: seq<Record>)
    requires i < 11 && Sections(r, m, l)[i] == section
    ensures forall k :: 0 <= k < |section| ==> Has(AllFields(ReportRecords(r, m, l)), section[k])
  {
    hide Sections, Has, AllFields, ReportRecords;
    forall k | 0 <= k < |section|
      ensures Has(AllFields(ReportRecords(r, m, l)), section[k])
    {
      InReport(r, m, l, i, k);
    }
  }

  function Optional(value: Option<int>): Cell {
    if value.Some? then Number(value.value) else Text("")
  }

  /** The identification and the totals. */
  lemma TotalsLabelled(r: Report, m: Meta, l: Labels)
    ensures var records, t := AllFields(ReportRecords(r, m, l)), r.totals;
            && Has(records, [Text(l.organization), Text(m.organizationName)])
            && Has(records, [Text(l.periodFrom), Text(r.from)])
            && Has(records, [Text(l.periodTo), Text(r.to)])
            && Has(records, [Text(l.timezone), Text(r.timezone)])
            && Has(records, [Text(l.generatedAt), Text(IsoTime.IsoString(m.generatedAt))])
            && Has(records, [Text(l.summary), Text(l.value)])
            && Has(records, [Text(l.issuedTickets), Number(t.issuedTickets)])
            && Has(records, [Text(l.completedTickets), Number(t.completedTickets)])
            && Has(records, [Text(l.cancelledTickets), Number(t.cancelledTickets)])
            && Has(records, [Text(l.noShowTickets), Number(t.noShowTickets)])
            && Has(records, [Text(l.waitingTickets), Number(t.waitingTickets)])
            && Has(records, [Text(l.completionRate), Text(FormatRateBps(t.completionRateBps))])
            && Has(records, [Text(l.cancellationRate), Text(FormatRateBps(t.cancellationRateBps))])
            && Has(records, [Text(l.noShowRate), Text(FormatRateBps(t.noShowRateBps))])
            && Has(records, [Text(l.averageWait), Optional(t.averageWaitSeconds)])
            && Has(records, [Text(l.averageService), Optional(t.averageServiceSeconds)])
  {
    hide Has, AllFields, ReportRecords, FormatRateBps, IsoTime.IsoString;
    var i, s := Identification(r, m, l), Summary(r.totals, l);
    SectionFound(r, m, l, 0, i);
    SectionFound(r, m, l, 1, s);
    var records := AllFields(ReportRecords(r, m, l));
    assert Has(records, i[0]) && Has(records, i[1]) && Has(records, i[2]) && Has(records, i[3]) && Has(records, i[4]);
    assert Has(records, s[0]) && Has(records, s[1]) && Has(records, s[2]) && Has(records, s[3]) && Has(records, s[4]);
    assert Has(records, s[5]) && Has(records, s[6]) && Has(records, s[7]) && Has(records, s[8]);
    assert Has(records, s[9]) && Has(records, s[10]);
  }

  lemma PeaksLabelled(r: Report, m: Meta, l: Labels)
    ensures var records := AllFields(ReportRecords(r, m, l));
            && Has(records, [Text(l.peak), Text(l.value)])
            && (match r.busiestDay
                case Some(d) => Has(records, [Text(l.busiestDay), Text(d.date), Number(d.count)])
                case None => Has(records, [Text(l.busiestDay), Text(""), Text("")]))
            && (match r.busiestHour
                case Some(h) => Has(records, [Text(l.busiestHour), Number(h.hour), Number(h.count)])
                case None => Has(records, [Text(l.busiestHour), Text(""), Text("")]))
  {
    hide Has, AllFields, ReportRecords, Identification, Summary, Series;
    var p := Peak(r, l);
    SectionFound(r, m, l, 2, p);
    var records := AllFields(ReportRecords(r, m, l));
    assert Has(records, p[0]) && Has(records, p[1]) && Has(records, p[2]);
  }

  /** The entries by day, week, status and hour, each with the label of its section and under its own heading. */
  lemma SeriesLabelled(r: Report, m: Meta, l: Labels)
    ensures var records := AllFields(ReportRecords(r, m, l));
            && Has(records, [Text(l.daily), Text(l.date), Text(l.tickets)])
            && Has(records, [Text(l.weekly), Text(l.weekStart), Text(l.tickets)])
            && Has(records, [Text(l.statusDistribution), Text(l.status), Text(l.tickets)])
            && Has(records, [Text(l.issuedHourly), Text(l.hour), Text(l.tickets)])
            && Has(records, [Text(l.hourly), Text(l.hour), Text(l.completed)])
            && (forall d :: d in r.issuedByDay ==> Has(records, [Text(l.daily), Text(d.date), Number(d.count)]))
            && (forall d :: d in r.issuedByWeek ==> Has(records, [Text(l.weekly), Text(d.date), Number(d.count)]))
            && (forall c :: c in r.statusDistribution ==>
                  Has(records, [Text(l.statusDistribution), Text(l.statusLabels(c.status)), Number(c.count)]))
            && (forall h :: h in r.issuedByHour ==>
                  Has(records, [Text(l.issuedHourly), Number(h.hour), Number(h.count)]))
            && (forall h :: h in r.completedByHour ==> Has(records, [Text(l.hourly), Number(h.hour), Number(h.count)]))
  {
    hide Has, AllFields, ReportRecords, Identification, Summary, Peak, Series;
    var records := AllFields(ReportRecords(r, m, l));
    SeriesFound(r, m, l, 3, [Text(l.daily), Text(l.date), Text(l.tickets)], r.issuedByDay, d => DayRecord(l.daily, d));
    SeriesFound(r, m, l, 4, [Text(l.weekly), Text(l.weekStart), Text(l.tickets)], r.issuedByWeek,
                d => DayRecord(l.weekly, d));
    SeriesFound(r, m, l, 8, [Text(l.statusDistribution), Text(l.status), Text(l.tickets)], r.statusDistribution,
                c => StatusRecord(l, c));
    SeriesFound(r, m, l, 9, [Text(l.issuedHourly), Text(l.hour), Text(l.tickets)], r.issuedByHour,
                h => HourRecord(l.issuedHourly, h));
    SeriesFound(r, m, l, 10, [Text(l.hourly), Text(l.hour), Text(l.completed)], r.completedByHour,
                h => HourRecord(l.hourly, h));
  }

  lemma SeriesFound<S(!new)>(r: Report, m: Meta, l: Labels, i: nat, heading: Record, entries: seq<S>,
                             record: S -> Record)
    requires i < 11 && Sections(r, m, l)[i] == Series(heading, entries, record)
    ensures var records := AllFields(ReportRecords(r, m, l));
            Has(records, heading) && forall e :: e in entries ==> Has(records, record(e))
  {
    hide Sections, Has, AllFields, ReportRecords;
    var section, records := Series(heading, entries, record), AllFields(ReportRecords(r, m, l));
    SectionFound(r, m, l, i, section);
    assert section[0] == heading;
    forall e | e in entries
      ensures Has(records, record(e))
    {
      var k :| 0 <= k < |entries| && entries[k] == e;
      assert section[1 + k] == record(e);
    }
  }

  /** The performance tables, averages that are missing left empty. */
  lemma PerformanceLabelled(r: Report, m: Meta, l: Labels)
    ensures var records := AllFields(ReportRecords(r, m, l));
            && Has(records, [Text(l.branchPerformance), Text(l.branch), Text(l.completed),
                             Text(l.averageWaitSeconds), Text(l.averageServiceSeconds)])
            && Has(records, [Text(l.queuePerformance), Text(l.branch), Text(l.queue), Text(l.completed),
                             Text(l.averageWaitSeconds), Text(l.averageServiceSeconds)])
            && Has(records, [Text(l.staffPerformance), Text(l.staff), Text(l.servedTickets),
                             Text(l.averageWaitSeconds), Text(l.averageServiceSeconds)])
            && (forall p :: p in r.branchPerformance ==>
                  Has(records, [Text(l.branchPerformance), Text(p.branchName), Number(p.tickets),
                                Optional(p.averageWaitSeconds), Optional(p.averageServiceSeconds)]))
            && (forall p :: p in r.queuePerformance ==>
                  Has(records, [Text(l.queuePerformance), Text(p.branchName), Text(p.queueName), Number(p.tickets),
                                Optional(p.averageWaitSeconds), Optional(p.averageServiceSeconds)]))
            && (forall p :: p in r.staffPerformance ==>
                  Has(records, [Text(l.staffPerformance), Text(p.staffName), Number(p.tickets),
                                Optional(p.averageWaitSeconds), Optional(p.averageServiceSeconds)]))
  {
    hide Has, AllFields, ReportRecords, Identification, Summary, Peak, Series;
    SeriesFound(r, m, l, 5, [Text(l.branchPerformance), Text(l.branch), Text(l.completed),
                             Text(l.averageWaitSeconds), Text(l.averageServiceSeconds)],
                r.branchPerformance, p => BranchRecord(l, p));
    SeriesFound(r, m, l, 6, [Text(l.queuePerformance), Text(l.branch), Text(l.queue), Text(l.completed),
                             Text(l.averageWaitSeconds), Text(l.averageServiceSeconds)],
                r.queuePerformance, p => QueueRecord(l, p));
    SeriesFound(r, m, l, 7, [Text(l.staffPerformance), Text(l.staff), Text(l.servedTickets),
                             Text(l.averageWaitSeconds), Text(l.averageServiceSeconds)],
                r.staffPerformance, p => StaffRecord(l, p));
  }
}
