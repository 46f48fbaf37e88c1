/**
 * The report's date filter as the code literally computes it in a browser.
 * `new Date("YYYY-MM-DD")` denotes midnight UTC of that day, while the
 * normalisation reads the year, month and day back in local time. West of
 * Greenwich, midnight UTC falls on the previous local day, so the entry is
 * compared as if dated one day earlier. The range ends come from the date
 * picker in local time and are not shifted.
 */
module LocalTime {
  import opened Wrappers
  import opened Sequences
  import opened Dates
  import opened Records
  import opened Report

  /** A time zone's offset from UTC in minutes, positive east of Greenwich. */
  type UtcOffset = m: int | -1440 < m < 1440

  /** The local calendar day on which midnight UTC of `d` falls. */
  function LocalDayOfUtcMidnight(d: Date, offset: UtcOffset): (r: Date)
    ensures offset >= 0 ==> r == d
    ensures offset < 0 ==> Before(r, d) && (Valid(d) ==> Valid(r))
  {
    if offset < 0 then PreviousDay(d) else d
  }

  function InDateRangeAsWritten(start: Date, end: Date, offset: UtcOffset): TimeEntry -> bool {
    (e: TimeEntry) => Leq(start, LocalDayOfUtcMidnight(e.date, offset)) && Leq(LocalDayOfUtcMidnight(e.date, offset), end)
  }

  /** Whether the code keeps `e`: `Selected`, but with the entry's date shifted. */
  predicate SelectedAsWritten(e: TimeEntry, start: Option<Date>, end: Option<Date>, memberFilter: string, offset: UtcOffset) {
    (start.Some? && end.Some? ==> InDateRangeAsWritten(start.value, end.value, offset)(e)) &&
    (memberFilter != AllMembers ==> e.teamMemberId == memberFilter)
  }

  /** `getFilteredEntries` with the entry date shifted as the browser shifts it. */
  function FilteredEntriesAsWritten(entries: seq<TimeEntry>, start: Option<Date>, end: Option<Date>, memberFilter: string, offset: UtcOffset): (r: seq<TimeEntry>)
    ensures forall i :: 0 <= i < |r| ==> r[i] in entries && SelectedAsWritten(r[i], start, end, memberFilter, offset)
    ensures forall i :: 0 <= i < |entries| && SelectedAsWritten(entries[i], start, end, memberFilter, offset) ==> entries[i] in r
  {
    var byDate := if start.Some? && end.Some? then Filter(entries, InDateRangeAsWritten(start.value, end.value, offset)) else entries;
    if memberFilter != AllMembers then Filter(byDate, ByTeamMember(memberFilter)) else byDate
  }

  /** East of Greenwich (and at UTC) the code behaves as intended. */
  lemma AsWrittenAgreesEastOfUtc(entries: seq<TimeEntry>, start: Option<Date>, end: Option<Date>, memberFilter: string, offset: UtcOffset)
    requires offset >= 0
    ensures FilteredEntriesAsWritten(entries, start, end, memberFilter, offset) == FilteredEntries(entries, start, end, memberFilter)
  {
    if start.Some? && end.Some? {
      FilterCongruent(entries, InDateRangeAsWritten(start.value, end.value, offset), InDateRange(start.value, end.value));
    }
  }

  /** West of Greenwich an entry dated on the first day of the range is selected by intent but dropped by the code. */
  lemma AsWrittenDropsStartDay(entries: seq<TimeEntry>, start: Date, end: Date, memberFilter: string, offset: UtcOffset, i: nat)
    requires offset < 0 && i < |entries| && entries[i].date == start && Leq(start, end)
    requires memberFilter == AllMembers || entries[i].teamMemberId == memberFilter
    ensures entries[i] in FilteredEntries(entries, Some(start), Some(end), memberFilter)
    ensures entries[i] !in FilteredEntriesAsWritten(entries, Some(start), Some(end), memberFilter, offset)
  {
  }

  /** West of Greenwich an entry dated the day after the range is kept by the code. */
  lemma AsWrittenKeepsDayAfterEnd(entries: seq<TimeEntry>, start: Date, end: Date, memberFilter: string, offset: UtcOffset, i: nat)
    requires offset < 0 && i < |entries| && PreviousDay(entries[i].date) == end && Leq(start, end)
    requires memberFilter == AllMembers || entries[i].teamMemberId == memberFilter
    ensures entries[i] !in FilteredEntries(entries, Some(start), Some(end), memberFilter)
    ensures entries[i] in FilteredEntriesAsWritten(entries, Some(start), Some(end), memberFilter, offset)
  {
    var byDate := Filter(entries, InDateRangeAsWritten(start, end, offset));
    assert entries[i] in byDate;
    if memberFilter != AllMembers {
      var k :| 0 <= k < |byDate| && byDate[k] == entries[i];
    }
  }

  /** In New York in winter (UTC-5), an entry on 2024-01-05 is missing from the report for 2024-01-05 alone. */
  lemma AsWrittenCounterexample(e: TimeEntry)
    requires e.date == Date(2024, 1, 5)
    ensures FilteredEntriesAsWritten([e], Some(Date(2024, 1, 5)), Some(Date(2024, 1, 5)), AllMembers, -300) == []
    ensures FilteredEntries([e], Some(Date(2024, 1, 5)), Some(Date(2024, 1, 5)), AllMembers) == [e]
  {
    assert LocalDayOfUtcMidnight(e.date, -300) == Date(2024, 1, 4);
  }
}
