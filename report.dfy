/**
 * The report engine of the tracker: the date-range and team-member filter,
 * the hour and kilometre totals, and the project and member labels.
 */
module Report {
  import opened Wrappers
  import opened Sequences
  import opened Dates
  import opened Records

  /** The member-filter value that stands for "every team member". */
  const AllMembers: string := "all"

  const UnknownProject: string := "Unknown Project"
  const UnknownMember: string := "Unknown Member"

  function InDateRange(start: Date, end: Date): TimeEntry -> bool {
    (e: TimeEntry) => Leq(start, e.date) && Leq(e.date, end)
  }

  function ByTeamMember(id: string): TimeEntry -> bool {
    (e: TimeEntry) => e.teamMemberId == id
  }

  /** Whether the report keeps `e`: the two filters, each applied only when it is active. */
  predicate Selected(e: TimeEntry, start: Option<Date>, end: Option<Date>, memberFilter: string) {
    (start.Some? && end.Some? ==> Leq(start.value, e.date) && Leq(e.date, end.value)) &&
    (memberFilter != AllMembers ==> e.teamMemberId == memberFilter)
  }

  /**
   * `getFilteredEntries`: an inclusive date range, used only when both ends
   * are set, followed by an exact team-member match unless the filter is "all".
   */
  function FilteredEntries(entries: seq<TimeEntry>, start: Option<Date>, end: Option<Date>, memberFilter: string): (r: seq<TimeEntry>)
    ensures forall i :: 0 <= i < |r| ==> r[i] in entries && Selected(r[i], start, end, memberFilter)
    ensures forall i :: 0 <= i < |entries| && Selected(entries[i], start, end, memberFilter) ==> entries[i] in r
  {
    var byDate := if start.Some? && end.Some? then Filter(entries, InDateRange(start.value, end.value)) else entries;
    if memberFilter != AllMembers then Filter(byDate, ByTeamMember(memberFilter)) else byDate
  }

  /** The report keeps entries in their stored order, never inventing or repeating one. */
  lemma FilteredIsSubsequence(entries: seq<TimeEntry>, start: Option<Date>, end: Option<Date>, memberFilter: string)
    ensures IsSubsequence(FilteredEntries(entries, start, end, memberFilter), entries)
  {
    var byDate := if start.Some? && end.Some? then Filter(entries, InDateRange(start.value, end.value)) else entries;
    if start.Some? && end.Some? {
      FilterIsSubsequence(entries, InDateRange(start.value, end.value));
    } else {
      SubsequenceReflexive(entries);
    }
    if memberFilter != AllMembers {
      FilterIsSubsequence(byDate, ByTeamMember(memberFilter));
      SubsequenceTransitive(Filter(byDate, ByTeamMember(memberFilter)), byDate, entries);
    }
  }

  /** Each selected entry is reported as often as it is stored, and every other entry not at all. */
  lemma FilteredCount(entries: seq<TimeEntry>, start: Option<Date>, end: Option<Date>, memberFilter: string, e: TimeEntry)
    ensures multiset(FilteredEntries(entries, start, end, memberFilter))[e] ==
            if Selected(e, start, end, memberFilter) then multiset(entries)[e] else 0
  {
    var byDate := if start.Some? && end.Some? then Filter(entries, InDateRange(start.value, end.value)) else entries;
    if start.Some? && end.Some? {
      FilterCount(entries, InDateRange(start.value, end.value), e);
    }
    if memberFilter != AllMembers {
      FilterCount(byDate, ByTeamMember(memberFilter), e);
    }
  }

  /** With no complete date range and the member filter at "all", the report shows every entry as stored. */
  lemma FilteredWithoutFilters(entries: seq<TimeEntry>, start: Option<Date>, end: Option<Date>)
    requires start.None? || end.None?
    ensures FilteredEntries(entries, start, end, AllMembers) == entries
  {
  }

  /** The range 2024-01-05 .. 2024-01-10 includes both end days and excludes the days just outside them. */
  lemma FilteredRangeIsInclusive(e4: TimeEntry, e5: TimeEntry, e10: TimeEntry, e11: TimeEntry)
    requires e4.date == Date(2024, 1, 4) && e5.date == Date(2024, 1, 5)
    requires e10.date == Date(2024, 1, 10) && e11.date == Date(2024, 1, 11)
    ensures FilteredEntries([e4, e5, e10, e11], Some(Date(2024, 1, 5)), Some(Date(2024, 1, 10)), AllMembers) == [e5, e10]
  {
    var keep := InDateRange(Date(2024, 1, 5), Date(2024, 1, 10));
    assert Filter([e11], keep) == [];
    assert Filter([e10, e11], keep) == [e10];
    assert Filter([e5, e10, e11], keep) == [e5, e10];
  }

  // Totals

  datatype Totals = Totals(hours: real, kilometers: real)

  function AddEntry(t: Totals, e: TimeEntry): Totals {
    Totals(t.hours + e.hours, t.kilometers + e.kilometers)
  }

  /**
   * The `reduce` of `calculateTotals`: a left fold from the accumulator `acc`,
   * which adds the sum of the hours and the sum of the kilometres to it.
   */
  function FoldTotals(acc: Totals, entries: seq<TimeEntry>): (r: Totals)
    ensures r == Totals(acc.hours + Sum(entries, HoursOf), acc.kilometers + Sum(entries, KilometersOf))
    decreases |entries|
  {
    if entries == [] then acc else FoldTotals(AddEntry(acc, entries[0]), entries[1..])
  }

  /** `calculateTotals`: the fold started from zero hours and zero kilometres. */
  function CalculateTotals(entries: seq<TimeEntry>): (t: Totals)
    ensures entries == [] ==> t == Totals(0.0, 0.0)
  {
    FoldTotals(Totals(0.0, 0.0), entries)
  }

  function HoursOf(e: TimeEntry): real { e.hours }
  function KilometersOf(e: TimeEntry): real { e.kilometers }

  /** The plain sum of one amount over the entries, the reference for the fold. */
  function Sum(entries: seq<TimeEntry>, amount: TimeEntry -> real): real
    decreases |entries|
  {
    if entries == [] then 0.0 else amount(entries[0]) + Sum(entries[1..], amount)
  }

  lemma {:induction false} SumConcat(a: seq<TimeEntry>, b: seq<TimeEntry>, amount: TimeEntry -> real)
    ensures Sum(a + b, amount) == Sum(a, amount) + Sum(b, amount)
    decreases |a|
  {
    if a == [] {
      assert a + b == b;
    } else {
      assert (a + b)[0] == a[0];
      assert (a + b)[1..] == a[1..] + b;
      SumConcat(a[1..], b, amount);
    }
  }

  /** Each component of the totals is the sum of that field over the entries. */
  lemma CalculateTotalsIsSum(entries: seq<TimeEntry>)
    ensures CalculateTotals(entries) == Totals(Sum(entries, HoursOf), Sum(entries, KilometersOf))
  {
  }

  /** The totals of a concatenation are the sums of the totals of its parts. */
  lemma CalculateTotalsConcat(a: seq<TimeEntry>, b: seq<TimeEntry>)
    ensures CalculateTotals(a + b) ==
            Totals(CalculateTotals(a).hours + CalculateTotals(b).hours,
                   CalculateTotals(a).kilometers + CalculateTotals(b).kilometers)
  {
    CalculateTotalsIsSum(a);
    CalculateTotalsIsSum(b);
    CalculateTotalsIsSum(a + b);
    SumConcat(a, b, HoursOf);
    SumConcat(a, b, KilometersOf);
  }

  /** Two entries of 2 h / 3 km and 1.5 h / 0 km total 3.5 h and 3 km. */
  lemma CalculateTotalsExample(a: TimeEntry, b: TimeEntry)
    requires a.hours == 2.0 && a.kilometers == 3.0 && b.hours == 1.5 && b.kilometers == 0.0
    ensures CalculateTotals([a, b]) == Totals(3.5, 3.0)
  {
    var t1 := AddEntry(Totals(0.0, 0.0), a);
    assert [a, b][1..] == [b];
    assert FoldTotals(t1, [b]) == FoldTotals(AddEntry(t1, b), []);
  }

  // Labels

  function HasProjectId(id: string): Project -> bool {
    (p: Project) => p.id == id
  }

  function HasTeamMemberId(id: string): TeamMember -> bool {
    (m: TeamMember) => m.id == id
  }

  /** `getProjectName`: "code - name" of the first project with the id, or "Unknown Project". */
  function GetProjectName(projects: seq<Project>, projectId: string): (text: string)
    ensures (forall i :: 0 <= i < |projects| ==> projects[i].id != projectId) ==> text == UnknownProject
    ensures forall i :: 0 <= i < |projects| && projects[i].id == projectId &&
                        (forall j :: 0 <= j < i ==> projects[j].id != projectId) ==>
                        text == projects[i].code + " - " + projects[i].name
  {
    match Find(projects, HasProjectId(projectId))
    case None => UnknownProject
    case Some(p) => p.code + " - " + p.name
  }

  /** `getTeamMemberName`: the name of the first member with the id, or "Unknown Member". */
  function GetTeamMemberName(members: seq<TeamMember>, teamMemberId: string): (text: string)
    ensures (forall i :: 0 <= i < |members| ==> members[i].id != teamMemberId) ==> text == UnknownMember
    ensures forall i :: 0 <= i < |members| && members[i].id == teamMemberId &&
                        (forall j :: 0 <= j < i ==> members[j].id != teamMemberId) ==>
                        text == members[i].name
  {
    match Find(members, HasTeamMemberId(teamMemberId))
    case None => UnknownMember
    case Some(m) => m.name
  }
}
