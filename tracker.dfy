/**
 * `ShovelProjectTracker`, the page component that owns the three
 * collections. Each handler replaces a whole collection with an appended or
 * filtered copy and may clear the form fields it read. The report renderers
 * sort with `Array.prototype.sort`, which works in place: when no filter is
 * active `getFilteredEntries` hands back the stored array itself, so the
 * sort reorders the stored entries.
 */
module Tracker {
  import opened Wrappers
  import opened Sequences
  import opened Text
  import opened Dates
  import opened Records
  import opened Report
  import opened ReportTable

  /** `Number.parseFloat(text) || 0`, given what `parseFloat` returned (`None` for NaN). */
  function ParsedOrZero(parsed: Option<real>): real {
    match parsed
    case Some(v) => v
    case None => 0.0
  }

  /** Whether `getFilteredEntries` returns the stored array itself rather than a filtered copy. */
  predicate ReturnsStoredEntries(start: Option<Date>, end: Option<Date>, memberFilter: string) {
    !(start.Some? && end.Some?) && memberFilter == AllMembers
  }

  datatype DateRangeFilter = AllDates | Between(start: Date, end: Date)

  /** What the printed report shows as its filters, its totals and its table. */
  datatype PrintedReport = PrintedReport(dateRange: DateRangeFilter, member: string, totals: Totals, rows: seq<ReportRow>)

  const AllTeamMembers: string := "All Team Members"

  const RecentLimit: nat := 10

  class ShovelProjectTracker {
    var projects: seq<Project>
    var teamMembers: seq<TeamMember>
    var timeEntries: seq<TimeEntry>
    var selectedDate: Date
    var reportStartDate: Option<Date>
    var reportEndDate: Option<Date>
    var reportTeamMemberFilter: string

    // Form fields, as typed or selected by the user.
    var newProjectCode: string
    var newProjectName: string
    var newTeamMemberName: string
    var selectedProjectId: string
    var selectedTeamMemberId: string
    var hours: string
    var kilometers: string
    var description: string

    /** Every stored entry refers to a stored project and a stored team member. */
    ghost predicate Consistent()
      reads this
    {
      ReferencesResolve(projects, teamMembers, timeEntries)
    }

    /** The initial state; `today` stands for `new Date()`. */
    constructor (today: Date)
      ensures projects == [] && teamMembers == [] && timeEntries == []
      ensures selectedDate == today && reportStartDate == None && reportEndDate == None
      ensures reportTeamMemberFilter == AllMembers
      ensures newProjectCode == "" && newProjectName == "" && newTeamMemberName == ""
      ensures selectedProjectId == "" && selectedTeamMemberId == ""
      ensures hours == "" && kilometers == "" && description == ""
      ensures Consistent()
    {
      projects, teamMembers, timeEntries := [], [], [];
      selectedDate, reportStartDate, reportEndDate := today, None, None;
      reportTeamMemberFilter := AllMembers;
      newProjectCode, newProjectName, newTeamMemberName := "", "", "";
      selectedProjectId, selectedTeamMemberId := "", "";
      hours, kilometers, description := "", "", "";
    }

    /** `addProject`; `newId` stands for `Date.now().toString()`. */
    method AddProject(newId: string)
      modifies this`projects, this`newProjectCode, this`newProjectName
      ensures if old(newProjectCode) != "" && old(newProjectName) != "" then
                projects == old(projects) + [Project(newId, old(newProjectCode), old(newProjectName))] &&
                newProjectCode == "" && newProjectName == ""
              else
                projects == old(projects) && newProjectCode == old(newProjectCode) && newProjectName == old(newProjectName)
      ensures old(Consistent()) ==> Consistent()
    {
      if newProjectCode != "" && newProjectName != "" {
        var project := Project(newId, newProjectCode, newProjectName);
        if Consistent() {
          AddProjectKeepsReferences(projects, teamMembers, timeEntries, project);
        }
        projects := projects + [project];
        newProjectCode := "";
        newProjectName := "";
      }
    }

    /** `deleteProject`: drops the project and, in cascade, every entry booked on it. */
    method DeleteProject(id: string)
      modifies this`projects, this`timeEntries
      ensures projects == Filter(old(projects), NotProject(id))
      ensures timeEntries == Filter(old(timeEntries), NotOnProject(id))
      ensures forall i :: 0 <= i < |projects| ==> projects[i].id != id
      ensures forall i :: 0 <= i < |timeEntries| ==> timeEntries[i].projectId != id
      ensures old(Consistent()) ==> Consistent()
    {
      if Consistent() {
        DeleteProjectKeepsReferences(projects, teamMembers, timeEntries, id);
      }
      projects := Filter(projects, NotProject(id));
      timeEntries := Filter(timeEntries, NotOnProject(id));
    }

    /** `addTeamMember`: stores the trimmed name, when it is not empty. */
    method AddTeamMember(newId: string)
      modifies this`teamMembers, this`newTeamMemberName
      ensures if Trim(old(newTeamMemberName)) != "" then
                teamMembers == old(teamMembers) + [TeamMember(newId, Trim(old(newTeamMemberName)))] &&
                newTeamMemberName == ""
              else
                teamMembers == old(teamMembers) && newTeamMemberName == old(newTeamMemberName)
      ensures old(Consistent()) ==> Consistent()
    {
      var name := Trim(newTeamMemberName);
      if name != "" {
        var member := TeamMember(newId, name);
        if Consistent() {
          AddTeamMemberKeepsReferences(projects, teamMembers, timeEntries, member);
        }
        teamMembers := teamMembers + [member];
        newTeamMemberName := "";
      }
    }

    /** `deleteTeamMember`: drops the member and, in cascade, every entry they logged. */
    method DeleteTeamMember(id: string)
      modifies this`teamMembers, this`timeEntries
      ensures teamMembers == Filter(old(teamMembers), NotTeamMember(id))
      ensures timeEntries == Filter(old(timeEntries), NotByTeamMember(id))
      ensures forall i :: 0 <= i < |teamMembers| ==> teamMembers[i].id != id
      ensures forall i :: 0 <= i < |timeEntries| ==> timeEntries[i].teamMemberId != id
      ensures old(Consistent()) ==> Consistent()
    {
      if Consistent() {
        DeleteTeamMemberKeepsReferences(projects, teamMembers, timeEntries, id);
      }
      teamMembers := Filter(teamMembers, NotTeamMember(id));
      timeEntries := Filter(timeEntries, NotByTeamMember(id));
    }

    /**
     * `addTimeEntry`. `parsedHours` and `parsedKilometers` are what
     * `Number.parseFloat` returns for the `hours` and `kilometers` fields.
     * The selected ids are only tested for being non-empty, never looked up:
     * deleting the selected project or member does not clear the selection,
     * so an entry may be stored whose project or member is gone.
     */
    method AddTimeEntry(newId: string, parsedHours: Option<real>, parsedKilometers: Option<real>)
      modifies this`timeEntries, this`selectedProjectId, this`selectedTeamMemberId,
               this`hours, this`kilometers, this`description
      ensures if old(selectedProjectId) != "" && old(selectedTeamMemberId) != "" && (old(hours) != "" || old(kilometers) != "") then
                timeEntries == old(timeEntries) + [TimeEntry(newId, old(selectedProjectId), old(selectedTeamMemberId), selectedDate,
                                                             ParsedOrZero(parsedHours), ParsedOrZero(parsedKilometers), Some(old(description)))] &&
                selectedProjectId == "" && selectedTeamMemberId == "" && hours == "" && kilometers == "" && description == ""
              else
                timeEntries == old(timeEntries) && selectedProjectId == old(selectedProjectId) &&
                selectedTeamMemberId == old(selectedTeamMemberId) && hours == old(hours) &&
                kilometers == old(kilometers) && description == old(description)
      ensures old(Consistent()) && HasProject(projects, old(selectedProjectId)) && HasTeamMember(teamMembers, old(selectedTeamMemberId)) ==>
              Consistent()
    {
      if selectedProjectId != "" && selectedTeamMemberId != "" && (hours != "" || kilometers != "") {
        var entry := TimeEntry(newId, selectedProjectId, selectedTeamMemberId, selectedDate,
                               ParsedOrZero(parsedHours), ParsedOrZero(parsedKilometers), Some(description));
        if Consistent() && HasProject(projects, selectedProjectId) && HasTeamMember(teamMembers, selectedTeamMemberId) {
          AddEntryKeepsReferences(projects, teamMembers, timeEntries, entry);
        }
        timeEntries := timeEntries + [entry];
        selectedProjectId, selectedTeamMemberId := "", "";
        hours, kilometers, description := "", "", "";
      }
    }

    /** `deleteTimeEntry`: drops exactly the entries with the id. */
    method DeleteTimeEntry(id: string)
      modifies this`timeEntries
      ensures timeEntries == Filter(old(timeEntries), NotEntry(id))
      ensures forall i :: 0 <= i < |timeEntries| ==> timeEntries[i].id != id
      ensures old(Consistent()) ==> Consistent()
    {
      if Consistent() {
        DeleteEntryKeepsReferences(projects, teamMembers, timeEntries, id);
      }
      timeEntries := Filter(timeEntries, NotEntry(id));
    }

    /** `getFilteredEntries()` on the current state. */
    function GetFilteredEntries(): (r: seq<TimeEntry>)
      reads this
      ensures forall i :: 0 <= i < |r| ==>
                r[i] in timeEntries && Selected(r[i], reportStartDate, reportEndDate, reportTeamMemberFilter)
      ensures forall i :: 0 <= i < |timeEntries| && Selected(timeEntries[i], reportStartDate, reportEndDate, reportTeamMemberFilter) ==>
                timeEntries[i] in r
    {
      FilteredEntries(timeEntries, reportStartDate, reportEndDate, reportTeamMemberFilter)
    }

    /**
     * The body of the report table: "no entries" or the entries sorted.
     * The sort happens in place, on the stored array when no filter is active.
     */
    method TableRows() returns (rows: seq<ReportRow>)
      modifies this`timeEntries
      ensures rows == ReportRows(old(GetFilteredEntries()), projects, teamMembers)
      ensures timeEntries ==
              if ReturnsStoredEntries(reportStartDate, reportEndDate, reportTeamMemberFilter)
              then SortByDateDescending(old(timeEntries)) else old(timeEntries)
      ensures multiset(timeEntries) == multiset(old(timeEntries))
      ensures old(Consistent()) ==> Consistent()
    {
      var filtered := GetFilteredEntries();
      if |filtered| == 0 {
        rows := [MessageRow(NoEntriesText)];
      } else {
        var sorted := SortByDateDescending(filtered);
        if ReturnsStoredEntries(reportStartDate, reportEndDate, reportTeamMemberFilter) {
          if Consistent() {
            ReorderKeepsReferences(projects, teamMembers, timeEntries, sorted);
          }
          timeEntries := sorted;
        }
        rows := EntryRows(sorted, projects, teamMembers);
      }
    }

    /** `printReport`; `windowOpened` says whether `window.open` returned a window. */
    method PrintReport(windowOpened: bool) returns (report: Option<PrintedReport>)
      modifies this`timeEntries
      ensures !windowOpened ==> report == None && timeEntries == old(timeEntries)
      ensures windowOpened ==>
              report == Some(PrintedReport(
                if reportStartDate.Some? && reportEndDate.Some? then Between(reportStartDate.value, reportEndDate.value) else AllDates,
                if reportTeamMemberFilter == AllMembers then AllTeamMembers else GetTeamMemberName(teamMembers, reportTeamMemberFilter),
                CalculateTotals(old(GetFilteredEntries())),
                ReportRows(old(GetFilteredEntries()), projects, teamMembers))) &&
              timeEntries ==
              if ReturnsStoredEntries(reportStartDate, reportEndDate, reportTeamMemberFilter)
              then SortByDateDescending(old(timeEntries)) else old(timeEntries)
      ensures old(Consistent()) ==> Consistent()
    {
      if !windowOpened {
        return None;
      }
      var totals := CalculateTotals(GetFilteredEntries());
      var range := if reportStartDate.Some? && reportEndDate.Some? then Between(reportStartDate.value, reportEndDate.value) else AllDates;
      var member := if reportTeamMemberFilter == AllMembers then AllTeamMembers else GetTeamMemberName(teamMembers, reportTeamMemberFilter);
      var rows := TableRows();
      report := Some(PrintedReport(range, member, totals, rows));
    }

    /** The "Recent Time Entries" list: the stored entries sorted in place, then the first ten. */
    method RecentEntries() returns (recent: seq<TimeEntry>)
      modifies this`timeEntries
      ensures timeEntries == SortByDateDescending(old(timeEntries))
      ensures |recent| == if |timeEntries| < RecentLimit then |timeEntries| else RecentLimit
      ensures recent == timeEntries[..|recent|]
      ensures old(Consistent()) ==> Consistent()
    {
      var sorted := SortByDateDescending(timeEntries);
      if Consistent() {
        ReorderKeepsReferences(projects, teamMembers, timeEntries, sorted);
      }
      timeEntries := sorted;
      recent := if |sorted| < RecentLimit then sorted else sorted[..RecentLimit];
    }

    /**
     * One render of the component: the filtered entries and their totals, the
     * report table body, then the "Recent Time Entries" list. React evaluates
     * both lists whichever tab is shown, so every render leaves the stored
     * entries sorted by date, latest first.
     */
    method Render() returns (totals: Totals, rows: seq<ReportRow>, recent: seq<TimeEntry>)
      modifies this`timeEntries
      ensures totals == CalculateTotals(old(GetFilteredEntries()))
      ensures rows == ReportRows(old(GetFilteredEntries()), projects, teamMembers)
      ensures timeEntries == SortByDateDescending(old(timeEntries))
      ensures |recent| == if |timeEntries| < RecentLimit then |timeEntries| else RecentLimit
      ensures recent == timeEntries[..|recent|]
      ensures old(Consistent()) ==> Consistent()
    {
      totals := CalculateTotals(GetFilteredEntries());
      rows := TableRows();
      SortKeepsSorted(SortByDateDescending(old(timeEntries)));
      recent := RecentEntries();
    }
  }
}
