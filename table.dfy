/**
 * The rows of the report table and of the printed report: the filtered
 * entries sorted by date, most recent first, or a single "no entries" row
 * when nothing is selected.
 */
module ReportTable {
  import opened Wrappers
  import opened Sequences
  import opened Dates
  import opened Records
  import opened Report

  /** Most recent first: no entry is dated after an entry listed before it. */
  predicate SortedByDateDescending(s: seq<TimeEntry>) {
    forall i, j :: 0 <= i < j < |s| ==> Leq(s[j].date, s[i].date)
  }

  /**
   * Places `x` in front of the first entry of `t` that is not later than it.
   * `x` therefore lands before entries of the same date that follow it in the
   * input, which is what keeps the sort stable.
   */
  function Insert(x: TimeEntry, t: seq<TimeEntry>): (r: seq<TimeEntry>)
    ensures |r| == |t| + 1
    ensures multiset(r) == multiset(t) + multiset{x}
    ensures forall k :: 0 <= k < |r| ==> r[k] == x || r[k] in t
    decreases |t|
  {
    if t == [] then [x]
    else if Leq(t[0].date, x.date) then [x] + t
    else
      assert t == [t[0]] + t[1..];
      [t[0]] + Insert(x, t[1..])
  }

  lemma {:induction false} InsertKeepsSorted(x: TimeEntry, t: seq<TimeEntry>)
    requires SortedByDateDescending(t)
    ensures SortedByDateDescending(Insert(x, t))
    decreases |t|
  {
    if t != [] && !Leq(t[0].date, x.date) {
      var rest := Insert(x, t[1..]);
      InsertKeepsSorted(x, t[1..]);
      forall k | 0 <= k < |rest| ensures Leq(rest[k].date, t[0].date) {
        if rest[k] != x {
          var j :| 0 <= j < |t[1..]| && t[1..][j] == rest[k];
          assert t[j + 1] == rest[k];
        }
      }
    }
  }

  /**
   * `entries.sort((a, b) => new Date(b.date).getTime() - new Date(a.date).getTime())`:
   * a stable sort (as ECMAScript requires of `Array.prototype.sort`) by date, latest first.
   */
  function SortByDateDescending(s: seq<TimeEntry>): (r: seq<TimeEntry>)
    ensures |r| == |s| && multiset(r) == multiset(s)
    ensures SortedByDateDescending(r)
    decreases |s|
  {
    if s == [] then []
    else
      assert s == [s[0]] + s[1..];
      InsertKeepsSorted(s[0], SortByDateDescending(s[1..]));
      Insert(s[0], SortByDateDescending(s[1..]))
  }

  function OnDate(d: Date): TimeEntry -> bool {
    (e: TimeEntry) => e.date == d
  }

  lemma {:induction false} InsertStable(x: TimeEntry, t: seq<TimeEntry>, d: Date)
    requires SortedByDateDescending(t)
    ensures Filter(Insert(x, t), OnDate(d)) == Filter([x], OnDate(d)) + Filter(t, OnDate(d))
    decreases |t|
  {
    if t == [] {
    } else if Leq(t[0].date, x.date) {
      FilterConcat([x], t, OnDate(d));
    } else {
      InsertStable(x, t[1..], d);
      FilterConcat([t[0]], Insert(x, t[1..]), OnDate(d));
      FilterConcat([t[0]], t[1..], OnDate(d));
      assert [t[0]] + t[1..] == t;
      assert t[0].date != d || x.date != d;
    }
  }

  /** Stability: entries that share a date keep their relative order. */
  lemma {:induction false} SortIsStable(s: seq<TimeEntry>, d: Date)
    ensures Filter(SortByDateDescending(s), OnDate(d)) == Filter(s, OnDate(d))
    decreases |s|
  {
    if s != [] {
      SortIsStable(s[1..], d);
      InsertStable(s[0], SortByDateDescending(s[1..]), d);
      FilterConcat([s[0]], s[1..], OnDate(d));
      assert [s[0]] + s[1..] == s;
    }
  }

  /** Sorting an already sorted sequence changes nothing, so re-rendering does not keep reordering. */
  lemma {:induction false} SortKeepsSorted(s: seq<TimeEntry>)
    requires SortedByDateDescending(s)
    ensures SortByDateDescending(s) == s
    decreases |s|
  {
    if s != [] {
      SortKeepsSorted(s[1..]);
    }
  }

  lemma {:induction false} SumInsert(x: TimeEntry, t: seq<TimeEntry>, amount: TimeEntry -> real)
    ensures Sum(Insert(x, t), amount) == amount(x) + Sum(t, amount)
    decreases |t|
  {
    if t != [] && !Leq(t[0].date, x.date) {
      SumInsert(x, t[1..], amount);
    }
  }

  /** Sorting does not change the totals. */
  lemma {:induction false} SortKeepsTotals(s: seq<TimeEntry>)
    ensures CalculateTotals(SortByDateDescending(s)) == CalculateTotals(s)
  {
    SortKeepsSums(s, HoursOf);
    SortKeepsSums(s, KilometersOf);
    CalculateTotalsIsSum(s);
    CalculateTotalsIsSum(SortByDateDescending(s));
  }

  lemma {:induction false} SortKeepsSums(s: seq<TimeEntry>, amount: TimeEntry -> real)
    ensures Sum(SortByDateDescending(s), amount) == Sum(s, amount)
    decreases |s|
  {
    if s != [] {
      SortKeepsSums(s[1..], amount);
      SumInsert(s[0], SortByDateDescending(s[1..]), amount);
    }
  }

  // Rows

  const NoEntriesText: string := "No entries found for the selected criteria"

  /** One table row: the date, member label, project label, hours, kilometres and description ("-" when absent or empty). */
  datatype ReportRow =
    | EntryRow(date: Date, member: string, project: string, hours: real, kilometers: real, description: string)
    | MessageRow(text: string)

  function DescriptionText(description: Option<string>): (text: string)
    ensures text != ""
    ensures description.Some? && description.value != "" ==> text == description.value
    ensures description.None? || description.value == "" ==> text == "-"
  {
    match description
    case Some(d) => if d == "" then "-" else d
    case None => "-"
  }

  /** The row of one entry: its own date and amounts, with the two labels looked up and the description placeholder applied. */
  function RowFor(e: TimeEntry, projects: seq<Project>, members: seq<TeamMember>): (row: ReportRow)
    ensures row.EntryRow? && row.date == e.date && row.hours == e.hours && row.kilometers == e.kilometers
    ensures row.member == GetTeamMemberName(members, e.teamMemberId) && row.project == GetProjectName(projects, e.projectId)
    ensures row.description == DescriptionText(e.description)
  {
    EntryRow(e.date, GetTeamMemberName(members, e.teamMemberId), GetProjectName(projects, e.projectId),
             e.hours, e.kilometers, DescriptionText(e.description))
  }

  function EntryRows(s: seq<TimeEntry>, projects: seq<Project>, members: seq<TeamMember>): (rows: seq<ReportRow>)
    ensures |rows| == |s|
    ensures forall i :: 0 <= i < |s| ==> rows[i] == RowFor(s[i], projects, members)
    decreases |s|
  {
    if s == [] then []
    else
      var rest := EntryRows(s[1..], projects, members);
      assert forall i :: 1 <= i < |s| ==> s[i] == s[1..][i - 1];
      [RowFor(s[0], projects, members)] + rest
  }

  /** The table body the Reports tab and the printed report share. */
  function ReportRows(filtered: seq<TimeEntry>, projects: seq<Project>, members: seq<TeamMember>): (rows: seq<ReportRow>)
    ensures |filtered| == 0 ==> rows == [MessageRow(NoEntriesText)]
    ensures |filtered| > 0 ==> |rows| == |filtered| && forall i :: 0 <= i < |rows| ==> rows[i].EntryRow?
  {
    if |filtered| == 0 then [MessageRow(NoEntriesText)]
    else EntryRows(SortByDateDescending(filtered), projects, members)
  }

  lemma {:induction false} EntryRowsInsert(x: TimeEntry, t: seq<TimeEntry>, projects: seq<Project>, members: seq<TeamMember>)
    ensures multiset(EntryRows(Insert(x, t), projects, members)) ==
            multiset(EntryRows(t, projects, members)) + multiset{RowFor(x, projects, members)}
    decreases |t|
  {
    if t != [] && !Leq(t[0].date, x.date) {
      EntryRowsInsert(x, t[1..], projects, members);
      assert Insert(x, t) == [t[0]] + Insert(x, t[1..]);
    }
  }

  lemma {:induction false} EntryRowsSort(s: seq<TimeEntry>, projects: seq<Project>, members: seq<TeamMember>)
    ensures multiset(EntryRows(SortByDateDescending(s), projects, members)) == multiset(EntryRows(s, projects, members))
    decreases |s|
  {
    if s != [] {
      EntryRowsSort(s[1..], projects, members);
      EntryRowsInsert(s[0], SortByDateDescending(s[1..]), projects, members);
    }
  }

  /**
   * An empty selection gives exactly the one "no entries" row; otherwise the
   * rows are the selected entries' rows, rearranged so that dates descend.
   */
  lemma ReportRowsShape(filtered: seq<TimeEntry>, projects: seq<Project>, members: seq<TeamMember>)
    ensures filtered == [] ==> ReportRows(filtered, projects, members) == [MessageRow(NoEntriesText)]
    ensures filtered != [] ==>
      var rows := ReportRows(filtered, projects, members);
      && |rows| == |filtered|
      && (forall i :: 0 <= i < |rows| ==> rows[i].EntryRow?)
      && (forall i, j :: 0 <= i < j < |rows| ==> Leq(rows[j].date, rows[i].date))
      && multiset(rows) == multiset(EntryRows(filtered, projects, members))
  {
    if filtered != [] {
      EntryRowsSort(filtered, projects, members);
    }
  }
}
