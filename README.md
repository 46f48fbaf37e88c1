# Shovel Project Time Tracker, modelled in Dafny

The tracker is a single-page web app. Users record projects and team
members, log hours and kilometres per day against a project and a member,
and print a filtered report. All of its logic lives in the
`ShovelProjectTracker` page component. This model covers that logic:

- **Collections.** `Tracker.ShovelProjectTracker` is a class holding the
  three collections (`projects`, `teamMembers`, `timeEntries`), the report
  filters and the form fields the handlers read.
  - Each add or delete method replaces a whole collection with an appended
    or filtered copy, as the component does.
  - Each method names the fields it may change (``modifies this`projects``), so
    every other field stays as it was.
  - Deleting a project or a team member also deletes, in cascade, the time
    entries that refer to it.
  - `Consistent()` says that every entry refers to a stored project and a
    stored member. Every handler keeps it; `AddTimeEntry` keeps it when the
    selected ids are stored ones.
- **Report engine** (`Report`).
  - `FilteredEntries` is `getFilteredEntries`: an inclusive calendar-date
    range, applied only when both ends are set, then an exact team-member
    match unless the filter is `"all"`.
  - `CalculateTotals` is the `reduce` behind the two totals. It is proved
    equal to the plain sums and additive over concatenation.
  - `GetProjectName` and `GetTeamMemberName` are find-first lookups with
    the fallbacks "Unknown Project" and "Unknown Member".
- **Report table** (`ReportTable`).
  - Rows are sorted by date, most recent first, by a stable sort. ECMAScript
    requires `Array.prototype.sort` to be stable.
  - An empty selection gives a single "No entries found for the selected
    criteria" row instead.
  - The sort works in place. When no filter is active, `getFilteredEntries`
    returns the stored array itself, so rendering the table, or printing,
    reorders the stored entries. The "Recent Time Entries" list sorts the
    stored array itself. Both sorts run on every render, whichever tab is
    shown. `TableRows`, `PrintReport`, `RecentEntries` and `Render` state
    exactly that.

Dates are `(year, month, day)` triples compared lexicographically. That is
what the normalisation to midnight in `getFilteredEntries` intends. Amounts
are `real`.

Parameters stand for everything that comes from outside:
- `newId` for `Date.now().toString()`;
- `today` for `new Date()`;
- `parsedHours`/`parsedKilometers` for the results of `Number.parseFloat`;
- `windowOpened` for whether `window.open` returned a window;
- a `UtcOffset` for the browser's time zone.

The code accepts a time entry when the hours or kilometres *text* is
non-empty (app/page.tsx:126), so "0" is accepted and an all-zero entry can be
stored. Nothing stops an amount from being negative. The selected project and
member ids are only tested for being non-empty: deleting the selected project
or member does not clear the selection, so an entry can be stored whose
project or member no longer exists (it then shows "Unknown Project" or
"Unknown Member"). This is why `AddTimeEntry` keeps `Consistent()` only when
the selected ids are stored ones.

## Model

| member | source | states |
|---|---|---|
| Sequences.Filter | app/page.tsx:104-147 | `.filter`: every kept element is from the input and passes the test, every input element that passes is kept, and the result is no longer than the input |
| Sequences.FilterIsSubsequence | app/page.tsx:104-147 | what `.filter` keeps is a subsequence of the input: original relative order and nothing repeated or invented |
| Sequences.FilterCount | app/page.tsx:145-147 | each element that passes keeps its number of occurrences and each element that fails has none left, so a delete removes exactly the matching records |
| Sequences.FilterConcat | app/page.tsx:104-147 | filtering a concatenation is the concatenation of the filtered parts |
| Sequences.FilterCongruent | app/page.tsx:154-172 | two tests that agree on every element filter alike |
| Sequences.SubsequenceTransitive | app/page.tsx:150-180 | a subsequence of a subsequence is a subsequence, so two chained filters are one |
| Sequences.FindIndex | app/page.tsx:184 | the index of the first element that passes the test, and `None` exactly when no element passes |
| Sequences.Find | app/page.tsx:183-191 | `.find`: the first element that passes the test, or `None` exactly when none passes |
| Text.TrimStart | app/page.tsx:110 | drops exactly the leading ECMAScript white space: the result is the suffix that starts at the first other character |
| Text.TrimEnd | app/page.tsx:110 | drops exactly the trailing white space: the result is the prefix that ends at the last other character |
| Text.Trim | app/page.tsx:110-113 | `trim()` is empty exactly when the name is all white space; otherwise it starts and ends with a non-white-space character |
| Text.TrimIdempotent | app/page.tsx:113 | trimming the stored, trimmed name again changes nothing |
| Dates.LeqIsTotalOrder | app/page.tsx:157-171 | comparing normalised dates is a total order: reflexive, antisymmetric, transitive and total |
| Dates.PreviousDay | app/page.tsx:155-158 | the day before a date is strictly earlier and is a valid calendar date when the date is |
| Dates.PreviousDayIsImmediate | app/page.tsx:155-158 | no valid date lies between a date and its previous day |
| Records.DeleteProjectKeepsReferences | app/page.tsx:104-107 | deleting a project together with its entries leaves every remaining entry with a stored project and member |
| Records.DeleteTeamMemberKeepsReferences | app/page.tsx:120-123 | deleting a member together with their entries leaves every remaining entry with a stored project and member |
| Records.DeleteEntryKeepsReferences | app/page.tsx:145-147 | deleting entries leaves every reference resolving |
| Records.AddProjectKeepsReferences | app/page.tsx:98 | appending a project keeps every reference resolving |
| Records.AddTeamMemberKeepsReferences | app/page.tsx:115 | appending a member keeps every reference resolving |
| Records.AddEntryKeepsReferences | app/page.tsx:136 | appending an entry whose project and member are stored keeps every reference resolving |
| Records.ReorderKeepsReferences | app/page.tsx:275 | a reordering of the entries keeps every reference resolving |
| Report.FilteredEntries | app/page.tsx:149-181 | an entry is in the report if and only if it is stored, lies within start..end inclusive when both ends are set, and belongs to the filtered member when the filter is not "all" |
| Report.FilteredIsSubsequence | app/page.tsx:149-181 | the report is a subsequence of the stored entries |
| Report.FilteredCount | app/page.tsx:149-181 | a selected entry appears in the report as often as it is stored; an unselected one does not appear |
| Report.FilteredWithoutFilters | app/page.tsx:150-180 | with no complete date range and the filter "all", the report is the stored entries unchanged |
| Report.FilteredRangeIsInclusive | app/page.tsx:170-171 | for the range 2024-01-05..2024-01-10 the entries dated 01-05 and 01-10 are kept and those dated 01-04 and 01-11 are dropped |
| Report.CalculateTotals | app/page.tsx:193-201 | the totals of no entries are 0 h and 0 km |
| Report.FoldTotals | app/page.tsx:194-200 | the `reduce`: folding from any accumulator adds the sum of the hours and the sum of the kilometres to it |
| Report.SumConcat | app/page.tsx:194-200 | the sum of a field over a concatenation is the sum over its parts |
| Report.CalculateTotalsIsSum | app/page.tsx:193-201 | total hours is the sum of the hours and total kilometres the sum of the kilometres |
| Report.CalculateTotalsConcat | app/page.tsx:193-201 | the totals of a concatenation are the component-wise sums of the parts' totals |
| Report.CalculateTotalsExample | app/page.tsx:193-201 | 2 h / 3 km plus 1.5 h / 0 km total 3.5 h and 3 km |
| Report.GetProjectName | app/page.tsx:183-186 | "code - name" of the first project with the id, and "Unknown Project" when no project has it |
| Report.GetTeamMemberName | app/page.tsx:188-191 | the name of the first member with the id, and "Unknown Member" when no member has it |
| ReportTable.Insert | app/page.tsx:275 | inserting adds exactly the one entry: one longer, same multiset plus the entry, nothing else new |
| ReportTable.InsertKeepsSorted | app/page.tsx:275 | inserting into a date-descending sequence keeps it date-descending |
| ReportTable.SortByDateDescending | app/page.tsx:275 | the sort gives a permutation of its input whose dates never increase |
| ReportTable.InsertStable | app/page.tsx:275 | inserting puts the new entry ahead of the entries with its date and changes nothing among entries of any other date |
| ReportTable.SortIsStable | app/page.tsx:275 | entries sharing a date keep their relative order |
| ReportTable.SortKeepsSorted | app/page.tsx:654 | sorting a sequence that is already date-descending leaves it unchanged |
| ReportTable.SumInsert | app/page.tsx:275 | inserting an entry adds its amount to the sum |
| ReportTable.SortKeepsSums | app/page.tsx:275 | sorting leaves the sum of any field unchanged |
| ReportTable.SortKeepsTotals | app/page.tsx:302-303 | the totals of the sorted rows equal the totals computed before sorting |
| ReportTable.DescriptionText | app/page.tsx:284 | an absent or empty description shows as "-", and any other description shows as itself |
| ReportTable.RowFor | app/page.tsx:278-285 | an entry row carrying the entry's own date, hours and kilometres, the member and project labels of `getTeamMemberName`/`getProjectName`, and the description text ("-" when absent or empty) |
| ReportTable.EntryRows | app/page.tsx:276-288 | one row per entry, in order, each showing that entry's date, labels, amounts and description |
| ReportTable.EntryRowsInsert | app/page.tsx:275-288 | the rows of an insertion are the old rows plus the new entry's row |
| ReportTable.EntryRowsSort | app/page.tsx:275-288 | the rows of the sorted entries are a permutation of the rows of the unsorted ones |
| ReportTable.ReportRows | app/page.tsx:271-289 | the table body: exactly the one "no entries" row for an empty selection, and otherwise one entry row per selected entry (order and permutation in ReportRowsShape) |
| ReportTable.ReportRowsShape | app/page.tsx:646-665 | no selected entries gives exactly the one "No entries found for the selected criteria" row; otherwise one entry row per selected entry, dates descending, a permutation of the selected entries' rows |
| LocalTime.LocalDayOfUtcMidnight | app/page.tsx:155-158 | the local day of midnight UTC is that day east of Greenwich and the strictly earlier previous day west of it |
| LocalTime.FilteredEntriesAsWritten | app/page.tsx:149-181 | `getFilteredEntries` as the browser computes it: an entry is kept if and only if it is stored, its date shifted to the local day of its UTC midnight lies within the range when both ends are set, and it matches the member filter unless "all" |
| LocalTime.AsWrittenAgreesEastOfUtc | app/page.tsx:149-181 | at UTC and east of it, the filter as written selects exactly what the intended filter selects |
| LocalTime.AsWrittenDropsStartDay | app/page.tsx:154-172 | west of Greenwich, an entry dated on the first day of the range is selected by intent but dropped by the code |
| LocalTime.AsWrittenKeepsDayAfterEnd | app/page.tsx:154-172 | west of Greenwich, an entry dated the day after the range is excluded by intent but kept by the code |
| LocalTime.AsWrittenCounterexample | app/page.tsx:155-171 | at UTC-5 an entry on 2024-01-05 is missing from the report for 2024-01-05, which the intended filter includes |
| Tracker.ShovelProjectTracker.constructor | app/page.tsx:39-59 | empty collections, no report dates, member filter "all", empty form fields, and the selected date is today |
| Tracker.ShovelProjectTracker.AddProject | app/page.tsx:91-102 | with code and name both non-empty: appends exactly that project and clears both fields; otherwise changes nothing |
| Tracker.ShovelProjectTracker.DeleteProject | app/page.tsx:104-107 | projects and entries become their filtered copies: every project with the id and every entry booked on it are gone, the rest keep their order, and members are untouched |
| Tracker.ShovelProjectTracker.AddTeamMember | app/page.tsx:109-118 | with a non-empty trimmed name: appends a member with the trimmed name and clears the field; otherwise changes nothing |
| Tracker.ShovelProjectTracker.DeleteTeamMember | app/page.tsx:120-123 | every member with the id and every entry they logged are gone, the rest keep their order, and projects are untouched |
| Tracker.ShovelProjectTracker.AddTimeEntry | app/page.tsx:125-143 | with a project and a member selected and hours or kilometres typed: appends one entry with those ids, the selected date, the parsed amounts (0 for NaN) and the description, then clears the form; otherwise changes nothing |
| Tracker.ShovelProjectTracker.DeleteTimeEntry | app/page.tsx:145-147 | exactly the entries with the id are gone; projects and members are untouched |
| Tracker.ShovelProjectTracker.GetFilteredEntries | app/page.tsx:149-181 | on the current state: an entry is returned if and only if it is stored and passes the active date-range and member filters |
| Tracker.ShovelProjectTracker.TableRows | app/page.tsx:646-665 | the rows for the current selection; the stored entries are sorted in place exactly when no filter is active, and their multiset never changes |
| Tracker.ShovelProjectTracker.PrintReport | app/page.tsx:203-301 | nothing when no window opens; otherwise the filter description, the totals of the selection and its rows, with the same in-place sort |
| Tracker.ShovelProjectTracker.RecentEntries | app/page.tsx:725-727 | the stored entries are sorted in place by date descending, and the first ten of them (or all, if fewer) are listed |
| Tracker.ShovelProjectTracker.Render | app/page.tsx:302-750 | one render: the totals and table rows of the selection as it was before sorting, the stored entries left sorted by date descending whichever tab is shown, and the first ten of them listed |

## Findings

| source | as written | input that shows it | evidently intended | confidence | as-written member | corrected member |
|---|---|---|---|---|---|---|
| app/page.tsx:155-158 | `new Date(entry.date)` parses "YYYY-MM-DD" as midnight UTC. The normalisation then reads the day back in local time, which west of Greenwich is the previous day | browser at UTC-5, an entry dated 2024-01-05, report range 2024-01-05 to 2024-01-05: the entry is not shown (and an entry dated the day after a range is shown) | compare the entry's own calendar date with the range, inclusive | not executed | LocalTime.AsWrittenCounterexample | Report.FilteredEntries |

## Left out

- Loading and saving the collections in `localStorage` (app/page.tsx:61-89): browser I/O and JSON parsing.
- The Redis-backed API routes (app/api/*/route.ts) and lib/redis.ts: network I/O that stores and returns a JSON value verbatim.
- Id generation with `Date.now().toString()`: the id is a method parameter. Distinct ids are not assumed or enforced, as in the source.
- `Number.parseFloat`, `toFixed(1)` and floating-point sums: amounts are exact `real`s. The parsed value is a parameter, with `None` standing for NaN.
- Report.CalculateTotals: exact `real` addition, not IEEE-754 double rounding, so the totals are the exact sums.
- The date-fns `format` strings and the HTML, CSS and JSX text of the page and the printed report. The report is modelled as its data: filter description, totals and rows.
- The date shift when table rows display an entry's date (`format(new Date(entry.date), ...)`, app/page.tsx:279, 657). It is the same time-zone effect as the finding, but only in how the date is displayed.
- Opening, writing, focusing and printing the print window (app/page.tsx:204-205, 296-299).
- Invalid date strings, which make `new Date` return an invalid date and the comparator NaN. Every stored date is a calendar triple.
- Which tab is shown: it decides what appears on screen, not what is computed, since both tables' expressions are evaluated on every render (`Render`).
