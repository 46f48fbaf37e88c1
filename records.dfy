/**
 * The three record shapes the tracker keeps (projects, team members, time
 * entries) and the reference rule between them: every time entry names a
 * project and a team member that exist.
 */
module Records {
  import opened Wrappers
  import opened Dates
  import opened Sequences

  datatype Project = Project(id: string, code: string, name: string)

  datatype TeamMember = TeamMember(id: string, name: string)

  /** `description` is optional in a stored entry; the entry form always supplies one, possibly empty. */
  datatype TimeEntry = TimeEntry(
    id: string,
    projectId: string,
    teamMemberId: string,
    date: Date,
    hours: real,
    kilometers: real,
    description: Option<string>)

  ghost predicate HasProject(projects: seq<Project>, id: string) {
    exists i :: 0 <= i < |projects| && projects[i].id == id
  }

  ghost predicate HasTeamMember(members: seq<TeamMember>, id: string) {
    exists i :: 0 <= i < |members| && members[i].id == id
  }

  /** Every entry refers to a project and a team member that are present. */
  ghost predicate ReferencesResolve(projects: seq<Project>, members: seq<TeamMember>, entries: seq<TimeEntry>) {
    forall i :: 0 <= i < |entries| ==>
      HasProject(projects, entries[i].projectId) && HasTeamMember(members, entries[i].teamMemberId)
  }

  // The tests the add and delete handlers filter their collections with.

  function NotProject(id: string): Project -> bool {
    (p: Project) => p.id != id
  }

  function NotTeamMember(id: string): TeamMember -> bool {
    (m: TeamMember) => m.id != id
  }

  function NotOnProject(id: string): TimeEntry -> bool {
    (e: TimeEntry) => e.projectId != id
  }

  function NotByTeamMember(id: string): TimeEntry -> bool {
    (e: TimeEntry) => e.teamMemberId != id
  }

  function NotEntry(id: string): TimeEntry -> bool {
    (e: TimeEntry) => e.id != id
  }

  /** Deleting a project together with its entries (the cascade) leaves no dangling reference behind. */
  lemma DeleteProjectKeepsReferences(projects: seq<Project>, members: seq<TeamMember>, entries: seq<TimeEntry>, id: string)
    requires ReferencesResolve(projects, members, entries)
    ensures ReferencesResolve(Filter(projects, NotProject(id)), members, Filter(entries, NotOnProject(id)))
  {
    var ps, es := Filter(projects, NotProject(id)), Filter(entries, NotOnProject(id));
    forall i | 0 <= i < |es| ensures HasProject(ps, es[i].projectId) && HasTeamMember(members, es[i].teamMemberId) {
      var k :| 0 <= k < |entries| && entries[k] == es[i];
      var j :| 0 <= j < |projects| && projects[j].id == entries[k].projectId;
      assert projects[j] in ps;
      var j' :| 0 <= j' < |ps| && ps[j'] == projects[j];
    }
  }

  /** Deleting a team member together with their entries leaves no dangling reference behind. */
  lemma DeleteTeamMemberKeepsReferences(projects: seq<Project>, members: seq<TeamMember>, entries: seq<TimeEntry>, id: string)
    requires ReferencesResolve(projects, members, entries)
    ensures ReferencesResolve(projects, Filter(members, NotTeamMember(id)), Filter(entries, NotByTeamMember(id)))
  {
    var ms, es := Filter(members, NotTeamMember(id)), Filter(entries, NotByTeamMember(id));
    forall i | 0 <= i < |es| ensures HasProject(projects, es[i].projectId) && HasTeamMember(ms, es[i].teamMemberId) {
      var k :| 0 <= k < |entries| && entries[k] == es[i];
      var j :| 0 <= j < |members| && members[j].id == entries[k].teamMemberId;
      assert members[j] in ms;
      var j' :| 0 <= j' < |ms| && ms[j'] == members[j];
    }
  }

  /** Dropping entries never creates a dangling reference. */
  lemma DeleteEntryKeepsReferences(projects: seq<Project>, members: seq<TeamMember>, entries: seq<TimeEntry>, id: string)
    requires ReferencesResolve(projects, members, entries)
    ensures ReferencesResolve(projects, members, Filter(entries, NotEntry(id)))
  {
    var es := Filter(entries, NotEntry(id));
    forall i | 0 <= i < |es| ensures HasProject(projects, es[i].projectId) && HasTeamMember(members, es[i].teamMemberId) {
      var k :| 0 <= k < |entries| && entries[k] == es[i];
    }
  }

  /** Adding a project or a team member keeps every reference resolving. */
  lemma AddProjectKeepsReferences(projects: seq<Project>, members: seq<TeamMember>, entries: seq<TimeEntry>, p: Project)
    requires ReferencesResolve(projects, members, entries)
    ensures ReferencesResolve(projects + [p], members, entries)
  {
    forall i | 0 <= i < |entries| ensures HasProject(projects + [p], entries[i].projectId) {
      var j :| 0 <= j < |projects| && projects[j].id == entries[i].projectId;
      assert (projects + [p])[j] == projects[j];
    }
  }

  lemma AddTeamMemberKeepsReferences(projects: seq<Project>, members: seq<TeamMember>, entries: seq<TimeEntry>, m: TeamMember)
    requires ReferencesResolve(projects, members, entries)
    ensures ReferencesResolve(projects, members + [m], entries)
  {
    forall i | 0 <= i < |entries| ensures HasTeamMember(members + [m], entries[i].teamMemberId) {
      var j :| 0 <= j < |members| && members[j].id == entries[i].teamMemberId;
      assert (members + [m])[j] == members[j];
    }
  }

  /** An entry whose project and team member exist can be appended without breaking the rule. */
  lemma AddEntryKeepsReferences(projects: seq<Project>, members: seq<TeamMember>, entries: seq<TimeEntry>, e: TimeEntry)
    requires ReferencesResolve(projects, members, entries)
    requires HasProject(projects, e.projectId) && HasTeamMember(members, e.teamMemberId)
    ensures ReferencesResolve(projects, members, entries + [e])
  {
    forall i | 0 <= i < |entries| + 1
      ensures HasProject(projects, (entries + [e])[i].projectId) && HasTeamMember(members, (entries + [e])[i].teamMemberId)
    {
      if i < |entries| {
        assert (entries + [e])[i] == entries[i];
      }
    }
  }

  /** Reordering the entries keeps every reference resolving. */
  lemma ReorderKeepsReferences(projects: seq<Project>, members: seq<TeamMember>, entries: seq<TimeEntry>, reordered: seq<TimeEntry>)
    requires ReferencesResolve(projects, members, entries)
    requires multiset(reordered) == multiset(entries)
    ensures ReferencesResolve(projects, members, reordered)
  {
    forall i | 0 <= i < |reordered|
      ensures HasProject(projects, reordered[i].projectId) && HasTeamMember(members, reordered[i].teamMemberId)
    {
      assert reordered[i] in multiset(entries);
      var k :| 0 <= k < |entries| && entries[k] == reordered[i];
    }
  }
}
