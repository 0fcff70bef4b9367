/** The board page: before showing the active projects it fills in each
    project's `hours_logged` with the minutes logged on it, in hours. */
module KanbanPage {
  import opened Records
  import opened Seqs

  function Minutes(e: TimeEntry): int {
    e.durationMinutes
  }

  /** `.eq('project_id', id)`. */
  function OnProject(id: string): TimeEntry -> bool {
    (e: TimeEntry) => e.projectId == Some(id)
  }

  /** The minutes of the entries logged on project `id`. */
  function ProjectMinutes(entries: seq<TimeEntry>, id: string): int {
    Sum(Filter(entries, OnProject(id)), Minutes)
  }

  /** A project with no entry has logged nothing. */
  lemma NoEntriesNoHours(entries: seq<TimeEntry>, id: string)
    requires forall i :: 0 <= i < |entries| ==> entries[i].projectId != Some(id)
    ensures ProjectMinutes(entries, id) == 0
  {
    FilterNone(entries, OnProject(id));
  }

  /** Entries logged on other projects do not count. */
  lemma {:induction false} OtherEntriesIgnored(entries: seq<TimeEntry>, other: seq<TimeEntry>, id: string)
    requires forall i :: 0 <= i < |other| ==> other[i].projectId != Some(id)
    ensures ProjectMinutes(entries + other, id) == ProjectMinutes(entries, id)
  {
    var p := OnProject(id);
    FilterAppend(entries, other, p);
    FilterNone(other, p);
    assert Filter(entries + other, p) == Filter(entries, p) + [];
    assert Filter(entries, p) + [] == Filter(entries, p);
  }

  /** The project as the page passes it on. */
  function WithHours(p: Project, entries: seq<TimeEntry>): Project {
    p.(hoursLogged := Some(ProjectMinutes(entries, p.id) as real / 60.0))
  }

  /** The `for` loop: every project, in place and in order, gets its logged
      minutes over 60 as `hours_logged`; nothing else changes. */
  method FillHoursLogged(projects: array<Project>, entries: seq<TimeEntry>)
    modifies projects
    ensures forall i :: 0 <= i < projects.Length ==>
      && projects[i] == old(projects[i]).(hoursLogged := projects[i].hoursLogged)
      && projects[i].hoursLogged == Some(ProjectMinutes(entries, old(projects[i]).id) as real / 60.0)
  {
    var k := 0;
    while k < projects.Length
      invariant 0 <= k <= projects.Length
      invariant forall i :: 0 <= i < k ==> projects[i] == WithHours(old(projects[i]), entries)
      invariant forall i :: k <= i < projects.Length ==> projects[i] == old(projects[i])
    {
      var total := ProjectMinutes(entries, projects[k].id);
      projects[k] := projects[k].(hoursLogged := Some(total as real / 60.0));
      k := k + 1;
    }
  }

  /** `projects || []`: no projects loaded is an empty board. */
  function OrNone(projects: Option<seq<Project>>): (r: seq<Project>)
    ensures projects.None? ==> r == []
    ensures projects.Some? ==> r == projects.value
  {
    if projects.Some? then projects.value else []
  }
}
