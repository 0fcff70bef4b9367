/** The project board by `status`: six columns, a project whose status is
    not a column id shown under backlog, and drag and drop that changes a
    project's status on the board before the backend does. */
module ProjectKanban {
  import opened Records
  import opened Seqs

  const Columns: seq<string> := ["backlog", "pre-prod", "production", "sprint", "blocked", "completed"]

  /** The column a project is shown in. */
  function Home(p: Project): (c: string)
    ensures c in Columns
    ensures p.status in Columns ==> c == p.status
    ensures p.status !in Columns ==> c == "backlog"
  {
    if p.status in Columns then p.status else "backlog"
  }

  /** The backlog column takes 'backlog' and every status that is not a column id. */
  predicate InBacklog(p: Project) {
    p.status == "backlog" || p.status !in Columns
  }

  /** `getProjectsByStatus(status)`. */
  function ProjectsByStatus(projects: seq<Project>, status: string): (r: seq<Project>)
    ensures |r| <= |projects|
  {
    if status == "backlog" then Filter(projects, InBacklog)
    else Filter(projects, (p: Project) => p.status == status)
  }

  /** A project is in a column exactly when that column is its home. */
  lemma InColumnIff(projects: seq<Project>, p: Project, c: string)
    requires c in Columns
    ensures p in ProjectsByStatus(projects, c) <==> p in projects && Home(p) == c
  {
    if c == "backlog" {
      FilterMembers(projects, InBacklog, p);
    } else {
      FilterMembers(projects, (q: Project) => q.status == c, p);
    }
  }

  /** Every project of the list lands in exactly one of the six columns. */
  lemma ExactlyOneColumn(projects: seq<Project>, p: Project)
    requires p in projects
    ensures Home(p) in Columns && p in ProjectsByStatus(projects, Home(p))
    ensures forall c :: c in Columns && c != Home(p) ==> p !in ProjectsByStatus(projects, c)
  {
    InColumnIff(projects, p, Home(p));
    forall c | c in Columns && c != Home(p) ensures p !in ProjectsByStatus(projects, c) {
      InColumnIff(projects, p, c);
    }
  }

  /** The number of cards in column `c`. */
  function Count(projects: seq<Project>, c: string): nat {
    |ProjectsByStatus(projects, c)|
  }

  /** Position of a project's home column. */
  function HomeIndex(p: Project): (k: nat)
    ensures k < |Columns| && Columns[k] == Home(p)
  {
    if Home(p) == "backlog" then 0
    else if Home(p) == "pre-prod" then 1
    else if Home(p) == "production" then 2
    else if Home(p) == "sprint" then 3
    else if Home(p) == "blocked" then 4
    else 5
  }

  /** The first project counts in its home column only. */
  lemma CountStep(projects: seq<Project>, k: nat)
    requires projects != [] && k < |Columns|
    ensures Count(projects, Columns[k]) == (if HomeIndex(projects[0]) == k then 1 else 0) + Count(projects[1..], Columns[k])
  {
    assert forall i, j :: 0 <= i < j < |Columns| ==> Columns[i] != Columns[j];
  }

  /** Six counters, each growing by one for the elements of its own class,
      add up to the length. */
  lemma {:induction false} SixCounters<T>(s: seq<T>, count: (seq<T>, nat) -> nat, kind: T -> nat)
    requires forall x :: kind(x) < 6
    requires forall k :: k < 6 ==> count([], k) == 0
    requires forall t: seq<T>, k :: t != [] && k < 6 ==>
      count(t, k) == (if kind(t[0]) == k then 1 else 0) + count(t[1..], k)
    ensures count(s, 0) + count(s, 1) + count(s, 2) + count(s, 3) + count(s, 4) + count(s, 5) == |s|
  {
    if s != [] {
      SixCounters(s[1..], count, kind);
    }
  }

  /** The six column counts add up to the number of projects. */
  lemma CountsAddUp(projects: seq<Project>)
    ensures Count(projects, "backlog") + Count(projects, "pre-prod") + Count(projects, "production")
          + Count(projects, "sprint") + Count(projects, "blocked") + Count(projects, "completed")
         == |projects|
  {
    ColumnCountSteps();
    SixCounters(projects, ColumnCount, HomeIndex);
  }

  /** The count of the column at position `k`. */
  function ColumnCount(t: seq<Project>, k: nat): nat {
    if k < |Columns| then Count(t, Columns[k]) else 0
  }

  lemma ColumnCountSteps()
    ensures forall t: seq<Project>, k :: t != [] && k < 6 ==>
      ColumnCount(t, k) == (if HomeIndex(t[0]) == k then 1 else 0) + ColumnCount(t[1..], k)
  {
    forall t: seq<Project>, k | t != [] && k < 6
      ensures ColumnCount(t, k) == (if HomeIndex(t[0]) == k then 1 else 0) + ColumnCount(t[1..], k)
    {
      CountStep(t, k);
    }
  }

  /** A project created with status 'active' is not a column id: the board
      shows it under backlog. */
  lemma ActiveShownInBacklog(projects: seq<Project>, p: Project)
    requires p in projects && p.status == "active"
    ensures p in ProjectsByStatus(projects, "backlog")
  {
    InColumnIff(projects, p, "backlog");
  }

  /** `current.map(p => p.id === projectId ? { ...p, status: newStatus } : p)`. */
  function WithStatus(projects: seq<Project>, id: string, status: string): (r: seq<Project>)
    ensures |r| == |projects|
    ensures forall i :: 0 <= i < |projects| ==>
      r[i] == if projects[i].id == id then projects[i].(status := status) else projects[i]
  {
    if projects == [] then []
    else [if projects[0].id == id then projects[0].(status := status) else projects[0]]
         + WithStatus(projects[1..], id, status)
  }

  /** After moving a project to a column, it is shown in that column and
      every other project keeps its column. */
  lemma MovedProjectInColumn(projects: seq<Project>, i: nat, c: string)
    requires i < |projects| && c in Columns
    ensures var r := WithStatus(projects, projects[i].id, c);
      && r[i] in ProjectsByStatus(r, c)
      && forall j :: 0 <= j < |projects| && projects[j].id != projects[i].id ==> Home(r[j]) == Home(projects[j])
  {
    var r := WithStatus(projects, projects[i].id, c);
    assert r[i] in r;
    InColumnIff(r, r[i], c);
  }

  /** Columns shown: the overview hides backlog and completed. */
  function VisibleColumns(simpleView: bool): (cs: seq<string>)
    ensures !simpleView ==> cs == Columns
    ensures simpleView ==> forall c :: c in cs <==> c in Columns && c != "backlog" && c != "completed"
  {
    if simpleView then
      var cs := Filter(Columns, Shown);
      forall c ensures c in cs <==> c in Columns && Shown(c) {
        FilterMembers(Columns, Shown, c);
      }
      cs
    else Columns
  }

  lemma FilterShownStep(x: string, rest: seq<string>)
    ensures Filter([x] + rest, Shown) == (if Shown(x) then [x] else []) + Filter(rest, Shown)
  {
    assert ([x] + rest)[1..] == rest;
  }

  /** The overview shows exactly pre-prod, production, sprint and blocked, in that order. */
  lemma OverviewColumns()
    ensures VisibleColumns(true) == ["pre-prod", "production", "sprint", "blocked"]
  {
    var s5: seq<string> := ["completed"];
    var s4 := ["blocked"] + s5;
    var s3 := ["sprint"] + s4;
    var s2 := ["production"] + s3;
    var s1 := ["pre-prod"] + s2;
    var s0 := ["backlog"] + s1;
    assert s0 == Columns;
    ShownColumns();
    FilterShownStep("completed", []);
    assert s5 == ["completed"] + [];
    assert Filter(s5, Shown) == [];
    FilterShownStep("blocked", s5);
    assert Filter(s4, Shown) == ["blocked"];
    FilterShownStep("sprint", s4);
    assert Filter(s3, Shown) == ["sprint", "blocked"];
    FilterShownStep("production", s3);
    assert Filter(s2, Shown) == ["production", "sprint", "blocked"];
    FilterShownStep("pre-prod", s2);
    assert Filter(s1, Shown) == ["pre-prod", "production", "sprint", "blocked"];
    FilterShownStep("backlog", s1);
  }

  lemma ShownColumns()
    ensures !Shown("backlog") && Shown("pre-prod") && Shown("production")
    ensures Shown("sprint") && Shown("blocked") && !Shown("completed")
  {
  }

  /** The overview's columns. */
  predicate Shown(c: string) {
    c != "backlog" && c != "completed"
  }

  class Board {
    var projects: seq<Project>
    var draggedProjectId: Option<string>
    var writes: seq<Write>

    constructor(initialProjects: seq<Project>)
      ensures projects == initialProjects && draggedProjectId.None? && writes == []
    {
      projects := initialProjects;
      draggedProjectId := None;
      writes := [];
    }

    /** `updateProjectStatus`: the board changes first, then the backend is asked. */
    method UpdateProjectStatus(id: string, status: string)
      modifies this`projects, this`writes
      ensures projects == WithStatus(old(projects), id, status)
      ensures writes == old(writes) + [Write.UpdateProjectStatus(id, status)]
    {
      projects := WithStatus(projects, id, status);
      writes := writes + [Write.UpdateProjectStatus(id, status)];
    }

    method DragStart(id: string)
      modifies this`draggedProjectId
      ensures draggedProjectId == Some(id)
    {
      draggedProjectId := Some(id);
    }

    method DragEnd()
      modifies this`draggedProjectId
      ensures draggedProjectId.None?
    {
      draggedProjectId := None;
    }

    /** `handleDrop`: without a dragged project (or with an empty id) nothing
        happens; otherwise the dragged project moves to the target column.
        The dragged id is left as it is; drag end clears it. */
    method Drop(targetStatus: string)
      modifies this`projects, this`writes
      ensures old(draggedProjectId).None? || old(draggedProjectId).value == "" ==> unchanged(this)
      ensures old(draggedProjectId).Some? && old(draggedProjectId).value != "" ==>
        && projects == WithStatus(old(projects), old(draggedProjectId).value, targetStatus)
        && writes == old(writes) + [Write.UpdateProjectStatus(old(draggedProjectId).value, targetStatus)]
    {
      if draggedProjectId.Some? && draggedProjectId.value != "" {
        UpdateProjectStatus(draggedProjectId.value, targetStatus);
      }
    }
  }
}
