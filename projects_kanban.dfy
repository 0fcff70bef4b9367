/** The project board by `kanban_status`: six columns, a project without a
    kanban status shown as upcoming, a project whose kanban status is not a
    column id shown nowhere, and drag and drop that asks the backend to
    move the project. */
module ProjectsKanban {
  import opened Records
  import opened Seqs
  import opened Budget

  const Columns: seq<string> := ["upcoming", "preproduction", "production", "sprint", "blocked", "delivered"]

  /** `p.kanban_status || 'upcoming'`. */
  function ColumnKey(p: Project): (k: string)
    ensures p.kanbanStatus.Some? && p.kanbanStatus.value != "" ==> k == p.kanbanStatus.value
    ensures p.kanbanStatus.None? || p.kanbanStatus.value == "" ==> k == "upcoming"
  {
    if p.kanbanStatus.Some? && p.kanbanStatus.value != "" then p.kanbanStatus.value else "upcoming"
  }

  /** The cards of one column. */
  function ColumnProjects(projects: seq<Project>, column: string): (r: seq<Project>)
    ensures |r| <= |projects|
    ensures forall i :: 0 <= i < |r| ==> ColumnKey(r[i]) == column
  {
    Filter(projects, (p: Project) => ColumnKey(p) == column)
  }

  /** A project is in a column exactly when its key is that column: so no
      project is in two columns, and one whose key is not a column id is in
      none. */
  lemma InColumnIff(projects: seq<Project>, p: Project, column: string)
    ensures p in ColumnProjects(projects, column) <==> p in projects && ColumnKey(p) == column
  {
    FilterMembers(projects, (q: Project) => ColumnKey(q) == column, p);
  }

  lemma ColumnsDisjoint(projects: seq<Project>, p: Project, c1: string, c2: string)
    requires c1 != c2
    ensures !(p in ColumnProjects(projects, c1) && p in ColumnProjects(projects, c2))
  {
    InColumnIff(projects, p, c1);
    InColumnIff(projects, p, c2);
  }

  lemma UnknownStatusHidden(projects: seq<Project>, p: Project)
    requires ColumnKey(p) !in Columns
    ensures forall c :: c in Columns ==> p !in ColumnProjects(projects, c)
  {
    forall c | c in Columns ensures p !in ColumnProjects(projects, c) {
      InColumnIff(projects, p, c);
    }
  }

  /** What a card shows about the budget. */
  datatype CardBudget = CardBudget(hoursLogged: real, budgetHours: real, progress: real,
                                   shown: bool, red: bool, width: real)

  function Card(p: Project): (c: CardBudget)
    ensures c.hoursLogged == OrZero(p.hoursLogged) && c.budgetHours == OrZero(p.budgetHours)
    ensures c.shown <==> c.budgetHours > 0.0
    ensures c.budgetHours <= 0.0 ==> c.progress == 0.0 && !c.red
    ensures c.budgetHours > 0.0 ==> c.progress * c.budgetHours == c.hoursLogged * 100.0
    ensures c.budgetHours > 0.0 ==> (c.red <==> c.hoursLogged > c.budgetHours)
    ensures c.width == BarWidth(c.progress) && c.width <= 100.0 && c.width <= c.progress
  {
    var logged := OrZero(p.hoursLogged);
    var budget := OrZero(p.budgetHours);
    var progress := Progress(logged, budget);
    OverBudgetIff(logged, budget);
    CardBudget(logged, budget, progress, budget > 0.0, progress > 100.0, BarWidth(progress))
  }

  /** The drag state of the board and the moves it asks for. */
  class Board {
    var draggedProject: Option<string>
    var dragOverColumn: Option<string>
    var writes: seq<Write>

    constructor()
      ensures draggedProject.None? && dragOverColumn.None? && writes == []
    {
      draggedProject := None;
      dragOverColumn := None;
      writes := [];
    }

    method DragStart(id: string)
      modifies this`draggedProject
      ensures draggedProject == Some(id)
    {
      draggedProject := Some(id);
    }

    /** Drag end clears both the dragged project and the hovered column. */
    method DragEnd()
      modifies this`draggedProject, this`dragOverColumn
      ensures draggedProject.None? && dragOverColumn.None?
    {
      draggedProject := None;
      dragOverColumn := None;
    }

    method DragOver(column: string)
      modifies this`dragOverColumn
      ensures dragOverColumn == Some(column)
    {
      dragOverColumn := Some(column);
    }

    /** Drag leave clears only the hovered column. */
    method DragLeave()
      modifies this`dragOverColumn
      ensures dragOverColumn.None?
    {
      dragOverColumn := None;
    }

    /** `handleDrop`: without a dragged project (or with an empty id) it
        returns before anything, leaving the hover as it is; otherwise it
        asks for the move and clears both. */
    method Drop(newStatus: string)
      modifies this
      ensures old(draggedProject).None? || old(draggedProject).value == "" ==> unchanged(this)
      ensures old(draggedProject).Some? && old(draggedProject).value != "" ==>
        && writes == old(writes) + [UpdateKanbanStatus(old(draggedProject).value, newStatus)]
        && draggedProject.None? && dragOverColumn.None?
    {
      if draggedProject.None? || draggedProject.value == "" {
        return;
      }
      writes := writes + [UpdateKanbanStatus(draggedProject.value, newStatus)];
      draggedProject := None;
      dragOverColumn := None;
    }
  }
}
