/** A project page's task panel: a status filter over the project's
    tasks, a count per status, the completion rate, and the state of the
    task form (closed, new task, or editing a task). */
module ProjectTasks {
  import opened Records
  import opened Seqs
  import opened Numbers

  /** The filter buttons: every task, or the tasks of one status. */
  datatype StatusFilter = AllTasks | ByStatus(status: string)

  function WithStatus(status: string): Task -> bool {
    (t: Task) => t.status == status
  }

  function Keeps(filter: StatusFilter): Task -> bool {
    (t: Task) => filter.AllTasks? || t.status == filter.status
  }

  /** `filteredTasks`. */
  function FilteredTasks(tasks: seq<Task>, filter: StatusFilter): (r: seq<Task>)
    ensures |r| <= |tasks|
    ensures filter.ByStatus? ==> forall i :: 0 <= i < |r| ==> r[i].status == filter.status
  {
    Filter(tasks, Keeps(filter))
  }

  /** 'all' shows the whole list in order; a status shows exactly the tasks
      with that status. */
  lemma FilterShows(tasks: seq<Task>, filter: StatusFilter, t: Task)
    ensures filter.AllTasks? ==> FilteredTasks(tasks, filter) == tasks
    ensures t in FilteredTasks(tasks, filter) <==> t in tasks && (filter.AllTasks? || t.status == filter.status)
    ensures filter.ByStatus? ==> FilteredTasks(tasks, filter) == Filter(tasks, WithStatus(filter.status))
  {
    if filter.AllTasks? {
      FilterAll(tasks, Keeps(filter));
    } else {
      FilterExt(tasks, Keeps(filter), WithStatus(filter.status));
    }
    FilterMembers(tasks, Keeps(filter), t);
  }

  datatype Stats = Stats(total: nat, todo: nat, inProgress: nat, done: nat)

  function StatsOf(tasks: seq<Task>): (s: Stats)
    ensures s.total == |tasks|
    ensures s.todo <= s.total && s.inProgress <= s.total && s.done <= s.total
  {
    Stats(|tasks|,
          |Filter(tasks, WithStatus("todo"))|,
          |Filter(tasks, WithStatus("in_progress"))|,
          |Filter(tasks, WithStatus("done"))|)
  }

  /** Each filter button's count is the length of the list that button
      shows: 'Toutes' the total, then the todo, in-progress and done counts. */
  lemma CountersMatchLists(tasks: seq<Task>)
    ensures StatsOf(tasks).total == |FilteredTasks(tasks, AllTasks)|
    ensures StatsOf(tasks).todo == |FilteredTasks(tasks, ByStatus("todo"))|
    ensures StatsOf(tasks).inProgress == |FilteredTasks(tasks, ByStatus("in_progress"))|
    ensures StatsOf(tasks).done == |FilteredTasks(tasks, ByStatus("done"))|
  {
    FilterAll(tasks, Keeps(AllTasks));
    FilterExt(tasks, Keeps(ByStatus("todo")), WithStatus("todo"));
    FilterExt(tasks, Keeps(ByStatus("in_progress")), WithStatus("in_progress"));
    FilterExt(tasks, Keeps(ByStatus("done")), WithStatus("done"));
  }

  predicate Known(t: Task) {
    t.status == "todo" || t.status == "in_progress" || t.status == "done"
  }

  /** The three counts never exceed the total, and add up to it when every
      task has one of the three statuses. */
  lemma {:induction false} StatsAddUp(tasks: seq<Task>)
    ensures StatsOf(tasks).todo + StatsOf(tasks).inProgress + StatsOf(tasks).done <= StatsOf(tasks).total
    ensures (forall i :: 0 <= i < |tasks| ==> Known(tasks[i])) ==>
      StatsOf(tasks).todo + StatsOf(tasks).inProgress + StatsOf(tasks).done == StatsOf(tasks).total
  {
    if tasks != [] {
      StatsAddUp(tasks[1..]);
    }
  }

  /** `completionRate`: 0 without tasks, otherwise the done share times 100. */
  function CompletionRate(s: Stats): (rate: real)
    requires s.done <= s.total
    ensures 0.0 <= rate <= 100.0
    ensures s.total == 0 ==> rate == 0.0
    ensures s.total > 0 ==> rate * (s.total as real) == (s.done as real) * 100.0
  {
    if s.total > 0 then (s.done as real / s.total as real) * 100.0 else 0.0
  }

  /** The rate is 100 exactly when every task of a non-empty list is done. */
  lemma FullRateIffAllDone(tasks: seq<Task>)
    requires |tasks| > 0
    ensures CompletionRate(StatsOf(tasks)) == 100.0 <==> forall i :: 0 <= i < |tasks| ==> tasks[i].status == "done"
  {
    PercentFull(StatsOf(tasks).done, |tasks|);
    AllDoneIff(tasks);
  }

  /** Every task is done exactly when the done count is the length. */
  lemma AllDoneIff(tasks: seq<Task>)
    ensures |Filter(tasks, WithStatus("done"))| == |tasks| <==> forall i :: 0 <= i < |tasks| ==> tasks[i].status == "done"
  {
    var done := WithStatus("done");
    if forall i :: 0 <= i < |tasks| ==> tasks[i].status == "done" {
      FilterAll(tasks, done);
    } else {
      var k :| 0 <= k < |tasks| && tasks[k].status != "done";
      DoneBelowTotal(tasks, k);
    }
  }

  /** A task that is not done keeps the done count below the total. */
  lemma {:induction false} DoneBelowTotal(tasks: seq<Task>, k: nat)
    requires k < |tasks| && tasks[k].status != "done"
    ensures |Filter(tasks, WithStatus("done"))| < |tasks|
  {
    if k > 0 {
      DoneBelowTotal(tasks[1..], k - 1);
    }
  }

  /** The panel's state. */
  class Panel {
    var showForm: bool
    var editingTask: Option<Task>
    var filter: StatusFilter
    var writes: seq<Write>

    constructor()
      ensures !showForm && editingTask.None? && filter == AllTasks && writes == []
    {
      showForm := false;
      editingTask := None;
      filter := AllTasks;
      writes := [];
    }

    method SetFilter(f: StatusFilter)
      modifies this`filter
      ensures filter == f
    {
      filter := f;
    }

    /** The "new task" buttons open the form without touching the edited task. */
    method OpenForm()
      modifies this`showForm
      ensures showForm
    {
      showForm := true;
    }

    /** `handleEdit`: the form opens on that task. */
    method HandleEdit(task: Task)
      modifies this`showForm, this`editingTask
      ensures showForm && editingTask == Some(task)
    {
      editingTask := Some(task);
      showForm := true;
    }

    /** `handleCloseForm`: the form closes and forgets the edited one. */
    method HandleCloseForm()
      modifies this`showForm, this`editingTask
      ensures !showForm && editingTask.None?
    {
      showForm := false;
      editingTask := None;
    }

    /** `handleDelete`: nothing unless the user confirms; then that task's row
      is deleted. */
    method HandleDelete(taskId: string, confirmed: bool)
      modifies this`writes
      ensures writes == old(writes) + (if confirmed then [DeleteProjectTask(taskId)] else [])
    {
      if !confirmed {
        return;
      }
      writes := writes + [DeleteProjectTask(taskId)];
    }
  }
}
