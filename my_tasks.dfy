/** The "my tasks" panel: open tasks filtered by due day (overdue and today,
    this week, or all), sorted by priority then due day, with a counter per
    filter and a status menu. Due days are day numbers. */
module MyTasks {
  import opened Records
  import opened Seqs
  import opened Sorting
  import opened Days

  /** The week around `today`: from its Monday (a Sunday steps back six
      days) to the Sunday after. */
  method WeekWindow(today: int) returns (weekStart: int, weekEnd: int)
    ensures DayOfWeek(weekStart) == 1 && weekEnd == weekStart + 6
    ensures weekStart <= today <= weekEnd
  {
    var dayOfWeek := DayOfWeek(today);
    var daysToMonday := if dayOfWeek == 0 then -6 else 1 - dayOfWeek;
    weekStart := today + daysToMonday;
    weekEnd := weekStart + 6;
  }

  datatype TaskFilter = Today | Week | All

  /** Due today or before (an overdue task stays in the list). */
  predicate DueByToday(t: Task, today: int) {
    t.dueDate.Some? && t.dueDate.value <= today
  }

  /** Due from today to the end of the week (an overdue task is not). */
  predicate DueThisWeek(t: Task, today: int, weekEnd: int) {
    t.dueDate.Some? && today <= t.dueDate.value <= weekEnd
  }

  /** The test of `filteredTasks`. */
  predicate Keeps(filter: TaskFilter, t: Task, today: int, weekEnd: int) {
    if t.status == "done" then false
    else if t.dueDate.None? then filter == All
    else match filter
      case Today => DueByToday(t, today)
      case Week => DueThisWeek(t, today, weekEnd)
      case All => true
  }

  function FilteredTasks(tasks: seq<Task>, filter: TaskFilter, today: int, weekEnd: int): (r: seq<Task>)
    ensures forall i :: 0 <= i < |r| ==> r[i].status != "done"
    ensures forall i :: 0 <= i < |r| && r[i].dueDate.None? ==> filter == All
  {
    Filter(tasks, (t: Task) => Keeps(filter, t, today, weekEnd))
  }

  /** What each filter keeps: no done task anywhere; 'today' keeps the open
      tasks due today or earlier, 'week' the open tasks due from today to
      the end of the week, 'all' every open task. */
  lemma FilteredTasksMembers(tasks: seq<Task>, filter: TaskFilter, today: int, weekEnd: int, t: Task)
    ensures t in FilteredTasks(tasks, filter, today, weekEnd) <==>
      t in tasks && t.status != "done" &&
      match filter
        case Today => DueByToday(t, today)
        case Week => DueThisWeek(t, today, weekEnd)
        case All => true
  {
    FilterMembers(tasks, (x: Task) => Keeps(filter, x, today, weekEnd), t);
  }

  /** The counters, each with its own test as the view writes them. */
  predicate CountsToday(t: Task, today: int) {
    t.status != "done" && t.dueDate.Some? && DueByToday(t, today)
  }

  predicate CountsWeek(t: Task, today: int, weekEnd: int) {
    t.status != "done" && t.dueDate.Some? && DueThisWeek(t, today, weekEnd)
  }

  predicate Open(t: Task) {
    t.status != "done"
  }

  /** Each counter is the length of the list its button shows. */
  lemma CountersMatchLists(tasks: seq<Task>, today: int, weekEnd: int)
    ensures |Filter(tasks, (t: Task) => CountsToday(t, today))| == |FilteredTasks(tasks, Today, today, weekEnd)|
    ensures |Filter(tasks, (t: Task) => CountsWeek(t, today, weekEnd))| == |FilteredTasks(tasks, Week, today, weekEnd)|
    ensures |Filter(tasks, Open)| == |FilteredTasks(tasks, All, today, weekEnd)|
  {
    FilterExt(tasks, (t: Task) => CountsToday(t, today), (t: Task) => Keeps(Today, t, today, weekEnd));
    FilterExt(tasks, (t: Task) => CountsWeek(t, today, weekEnd), (t: Task) => Keeps(Week, t, today, weekEnd));
    FilterExt(tasks, Open, (t: Task) => Keeps(All, t, today, weekEnd));
  }

  /** `priorityOrder`: urgent 0, high 1, medium 2, low 3; anything else has no rank. */
  function Rank(priority: string): (r: Option<int>)
    ensures r.Some? ==> 0 <= r.value <= 3
    ensures r.Some? <==> priority in {"urgent", "high", "medium", "low"}
  {
    if priority == "urgent" then Some(0)
    else if priority == "high" then Some(1)
    else if priority == "medium" then Some(2)
    else if priority == "low" then Some(3)
    else None
  }

  /** The comparator. A missing rank makes the difference NaN, which the
      sort reads as a tie; equal ranks compare due days when both have one. */
  function Compare(a: Task, b: Task): int {
    if Rank(a.priority).None? || Rank(b.priority).None? then 0
    else if Rank(a.priority).value != Rank(b.priority).value then Rank(a.priority).value - Rank(b.priority).value
    else if a.dueDate.Some? && b.dueDate.Some? then a.dueDate.value - b.dueDate.value
    else 0
  }

  function MayPrecede(a: Task, b: Task): bool {
    Compare(a, b) <= 0
  }

  /** `sortedTasks`. */
  function SortedTasks(tasks: seq<Task>): (r: seq<Task>)
    ensures multiset(r) == multiset(tasks)
  {
    SortBy(tasks, MayPrecede)
  }

  predicate Ranked(t: Task) {
    Rank(t.priority).Some? && t.dueDate.Some?
  }

  /** For tasks that all have a known priority and a due day, the sorted list
      is a permutation ordered by priority, then by due day. */
  lemma SortedByPriorityThenDue(tasks: seq<Task>)
    requires forall i :: 0 <= i < |tasks| ==> Ranked(tasks[i])
    ensures forall i :: 0 <= i < |SortedTasks(tasks)| ==> Ranked(SortedTasks(tasks)[i])
    ensures var r := SortedTasks(tasks);
      forall i, j :: 0 <= i < j < |r| && Ranked(r[i]) && Ranked(r[j]) ==>
        && Rank(r[i].priority).value <= Rank(r[j].priority).value
        && (Rank(r[i].priority) == Rank(r[j].priority) ==> r[i].dueDate.value <= r[j].dueDate.value)
  {
    assert forall t :: t in tasks ==> Ranked(t);
    SortBySorted(tasks, MayPrecede);
    var r := SortedTasks(tasks);
    forall i | 0 <= i < |r| ensures Ranked(r[i]) {
      assert r[i] in multiset(tasks);
    }
  }

  predicate Unranked(t: Task) {
    Rank(t.priority).None?
  }

  /** Tasks of unknown priority tie with everything, so the sort keeps them
      in their original order. */
  lemma UnrankedKeepOrder(tasks: seq<Task>)
    ensures Filter(SortedTasks(tasks), Unranked) == Filter(tasks, Unranked)
  {
    SortByStable(tasks, MayPrecede, Unranked);
  }

  /** When no task has a known priority the comparator calls every pair a
      tie, a consistent comparator, and the stable sort leaves the list as
      it is. */
  lemma AllUnrankedUnchanged(tasks: seq<Task>)
    requires forall i :: 0 <= i < |tasks| ==> Unranked(tasks[i])
    ensures SortedTasks(tasks) == tasks
  {
    var r := SortedTasks(tasks);
    forall i | 0 <= i < |r| ensures Unranked(r[i]) {
      assert r[i] in multiset(tasks);
    }
    SortByStable(tasks, MayPrecede, Unranked);
    FilterAll(tasks, Unranked);
    FilterAll(r, Unranked);
  }

  /** The panel's state. */
  class Panel {
    var filter: TaskFilter
    var updatingTaskId: Option<string>
    var writes: seq<Write>

    constructor()
      ensures filter == Today && updatingTaskId.None? && writes == []
    {
      filter := Today;
      updatingTaskId := None;
      writes := [];
    }

    method SetFilter(f: TaskFilter)
      modifies this`filter
      ensures filter == f
    {
      filter := f;
    }

    /** `handleStatusChange`: the update carries `completed_at` (now) exactly
      when the new status is 'done'; afterwards no task is being updated. */
    method StatusChange(taskId: string, newStatus: string, nowMs: int)
      modifies this`updatingTaskId, this`writes
      ensures writes == old(writes) + [UpdateTaskStatus(taskId, newStatus,
                                         if newStatus == "done" then Some(nowMs) else None)]
      ensures updatingTaskId.None?
    {
      updatingTaskId := Some(taskId);
      var completedAt := if newStatus == "done" then Some(nowMs) else None;
      writes := writes + [UpdateTaskStatus(taskId, newStatus, completedAt)];
      updatingTaskId := None;
    }
  }
}
