/** The dashboard's task widget: a local list of tasks whose rows toggle
    their completion, shown in a "today" tab (due today, with a badge of the
    open ones) and a "this week" tab (due today or later). Due dates are
    ISO 8601 day strings, compared as strings. */
module MyTasksWidget {
  import opened Seqs
  import opened Text

  datatype WidgetTask = WidgetTask(
    id: string,
    title: string,
    projectName: string,
    projectColor: string,
    dueDate: string,
    completed: bool)

  function Flip(t: WidgetTask): WidgetTask {
    t.(completed := !t.completed)
  }

  /** `toggleTask`'s new list: each task with that id flips its completion,
      nothing else changes. */
  function Toggled(tasks: seq<WidgetTask>, id: string): (r: seq<WidgetTask>)
    ensures |r| == |tasks|
    ensures forall i :: 0 <= i < |r| ==>
      && r[i].(completed := tasks[i].completed) == tasks[i]
      && (r[i].completed != tasks[i].completed <==> tasks[i].id == id)
  {
    Map(tasks, (t: WidgetTask) => if t.id == id then Flip(t) else t)
  }

  /** Toggling the same task twice restores the list. */
  lemma ToggleTwice(tasks: seq<WidgetTask>, id: string)
    ensures Toggled(Toggled(tasks, id), id) == tasks
  {
    var r := Toggled(Toggled(tasks, id), id);
    assert forall i :: 0 <= i < |r| ==> r[i] == tasks[i];
  }

  /** An id that no task has leaves the list as it is. */
  lemma ToggleUnknown(tasks: seq<WidgetTask>, id: string)
    requires forall i :: 0 <= i < |tasks| ==> tasks[i].id != id
    ensures Toggled(tasks, id) == tasks
  {
    var r := Toggled(tasks, id);
    assert forall i :: 0 <= i < |r| ==> r[i] == tasks[i];
  }

  function DueOn(today: string): WidgetTask -> bool {
    (t: WidgetTask) => t.dueDate == today
  }

  function DueFrom(today: string): WidgetTask -> bool {
    (t: WidgetTask) => StrLe(today, t.dueDate)
  }

  predicate Open(t: WidgetTask) {
    !t.completed
  }

  predicate Done(t: WidgetTask) {
    t.completed
  }

  /** `todaysTasks`: every task due today, completed or not, in list order. */
  function TodaysTasks(tasks: seq<WidgetTask>, today: string): (r: seq<WidgetTask>)
    ensures forall i :: 0 <= i < |r| ==> r[i].dueDate == today
  {
    Filter(tasks, DueOn(today))
  }

  /** `weekTasks`: every task due today or later by string order. */
  function WeekTasks(tasks: seq<WidgetTask>, today: string): (r: seq<WidgetTask>)
    ensures forall i :: 0 <= i < |r| ==> StrLe(today, r[i].dueDate)
  {
    Filter(tasks, DueFrom(today))
  }

  /** The today tab is the week tab narrowed to today: nothing due today is
      missing from the week tab, and the order agrees. */
  lemma TodayWithinWeek(tasks: seq<WidgetTask>, today: string)
    ensures Filter(WeekTasks(tasks, today), DueOn(today)) == TodaysTasks(tasks, today)
    ensures |TodaysTasks(tasks, today)| <= |WeekTasks(tasks, today)|
  {
    StrLeRefl(today);
    FilterFilter(tasks, DueOn(today), DueFrom(today));
    FilterMono(tasks, DueOn(today), DueFrom(today));
  }

  /** Neither tab drops completed tasks: a task is listed exactly when its
      due date qualifies. */
  lemma TabsKeepCompleted(tasks: seq<WidgetTask>, today: string, t: WidgetTask)
    ensures t in TodaysTasks(tasks, today) <==> t in tasks && t.dueDate == today
    ensures t in WeekTasks(tasks, today) <==> t in tasks && StrLe(today, t.dueDate)
  {
    FilterMembers(tasks, DueOn(today), t);
    FilterMembers(tasks, DueFrom(today), t);
  }

  /** The badge on the today tab: its open tasks. */
  function Badge(tasks: seq<WidgetTask>, today: string): (n: nat)
    ensures n <= |TodaysTasks(tasks, today)|
  {
    |Filter(TodaysTasks(tasks, today), Open)|
  }

  /** The badge and the completed tasks of the today tab make up the tab. */
  lemma BadgeCountsOpen(tasks: seq<WidgetTask>, today: string)
    ensures Badge(tasks, today) + |Filter(TodaysTasks(tasks, today), Done)| == |TodaysTasks(tasks, today)|
  {
    FilterCount(TodaysTasks(tasks, today), Open, Done);
  }

  /** The widget's state. */
  class Widget {
    var tasks: seq<WidgetTask>

    constructor(initial: seq<WidgetTask>)
      ensures tasks == initial
    {
      tasks := initial;
    }

    /** `toggleTask`: replaces the list with the toggled one. */
    method ToggleTask(id: string)
      modifies this
      ensures tasks == Toggled(old(tasks), id)
    {
      tasks := Toggled(tasks, id);
    }
  }
}
