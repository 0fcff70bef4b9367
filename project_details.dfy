/** The project details dialog's local checklist: tasks are added from an
    input field, ticked and deleted; a progress bar shows the share of
    completed tasks and the tab shows how many remain. */
module ProjectDetails {
  import opened Records
  import opened Seqs
  import opened Text
  import opened Numbers

  datatype ChecklistTask = ChecklistTask(id: string, title: string, completed: bool, assignee: Option<string>)

  predicate Completed(t: ChecklistTask) {
    t.completed
  }

  predicate Remaining(t: ChecklistTask) {
    !t.completed
  }

  function WithoutId(id: string): ChecklistTask -> bool {
    (t: ChecklistTask) => t.id != id
  }

  function HasId(id: string): ChecklistTask -> bool {
    (t: ChecklistTask) => t.id == id
  }

  /** The toggled list: each task with that id flips, nothing else changes. */
  function Toggled(tasks: seq<ChecklistTask>, id: string): (r: seq<ChecklistTask>)
    ensures |r| == |tasks|
    ensures forall i :: 0 <= i < |r| ==>
      && r[i].(completed := tasks[i].completed) == tasks[i]
      && (r[i].completed != tasks[i].completed <==> tasks[i].id == id)
  {
    Map(tasks, (t: ChecklistTask) => if t.id == id then t.(completed := !t.completed) else t)
  }

  /** Toggling a task twice restores the list. */
  lemma ToggleTwice(tasks: seq<ChecklistTask>, id: string)
    ensures Toggled(Toggled(tasks, id), id) == tasks
  {
    var r := Toggled(Toggled(tasks, id), id);
    assert forall i :: 0 <= i < |r| ==> r[i] == tasks[i];
  }

  /** The list after a deletion: the tasks with another id, in order. */
  function Deleted(tasks: seq<ChecklistTask>, id: string): (r: seq<ChecklistTask>)
    ensures forall i :: 0 <= i < |r| ==> r[i].id != id
  {
    Filter(tasks, WithoutId(id))
  }

  /** Deletion removes exactly the tasks carrying the id and keeps every
      other task. */
  lemma DeleteRemovesExactly(tasks: seq<ChecklistTask>, id: string, t: ChecklistTask)
    ensures t in Deleted(tasks, id) <==> t in tasks && t.id != id
    ensures |Deleted(tasks, id)| + |Filter(tasks, HasId(id))| == |tasks|
  {
    FilterMembers(tasks, WithoutId(id), t);
    FilterCount(tasks, WithoutId(id), HasId(id));
  }

  /** Deleting an id that no task has changes nothing. */
  lemma DeleteUnknown(tasks: seq<ChecklistTask>, id: string)
    requires forall i :: 0 <= i < |tasks| ==> tasks[i].id != id
    ensures Deleted(tasks, id) == tasks
  {
    FilterAll(tasks, WithoutId(id));
  }

  function CompletedCount(tasks: seq<ChecklistTask>): (n: nat)
    ensures n <= |tasks|
  {
    |Filter(tasks, Completed)|
  }

  /** The progress percentage: 0 for an empty list, otherwise the completed
      share times 100. */
  function Progress(tasks: seq<ChecklistTask>): (p: real)
    ensures 0.0 <= p <= 100.0
    ensures |tasks| == 0 ==> p == 0.0
    ensures |tasks| > 0 ==> p * (|tasks| as real) == (CompletedCount(tasks) as real) * 100.0
  {
    if |tasks| > 0 then (CompletedCount(tasks) as real / |tasks| as real) * 100.0 else 0.0
  }

  /** The tab counter is the number of tasks left to do. */
  lemma RemainingCount(tasks: seq<ChecklistTask>)
    ensures |Filter(tasks, Remaining)| == |tasks| - CompletedCount(tasks)
  {
    FilterCount(tasks, Completed, Remaining);
  }

  /** Progress reaches 100 exactly when every task of a non-empty list is done. */
  lemma ProgressFull(tasks: seq<ChecklistTask>)
    requires |tasks| > 0
    ensures Progress(tasks) == 100.0 <==> forall i :: 0 <= i < |tasks| ==> tasks[i].completed
  {
    PercentFull(CompletedCount(tasks), |tasks|);
    AllCompletedIff(tasks);
  }

  /** Every task is done exactly when the completed count is the length. */
  lemma AllCompletedIff(tasks: seq<ChecklistTask>)
    ensures CompletedCount(tasks) == |tasks| <==> forall i :: 0 <= i < |tasks| ==> tasks[i].completed
  {
    RemainingCount(tasks);
    if forall i :: 0 <= i < |tasks| ==> tasks[i].completed {
      FilterAll(tasks, Completed);
    } else {
      var k :| 0 <= k < |tasks| && !tasks[k].completed;
      FilterMembers(tasks, Remaining, tasks[k]);
      assert |Filter(tasks, Remaining)| > 0;
    }
  }

  /** Adding an open task leaves the completed count alone and adds one to
      the tab counter. */
  lemma AppendOpenTask(tasks: seq<ChecklistTask>, t: ChecklistTask)
    requires !t.completed
    ensures CompletedCount(tasks + [t]) == CompletedCount(tasks)
    ensures |Filter(tasks + [t], Remaining)| == |Filter(tasks, Remaining)| + 1
  {
    FilterAppend(tasks, [t], Completed);
    FilterAppend(tasks, [t], Remaining);
  }

  /** The dialog's state: the list and the input field. */
  class Checklist {
    var tasks: seq<ChecklistTask>
    var newTask: string

    constructor(initial: seq<ChecklistTask>)
      ensures tasks == initial && newTask == ""
    {
      tasks := initial;
      newTask := "";
    }

    method SetNewTask(text: string)
      modifies this`newTask
      ensures newTask == text
    {
      newTask := text;
    }

    /** `addTask`: a blank input does nothing; otherwise the typed title
      (untrimmed) is appended as an open task whose id is the clock's
      millisecond count, and the input is cleared. */
    method AddTask(nowMs: nat)
      modifies this
      ensures IsBlank(old(newTask)) ==> tasks == old(tasks) && newTask == old(newTask)
      ensures !IsBlank(old(newTask)) ==>
        && tasks == old(tasks) + [ChecklistTask(NatToString(nowMs), old(newTask), false, None)]
        && newTask == ""
    {
      if IsBlank(newTask) {
        return;
      }
      tasks := tasks + [ChecklistTask(NatToString(nowMs), newTask, false, None)];
      newTask := "";
    }

    method ToggleTask(id: string)
      modifies this`tasks
      ensures tasks == Toggled(old(tasks), id)
    {
      tasks := Toggled(tasks, id);
    }

    method DeleteTask(id: string)
      modifies this`tasks
      ensures tasks == Deleted(old(tasks), id)
    {
      tasks := Deleted(tasks, id);
    }
  }
}
