/** The team workload: for each member and each of the next four months,
    the estimated hours of the member's open tasks due that month. Months are
    month numbers (`12 * year + month`); the month of a due day comes from
    the calendar and is the parameter `monthOf`. The key a member row is
    filed under is the parameter `key`, because the view reads `m.user_id`
    while the dashboard passes profile rows that have only `id`. */
module Workload {
  import opened Records
  import opened Seqs

  /** `nextMonths`: the current month and the three after it. */
  method NextMonths(current: int) returns (months: seq<int>)
    ensures |months| == 4
    ensures forall i :: 0 <= i < 4 ==> months[i] == current + i
  {
    months := [];
    var i := 0;
    while i < 4
      invariant 0 <= i <= 4 && |months| == i
      invariant forall j :: 0 <= j < i ==> months[j] == current + j
    {
      months := months + [current + i];
      i := i + 1;
    }
  }

  /** A property name in JavaScript: `undefined` is filed as "undefined". */
  function PropertyName(k: Option<string>): (s: string)
    ensures k.Some? ==> s == k.value
    ensures k.None? ==> s == "undefined"
  {
    if k.Some? then k.value else "undefined"
  }

  /** `parseFloat(task.estimated_hours || 0)`. */
  function Hours(t: Task): real {
    OrZero(t.estimatedHours)
  }

  /** A task counts for member key `a` and month `month` when it is assigned
      to `a` (a non-empty key), due that month and not done. */
  predicate Counts(t: Task, a: string, month: int, monthOf: int -> int) {
    t.assignedTo == Some(a) && a != "" && t.dueDate.Some? && monthOf(t.dueDate.value) == month
    && t.status != "done"
  }

  function Contribution(a: string, month: int, monthOf: int -> int): Task -> real {
    (t: Task) => if Counts(t, a, month, monthOf) then Hours(t) else 0.0
  }

  /** The hours a cell should show. */
  function Cell(tasks: seq<Task>, a: string, month: int, monthOf: int -> int): real {
    SumReal(tasks, Contribution(a, month, monthOf))
  }

  /** One more task adds its contribution. */
  lemma CellSnoc(tasks: seq<Task>, t: Task, a: string, month: int, monthOf: int -> int)
    ensures Cell(tasks + [t], a, month, monthOf)
         == Cell(tasks, a, month, monthOf) + Contribution(a, month, monthOf)(t)
  {
    SumRealAppend(tasks, [t], Contribution(a, month, monthOf));
  }

  /** The cell of a single task is its contribution. */
  lemma SingleCell(t: Task, a: string, month: int, monthOf: int -> int)
    ensures Cell([t], a, month, monthOf) == Contribution(a, month, monthOf)(t)
  {
    CellSnoc([], t, a, month, monthOf);
    assert [] + [t] == [t];
  }

  /** The order of the tasks does not matter. */
  lemma CellOrderFree(tasks: seq<Task>, shuffled: seq<Task>, a: string, month: int, monthOf: int -> int)
    requires multiset(tasks) == multiset(shuffled)
    ensures Cell(tasks, a, month, monthOf) == Cell(shuffled, a, month, monthOf)
  {
    SumRealPermutation(tasks, shuffled, Contribution(a, month, monthOf));
  }

  /** Tasks that do not count (no assignee, no due day, another member,
      another month, or done) leave a cell at 0. */
  lemma {:induction false} CellOfIgnoredTasks(tasks: seq<Task>, a: string, month: int, monthOf: int -> int)
    requires forall i :: 0 <= i < |tasks| ==> !Counts(tasks[i], a, month, monthOf)
    ensures Cell(tasks, a, month, monthOf) == 0.0
  {
    if tasks != [] {
      CellOfIgnoredTasks(tasks[1..], a, month, monthOf);
    }
  }

  /** `workloadData`: every member's key gets a 0 for each month, then each
      task that is assigned, has a due day, hits an existing cell and is not
      done adds its estimated hours there. */
  method Build(members: seq<Member>, key: Member -> Option<string>, months: seq<int>,
               tasks: seq<Task>, monthOf: int -> int)
    returns (data: map<string, map<int, real>>)
    ensures forall k :: k in data <==> exists m :: m in members && PropertyName(key(m)) == k
    ensures forall k :: k in data ==> forall month :: month in data[k] <==> month in months
    ensures forall k, month :: k in data && month in data[k] ==>
      data[k][month] == Cell(tasks, k, month, monthOf)
  {
    data := map[];
    var i := 0;
    while i < |members|
      invariant 0 <= i <= |members|
      invariant forall k :: k in data <==> exists m :: m in members[..i] && PropertyName(key(m)) == k
      invariant forall k :: k in data ==> forall month :: month in data[k] <==> month in months
      invariant forall k, month :: k in data && month in data[k] ==> data[k][month] == 0.0
    {
      var k := PropertyName(key(members[i]));
      var row: map<int, real> := map[];
      var j := 0;
      while j < |months|
        invariant 0 <= j <= |months|
        invariant forall month :: month in row <==> month in months[..j]
        invariant forall month :: month in row ==> row[month] == 0.0
      {
        row := row[months[j] := 0.0];
        j := j + 1;
      }
      assert months[..j] == months;
      data := data[k := row];
      assert members[..i + 1] == members[..i] + [members[i]];
      i := i + 1;
    }
    assert members[..i] == members;
    i := 0;
    while i < |tasks|
      invariant 0 <= i <= |tasks|
      invariant forall k :: k in data <==> exists m :: m in members && PropertyName(key(m)) == k
      invariant forall k :: k in data ==> forall month :: month in data[k] <==> month in months
      invariant forall k, month :: k in data && month in data[k] ==>
        data[k][month] == Cell(tasks[..i], k, month, monthOf)
    {
      var t := tasks[i];
      assert tasks[..i + 1] == tasks[..i] + [t];
      forall k, month | k in data && month in data[k]
        ensures Cell(tasks[..i + 1], k, month, monthOf)
             == Cell(tasks[..i], k, month, monthOf) + Contribution(k, month, monthOf)(t)
      {
        CellSnoc(tasks[..i], t, k, month, monthOf);
      }
      if t.assignedTo.Some? && t.assignedTo.value != "" && t.dueDate.Some? {
        var a := t.assignedTo.value;
        var mk := monthOf(t.dueDate.value);
        if a in data && mk in data[a] && t.status != "done" {
          data := data[a := data[a][mk := data[a][mk] + Hours(t)]];
        }
      }
      i := i + 1;
    }
    assert tasks[..i] == tasks;
  }

  /** `workloadData[member.user_id]?.[monthKey] || 0`: what a cell displays. */
  function Displayed(data: map<string, map<int, real>>, k: string, month: int): real {
    if k in data && month in data[k] then data[k][month] else 0.0
  }

  /** The key as written: `m.user_id`. */
  function UserIdKey(m: Member): Option<string> {
    m.userId
  }

  /** The key the dashboard's rows carry: `m.id`. */
  function IdKey(m: Member): Option<string> {
    Some(m.id)
  }

  /** As written, profile rows (no `user_id`) are all filed under
      "undefined", so every displayed cell is that key's sum, which is 0
      unless a task is assigned to the literal string "undefined". */
  lemma ProfilesAsWrittenShowZero(tasks: seq<Task>, m: Member, month: int, monthOf: int -> int)
    requires m.userId.None?
    requires forall i :: 0 <= i < |tasks| ==> tasks[i].assignedTo != Some("undefined")
    ensures Cell(tasks, PropertyName(UserIdKey(m)), month, monthOf) == 0.0
  {
    CellOfIgnoredTasks(tasks, "undefined", month, monthOf);
  }

  /** A profile, a task of 3 estimated hours assigned to it and due in the
      window: the view as written shows 0, keyed by `id` it shows 3. */
  const Alice := Member("alice", None, Some("Alice"))
  const Design := Task("t1", "Design", "todo", Some("alice"), Some(3.0), None, Some(100), "high")

  lemma ProfilesCounterexample(monthOf: int -> int)
    ensures Cell([Design], PropertyName(UserIdKey(Alice)), monthOf(100), monthOf) == 0.0
    ensures Cell([Design], PropertyName(IdKey(Alice)), monthOf(100), monthOf) == 3.0
  {
    var mo := monthOf(100);
    assert Counts(Design, "alice", mo, monthOf);
    assert !Counts(Design, "undefined", mo, monthOf);
    SingleCell(Design, "alice", mo, monthOf);
    SingleCell(Design, "undefined", mo, monthOf);
  }

  /** Keyed by `id`, a member's displayed cell for a month of the window is
      the sum of that member's counted tasks. */
  lemma IdKeyShowsTasks(data: map<string, map<int, real>>, members: seq<Member>, months: seq<int>,
                        tasks: seq<Task>, monthOf: int -> int, m: Member, month: int)
    requires forall k :: k in data <==> exists x :: x in members && PropertyName(IdKey(x)) == k
    requires forall k :: k in data ==> forall mo :: mo in data[k] <==> mo in months
    requires forall k, mo :: k in data && mo in data[k] ==> data[k][mo] == Cell(tasks, k, mo, monthOf)
    requires m in members && month in months
    ensures Displayed(data, m.id, month) == Cell(tasks, m.id, month, monthOf)
  {
    assert PropertyName(IdKey(m)) == m.id;
  }

  datatype LoadColor = Neutral | Green | Orange | Red

  /** `getLoadColor`: exactly 0 is neutral, anything else up to 80 (negative
      included) green, up to 140 orange, above that red. */
  function LoadColorOf(hours: real): (c: LoadColor)
    ensures c == Neutral <==> hours == 0.0
    ensures c == Green <==> hours != 0.0 && hours <= 80.0
    ensures c == Orange <==> 80.0 < hours <= 140.0
    ensures c == Red <==> hours > 140.0
  {
    if hours == 0.0 then Neutral
    else if hours <= 80.0 then Green
    else if hours <= 140.0 then Orange
    else Red
  }
}
