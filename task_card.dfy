/** A task card: the assigned member and the time bar of spent against
    estimated hours. */
module TaskCard {
  import opened Records
  import opened Budget

  /** `m.user_id || m.id`: the key a member row is matched on. */
  function MemberKey(m: Member): (k: string)
    ensures m.userId.Some? && m.userId.value != "" ==> k == m.userId.value
    ensures m.userId.None? || m.userId.value == "" ==> k == m.id
  {
    if m.userId.Some? && m.userId.value != "" then m.userId.value else m.id
  }

  /** The position of the first member with the given key, `|members|` when
      there is none. */
  function FindKey(members: seq<Member>, key: string): (i: nat)
    ensures i <= |members|
    ensures i < |members| ==> MemberKey(members[i]) == key
    ensures forall j :: 0 <= j < i ==> MemberKey(members[j]) != key
  {
    if members == [] then 0
    else if MemberKey(members[0]) == key then 0
    else 1 + FindKey(members[1..], key)
  }

  /** `members.find(...)`: the first member whose key is that task's assignee;
      a task assigned to nobody matches no member. */
  function AssignedMember(members: seq<Member>, assignedTo: Option<string>): (r: Option<Member>)
    ensures assignedTo.None? ==> r.None?
    ensures r.None? && assignedTo.Some? ==> forall i :: 0 <= i < |members| ==> MemberKey(members[i]) != assignedTo.value
    ensures r.Some? ==> assignedTo.Some? && MemberKey(r.value) == assignedTo.value
    ensures r.Some? ==>
      exists i :: 0 <= i < |members| && members[i] == r.value &&
        forall j :: 0 <= j < i ==> MemberKey(members[j]) != assignedTo.value
  {
    if assignedTo.None? then None
    else
      var i := FindKey(members, assignedTo.value);
      if i < |members| then Some(members[i]) else None
  }

  /** The card's time figures: progress and over-budget stay at 0 and false
      unless the estimate is positive; the bar is drawn at the progress,
      capped at 100. */
  datatype TimeBar = TimeBar(estimated: real, spent: real, progress: real, overBudget: bool,
                             shown: bool, width: real)

  function Bar(task: Task): (b: TimeBar)
    ensures b.estimated == OrZero(task.estimatedHours) && b.spent == OrZero(task.spentHours)
    ensures b.shown <==> b.estimated > 0.0
    ensures b.estimated <= 0.0 ==> b.progress == 0.0 && !b.overBudget
    ensures b.estimated > 0.0 ==> b.progress * b.estimated == b.spent * 100.0
    ensures b.estimated > 0.0 ==> (b.overBudget <==> b.spent > b.estimated)
    ensures b.width == BarWidth(b.progress) && b.width <= 100.0 && b.width <= b.progress
  {
    var estimated := OrZero(task.estimatedHours);
    var spent := OrZero(task.spentHours);
    var progress := if estimated > 0.0 then spent / estimated * 100.0 else 0.0;
    var over := estimated > 0.0 && progress > 100.0;
    OverBudgetIff(spent, estimated);
    TimeBar(estimated, spent, progress, over, estimated > 0.0, BarWidth(progress))
  }

  /** A task card follows the same budget rule as the project header and
      the project cards. */
  lemma BarIsBudgetProgress(task: Task)
    ensures Bar(task).progress == Progress(OrZero(task.spentHours), OrZero(task.estimatedHours))
    ensures Bar(task).overBudget == OverBudget(Bar(task).progress)
  {
  }
}
