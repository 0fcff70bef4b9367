/** Budget consumption as the project header, the project cards of the board
    and every task card compute it: a percentage of the budget, 0 without a
    budget, a bar capped at 100 and an over-budget flag above 100. */
module Budget {
  import opened Records

  /** `budget > 0 ? (used / budget) * 100 : 0`. */
  function Progress(used: real, budget: real): (p: real)
    ensures budget > 0.0 ==> p * budget == used * 100.0
    ensures budget <= 0.0 ==> p == 0.0
  {
    if budget > 0.0 then used / budget * 100.0 else 0.0
  }

  /** `progress > 100`. */
  predicate OverBudget(progress: real) {
    progress > 100.0
  }

  /** `Math.min(progress, 100)`: the bar never overflows and is exact up to 100. */
  function BarWidth(progress: real): (w: real)
    ensures w <= 100.0 && w <= progress
    ensures progress <= 100.0 ==> w == progress
    ensures progress > 100.0 ==> w == 100.0
  {
    if progress < 100.0 then progress else 100.0
  }

  /** Without a budget nothing is over budget; with one, a project or task
      is over budget exactly when more was used than budgeted, and then its
      bar is full. */
  lemma OverBudgetIff(used: real, budget: real)
    ensures budget <= 0.0 ==> !OverBudget(Progress(used, budget))
    ensures budget > 0.0 ==> (OverBudget(Progress(used, budget)) <==> used > budget)
    ensures OverBudget(Progress(used, budget)) ==> BarWidth(Progress(used, budget)) == 100.0
  {
    if budget > 0.0 {
      var p := Progress(used, budget);
      assert (p - 100.0) * budget == (used - budget) * 100.0;
      ProductSign(p - 100.0, budget);
    }
  }

  /** A positive factor keeps the sign of the other. */
  lemma ProductSign(x: real, y: real)
    requires y > 0.0
    ensures x > 0.0 <==> x * y > 0.0
  {
    if x > 0.0 {
      assert x * y > 0.0 * y;
    } else {
      assert (-x) * y >= 0.0 * y;
    }
  }

  /** Within budget the progress is a percentage. */
  lemma ProgressWithinBudget(used: real, budget: real)
    requires 0.0 <= used <= budget
    ensures 0.0 <= Progress(used, budget) <= 100.0
  {
    if budget > 0.0 {
      var p := Progress(used, budget);
      assert p * budget <= 100.0 * budget;
    }
  }
}
