/** The header of a project page: its budget, the hours logged and the
    consumption bar. */
module ProjectHeader {
  import opened Records
  import opened Budget

  /** What the header shows about time. */
  datatype HeaderTime = HeaderTime(hoursLogged: real, budgetHours: real, progress: real,
                                   overBudget: bool, barWidth: real)

  /** Missing hours and budget count as 0; the figures follow the budget rules. */
  function Header(p: Project): (h: HeaderTime)
    ensures h.hoursLogged == OrZero(p.hoursLogged) && h.budgetHours == OrZero(p.budgetHours)
    ensures h.budgetHours <= 0.0 ==> h.progress == 0.0 && !h.overBudget && h.barWidth == 0.0
    ensures h.budgetHours > 0.0 ==> h.progress * h.budgetHours == h.hoursLogged * 100.0
    ensures h.budgetHours > 0.0 ==> (h.overBudget <==> h.hoursLogged > h.budgetHours)
    ensures h.barWidth == BarWidth(h.progress)
    ensures h.barWidth <= 100.0 && (h.overBudget <==> h.barWidth == 100.0 && h.progress != 100.0)
  {
    var logged := OrZero(p.hoursLogged);
    var budget := OrZero(p.budgetHours);
    var progress := Progress(logged, budget);
    OverBudgetIff(logged, budget);
    HeaderTime(logged, budget, progress, OverBudget(progress), BarWidth(progress))
  }
}
