/** The dashboard's "recent projects" widget: the first five projects as
    rows (name, client, status pill, budget), a placeholder when there are
    none, and a footer counting the projects left out. */
module ProjectListWidget {
  import opened Records
  import opened Seqs
  import opened Text
  import opened Decimals

  const MaxRows := 5

  /** The client line: the company when it is a non-empty string. */
  function ClientLabel(p: Project): (s: string)
    ensures p.client.Some? && p.client.value.company.Some? && p.client.value.company.value != "" ==>
      s == p.client.value.company.value
    ensures !(p.client.Some? && p.client.value.company.Some? && p.client.value.company.value != "") ==>
      s == "Client interne"
  {
    if p.client.Some? && p.client.value.company.Some? && p.client.value.company.value != "" then
      p.client.value.company.value
    else "Client interne"
  }

  /** The status pill: 'active' reads "En cours", any other status is shown as is. */
  function StatusLabel(status: string): (s: string)
    ensures status == "active" ==> s == "En cours"
    ensures status != "active" ==> s == status
  {
    if status == "active" then "En cours" else status
  }

  /** The budget cell: "<hours>h" for a non-zero budget, "-" for none or 0. */
  function BudgetLabel(budgetHours: Option<real>): (s: string)
    ensures s == "-" <==> budgetHours.None? || budgetHours.value == 0.0
    ensures s != "-" ==> s == NumberText(budgetHours.value) + "h"
  {
    if budgetHours.Some? && budgetHours.value != 0.0 then NumberText(budgetHours.value) + "h" else "-"
  }

  /** A positive budget is shown as hours that read back as the budget:
      whole hours as plain digits, a fraction without trailing zeros. */
  lemma BudgetLabelReadsBack(b: real)
    requires b > 0.0 && HasDecimals(b, MaxDecimals)
    ensures BudgetLabel(Some(b)) == NumberText(b) + "h"
    ensures ReadDecimal(NumberText(b)) == Some(b)
    ensures b.Floor as real == b ==> BudgetLabel(Some(b)) == NatToString(b.Floor) + "h"
  {
    NumberTextRoundTrip(b);
    if b.Floor as real == b {
      WholeText(b.Floor);
    }
  }

  /** A budget of twelve and a half hours is shown as "12.5h". */
  lemma HalfHourBudget()
    ensures BudgetLabel(Some(12.5)) == "12.5h"
  {
    assert !HasDecimals(12.5, 0);
    assert HasDecimals(12.5, 1);
    assert FewestDecimals(12.5, 0) == 1;
    assert Scaled(12.5, 1) == 125;
    assert Whole(125, 1) == 12;
    assert Fraction(125, 1) == 5;
    assert NatToString(12) == "12";
    assert DecimalText(125, 1) == "12" + "." + "5";
  }

  datatype Row = Row(name: string, client: string, status: string, budget: string)

  function RowOf(p: Project): Row {
    Row(p.name, ClientLabel(p), StatusLabel(p.status), BudgetLabel(p.budgetHours))
  }

  datatype Widget = Widget(placeholder: bool, rows: seq<Row>, moreCount: Option<nat>)

  /** The widget for a list of projects: the rows are those of the first
      five projects in order; the placeholder shows exactly when there is no
      project; the footer shows exactly when projects were left out, and
      counts them. */
  function Render(projects: seq<Project>): (w: Widget)
    ensures w.placeholder <==> |projects| == 0
    ensures |w.rows| == if |projects| < MaxRows then |projects| else MaxRows
    ensures forall i :: 0 <= i < |w.rows| ==> w.rows[i] == RowOf(projects[i])
    ensures w.moreCount.Some? <==> |projects| > MaxRows
    ensures |w.rows| + (if w.moreCount.Some? then w.moreCount.value else 0) == |projects|
  {
    var recent := if |projects| < MaxRows then projects else projects[..MaxRows];
    Widget(|recent| == 0, Map(recent, RowOf),
           if |projects| > MaxRows then Some(|projects| - MaxRows) else None)
  }
}
