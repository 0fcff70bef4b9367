/** The four statistics cards of the time page: total, billable and
    non-billable hours, the billable share and a daily average. */
module TimeStats {
  import opened Records
  import opened Seqs
  import opened EntrySums

  /** `totalHours - billableHours`. */
  function NonBillableHours(totalHours: real, billableHours: real): (r: real)
    ensures r + billableHours == totalHours
  {
    totalHours - billableHours
  }

  /** `totalHours > 0 ? billableHours / totalHours * 100 : 0`. */
  function BillablePercent(totalHours: real, billableHours: real): (p: real)
    ensures totalHours > 0.0 ==> p * totalHours == billableHours * 100.0
    ensures totalHours <= 0.0 ==> p == 0.0
  {
    if totalHours > 0.0 then billableHours / totalHours * 100.0 else 0.0
  }

  /** The billable share of a total is a percentage. */
  lemma PercentBounds(totalHours: real, billableHours: real)
    requires 0.0 <= billableHours <= totalHours
    ensures 0.0 <= BillablePercent(totalHours, billableHours) <= 100.0
  {
    if totalHours > 0.0 {
      var p := BillablePercent(totalHours, billableHours);
      assert p * totalHours <= 100.0 * totalHours;
    }
  }

  /** `100 - billablePercent`: the non-billable card's share, 100 for a
      zero total. */
  function NonBillablePercent(totalHours: real, billableHours: real): (p: real)
    ensures p + BillablePercent(totalHours, billableHours) == 100.0
    ensures totalHours > 0.0 ==> p * totalHours == NonBillableHours(totalHours, billableHours) * 100.0
    ensures totalHours <= 0.0 ==> p == 100.0
  {
    100.0 - BillablePercent(totalHours, billableHours)
  }

  /** With a positive total, the non-billable share is a percentage too. */
  lemma NonBillablePercentBounds(totalHours: real, billableHours: real)
    requires 0.0 <= billableHours <= totalHours
    ensures 0.0 <= NonBillablePercent(totalHours, billableHours) <= 100.0
  {
    PercentBounds(totalHours, billableHours);
  }

  /** `totalHours / 7`: the total spread over seven days, whatever the period. */
  function DailyAverage(totalHours: real): (r: real)
    ensures r * 7.0 == totalHours
  {
    totalHours / 7.0
  }

  /** `entriesCount > 1 ? 's' : ''`. */
  function Plural(count: int): (s: string)
    ensures s == "s" <==> count > 1
    ensures s == "" <==> count <= 1
  {
    if count > 1 then "s" else ""
  }

  /** The cards fed with minute sums `total = billable + nonBillable`. */
  lemma CardsOfMinutes(total: int, billable: int, nonBillable: int)
    requires total == billable + nonBillable && 0 <= billable <= total
    ensures NonBillableHours(total as real / 60.0, billable as real / 60.0) == nonBillable as real / 60.0
    ensures 0.0 <= BillablePercent(total as real / 60.0, billable as real / 60.0) <= 100.0
    ensures 0.0 <= NonBillablePercent(total as real / 60.0, billable as real / 60.0) <= 100.0
    ensures total > 0 ==> NonBillablePercent(total as real / 60.0, billable as real / 60.0) * total as real
                          == nonBillable as real * 100.0
  {
    PercentBounds(total as real / 60.0, billable as real / 60.0);
    NonBillablePercentBounds(total as real / 60.0, billable as real / 60.0);
    if total > 0 {
      var t := total as real / 60.0;
      var p := NonBillablePercent(t, billable as real / 60.0);
      assert p * t == nonBillable as real / 60.0 * 100.0;
      assert p * total as real == 60.0 * (p * t);
    }
  }

  /** The cards fed with the page's sums: the non-billable card shows the
      hours of the non-billable entries, both shares of any list of
      non-negative entries are percentages, and the non-billable share is
      that of the non-billable minutes. */
  lemma CardsOfEntries(es: seq<TimeEntry>)
    requires forall i :: 0 <= i < |es| ==> es[i].durationMinutes >= 0
    ensures NonBillableHours(TotalMinutes(es) as real / 60.0, BillableMinutes(es) as real / 60.0)
            == NonBillableMinutes(es) as real / 60.0
    ensures 0.0 <= BillablePercent(TotalMinutes(es) as real / 60.0, BillableMinutes(es) as real / 60.0) <= 100.0
    ensures 0.0 <= NonBillablePercent(TotalMinutes(es) as real / 60.0, BillableMinutes(es) as real / 60.0) <= 100.0
    ensures TotalMinutes(es) > 0 ==>
      NonBillablePercent(TotalMinutes(es) as real / 60.0, BillableMinutes(es) as real / 60.0) * TotalMinutes(es) as real
      == NonBillableMinutes(es) as real * 100.0
  {
    BillableSplit(es);
    BillableBounded(es);
    CardsOfMinutes(TotalMinutes(es), BillableMinutes(es), NonBillableMinutes(es));
  }
}
