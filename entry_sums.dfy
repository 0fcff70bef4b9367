/** The minute totals the time views compute over time entries:
    `entries.reduce((sum, e) => sum + e.duration_minutes, 0)` and the same sum
    over `entries.filter(e => e.is_billable)`. */
module EntrySums {
  import opened Records
  import opened Seqs

  function Minutes(e: TimeEntry): int {
    e.durationMinutes
  }

  predicate Billable(e: TimeEntry) {
    e.isBillable
  }

  predicate NotBillable(e: TimeEntry) {
    !e.isBillable
  }

  function TotalMinutes(es: seq<TimeEntry>): int {
    Sum(es, Minutes)
  }

  function BillableMinutes(es: seq<TimeEntry>): int {
    Sum(Filter(es, Billable), Minutes)
  }

  function NonBillableMinutes(es: seq<TimeEntry>): int {
    Sum(Filter(es, NotBillable), Minutes)
  }

  /** Every minute is either billable or not: the two sums add up to the total. */
  lemma {:induction false} BillableSplit(es: seq<TimeEntry>)
    ensures TotalMinutes(es) == BillableMinutes(es) + NonBillableMinutes(es)
  {
    if es != [] {
      BillableSplit(es[1..]);
    }
  }

  /** With non-negative durations, the billable minutes are between 0 and the total. */
  lemma BillableBounded(es: seq<TimeEntry>)
    ensures (forall i :: 0 <= i < |es| ==> es[i].durationMinutes >= 0) ==>
      && 0 <= BillableMinutes(es) <= TotalMinutes(es)
      && 0 <= NonBillableMinutes(es) <= TotalMinutes(es)
  {
    if forall i :: 0 <= i < |es| ==> es[i].durationMinutes >= 0 {
      SumFilterLe(es, Billable, Minutes);
      SumFilterLe(es, NotBillable, Minutes);
    }
  }

  /** The total of a list is the total of its parts. */
  lemma TotalAppend(a: seq<TimeEntry>, b: seq<TimeEntry>)
    ensures TotalMinutes(a + b) == TotalMinutes(a) + TotalMinutes(b)
  {
    SumAppend(a, b, Minutes);
  }
}
