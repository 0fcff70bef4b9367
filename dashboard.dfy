/** The dashboard's figures: today's minutes and billable amount, the number
    of projects in progress and the availability badge. */
module Dashboard {
  import opened Records
  import opened Seqs
  import opened EntrySums

  function OrList<T>(o: Option<seq<T>>): (r: seq<T>)
    ensures o.Some? ==> r == o.value
    ensures o.None? ==> r == []
  {
    if o.Some? then o.value else []
  }

  /** `todayMinutes` and `todayBillableMinutes` over the rows the query
      returned for today (none returned counts as none). */
  function TodayMinutes(todayEntries: Option<seq<TimeEntry>>): (r: (int, int))
    ensures todayEntries.None? || todayEntries.value == [] ==> r == (0, 0)
    ensures r == (TotalMinutes(OrList(todayEntries)), BillableMinutes(OrList(todayEntries)))
    ensures r.0 == r.1 + NonBillableMinutes(OrList(todayEntries))
    ensures (forall i :: 0 <= i < |OrList(todayEntries)| ==> OrList(todayEntries)[i].durationMinutes >= 0)
            ==> 0 <= r.1 <= r.0
  {
    var es := OrList(todayEntries);
    BillableSplit(es);
    BillableBounded(es);
    (TotalMinutes(es), BillableMinutes(es))
  }

  /** `(todayBillableMinutes / 60) * (profile?.hourly_rate || 0)`. */
  function BillableAmount(billableMinutes: int, hourlyRate: Option<real>): (a: real)
    ensures hourlyRate.None? ==> a == 0.0
    ensures hourlyRate.Some? ==> a * 60.0 == billableMinutes as real * hourlyRate.value
  {
    (billableMinutes as real / 60.0) * OrZero(hourlyRate)
  }

  predicate InProgress(p: Project) {
    p.status == "active" || p.status == "production"
  }

  predicate Active(p: Project) {
    p.status == "active"
  }

  predicate Production(p: Project) {
    p.status == "production"
  }

  /** "Projets en cours": the projects whose status is 'active' or 'production'. */
  function InProgressCount(projects: Option<seq<Project>>): (n: nat)
    ensures n <= |OrList(projects)|
    ensures n == |Filter(OrList(projects), Active)| + |Filter(OrList(projects), Production)|
  {
    InProgressSplit(OrList(projects));
    |Filter(OrList(projects), InProgress)|
  }

  /** The count is the active projects plus the projects in production. */
  lemma {:induction false} InProgressSplit(ps: seq<Project>)
    ensures |Filter(ps, InProgress)| == |Filter(ps, Active)| + |Filter(ps, Production)|
  {
    if ps != [] {
      InProgressSplit(ps[1..]);
    }
  }

  /** The badge: 'Occupé' exactly when a timer is running. */
  function StatusBadge<T>(activeTimer: Option<T>): (s: string)
    ensures s == "Occupé" <==> activeTimer.Some?
    ensures s == "Disponible" <==> activeTimer.None?
  {
    if activeTimer.Some? then "Occupé" else "Disponible"
  }
}
