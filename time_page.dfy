/** The time tracking page: the period filter chooses a range of days, and
    the page sums the minutes of the entries in it. Days are day numbers;
    the day of the month comes from the calendar and is a parameter. */
module TimePage {
  import opened Records
  import opened Seqs
  import opened EntrySums
  import opened Days

  /** A query parameter: missing or empty is `None`. */
  function Or(o: Option<int>, today: int): (r: int)
    ensures o.Some? ==> r == o.value
    ensures o.None? ==> r == today
  {
    if o.Some? then o.value else today
  }

  /** The `switch` on the period: the first and last day shown. The week
      starts at `today - getDay() + 1`, which is this week's Monday except on
      a Sunday, where it is tomorrow and the range is empty. A custom range
      takes each end independently and does not check their order. */
  method DateRange(period: Option<string>, start: Option<int>, end: Option<int>,
                   today: int, dayOfMonth: int) returns (startDate: int, endDate: int)
    requires 1 <= dayOfMonth
    ensures period == Some("week") ==>
      && endDate == today
      && (DayOfWeek(today) != 0 ==> DayOfWeek(startDate) == 1 && today - 5 <= startDate <= endDate)
      && (DayOfWeek(today) == 0 ==> startDate == endDate + 1)
    ensures period == Some("month") ==> endDate == today && startDate == today - (dayOfMonth - 1)
    ensures period == Some("custom") ==>
      && (start.Some? ==> startDate == start.value) && (start.None? ==> startDate == today)
      && (end.Some? ==> endDate == end.value) && (end.None? ==> endDate == today)
    ensures period !in {Some("week"), Some("month"), Some("custom")} ==> startDate == endDate == today
  {
    endDate := today;
    if period == Some("week") {
      var w := DayOfWeek(today);
      startDate := today - w + 1;
      if w != 0 {
        assert (startDate + 4) % 7 == ((today + 4) - w + 1) % 7;
      }
    } else if period == Some("month") {
      startDate := today - dayOfMonth + 1;
    } else if period == Some("custom") {
      startDate := Or(start, today);
      endDate := Or(end, today);
    } else {
      startDate := today;
    }
  }

  /** The sums shown by the statistics cards. */
  datatype Stats = Stats(totalMinutes: int, billableMinutes: int, entriesCount: nat)

  /** `totalMinutes`, `billableMinutes` and `entriesCount` of the loaded
      entries (none loaded counts as an empty list). */
  function PageStats(entries: Option<seq<TimeEntry>>): (s: Stats)
    ensures entries.None? ==> s == Stats(0, 0, 0)
    ensures entries.Some? ==> s.entriesCount == |entries.value|
    ensures entries.Some? ==>
      s.totalMinutes == TotalMinutes(entries.value) && s.billableMinutes == BillableMinutes(entries.value)
    ensures entries.Some? ==> s.totalMinutes == s.billableMinutes + NonBillableMinutes(entries.value)
    ensures entries.Some? && (forall i :: 0 <= i < |entries.value| ==> entries.value[i].durationMinutes >= 0)
            ==> 0 <= s.billableMinutes <= s.totalMinutes
  {
    match entries
    case None => Stats(0, 0, 0)
    case Some(es) =>
      BillableSplit(es);
      BillableBounded(es);
      Stats(TotalMinutes(es), BillableMinutes(es), |es|)
  }
}
