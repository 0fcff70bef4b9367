/** The day's activity card: a placeholder when there is no entry, otherwise
    the total in hours and one row per entry with its own hours. */
module TimeEntries {
  import opened Records
  import opened Seqs
  import opened EntrySums

  datatype Card = Placeholder | Listing(totalHours: real, rowHours: seq<real>)

  function Hours(e: TimeEntry): real {
    e.durationMinutes as real / 60.0
  }

  /** What the card shows: nothing but the placeholder for an empty list;
      otherwise the total minutes in hours, and each row's own hours. */
  function Render(entries: seq<TimeEntry>): (c: Card)
    ensures c.Placeholder? <==> entries == []
    ensures c.Listing? ==> c.totalHours * 60.0 == TotalMinutes(entries) as real
    ensures c.Listing? ==> |c.rowHours| == |entries|
    ensures c.Listing? ==>
      forall i :: 0 <= i < |entries| ==> c.rowHours[i] * 60.0 == entries[i].durationMinutes as real
  {
    if entries == [] then Placeholder
    else Listing(TotalMinutes(entries) as real / 60.0, Map(entries, Hours))
  }

  /** The header total is the sum of the rows' hours. */
  lemma {:induction false} TotalIsSumOfRows(entries: seq<TimeEntry>)
    ensures TotalMinutes(entries) as real / 60.0 == SumReal(entries, Hours)
  {
    if entries != [] {
      TotalIsSumOfRows(entries[1..]);
    }
  }
}
