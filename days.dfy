/** Calendar days as day numbers: day 0 is Thursday 1 January 1970. */
module Days {

  /** `getDay()`: 0 for Sunday, 1 for Monday, ..., 6 for Saturday. */
  function DayOfWeek(d: int): (w: int)
    ensures 0 <= w < 7
  {
    (d + 4) % 7
  }

  /** Days of the week follow each other and repeat every seven days. */
  lemma DayOfWeekNext(d: int)
    ensures DayOfWeek(d + 1) == (DayOfWeek(d) + 1) % 7
    ensures DayOfWeek(d + 7) == DayOfWeek(d)
  {
  }
}
