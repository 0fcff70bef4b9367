/** Durations typed in hours, shared by the quick entry form and the entry
    editor. The `<input type="number">` holds either nothing (`''`) or a
    number, so its value is an `Option<real>`. */
module Durations {
  import opened Records
  import opened Numbers

  /** `!duration || parseFloat(duration) <= 0` rejects; what passes is a
      positive number of hours. */
  predicate ValidDuration(d: Option<real>) {
    d.Some? && d.value > 0.0
  }

  /** `Math.round(hours * 60)`: the minutes stored for a duration in hours. */
  function MinutesOfHours(h: real): (m: int)
    ensures m as real - 0.5 <= h * 60.0 < m as real + 0.5
  {
    JsRound(h * 60.0)
  }

  /** The quick buttons, in hours. */
  const QuickDurations: seq<real> := [0.25, 0.5, 1.0, 2.0, 4.0, 8.0]

  /** Each quick button stores a whole quarter hour: 15, 30, 60, 120, 240 and
      480 minutes. */
  lemma QuickDurationMinutes()
    ensures forall i :: 0 <= i < |QuickDurations| ==>
      ValidDuration(Some(QuickDurations[i]))
      && MinutesOfHours(QuickDurations[i]) == [15, 30, 60, 120, 240, 480][i]
  {
    assert MinutesOfHours(0.25) == 15;
    assert MinutesOfHours(0.5) == 30;
    assert MinutesOfHours(1.0) == 60;
    assert MinutesOfHours(2.0) == 120;
    assert MinutesOfHours(4.0) == 240;
    assert MinutesOfHours(8.0) == 480;
  }

  /** Hours that are an exact number of minutes convert back to those
      minutes. */
  lemma MinutesOfHoursExact(m: int)
    ensures MinutesOfHours(m as real / 60.0) == m
  {
    assert (m as real / 60.0) * 60.0 == m as real;
  }

  /** The browser's own constraint validation of the duration field
      (`required`, `min="0"`, `step="0.25"`): the form is submitted only when
      the field holds a number that is not negative and is a whole number of
      quarter hours counted from the minimum 0. */
  predicate OnStep(d: Option<real>) {
    d.Some? && d.value >= 0.0 && (4.0 * d.value).Floor as real == 4.0 * d.value
  }

  /** What reaches the backend: the browser lets the form through and
      `handleSubmit` accepts the duration. */
  predicate Submittable(d: Option<real>) {
    OnStep(d) && ValidDuration(d)
  }

  /** Each quick button sets a duration that can be submitted. */
  lemma QuickDurationsSubmittable()
    ensures forall i :: 0 <= i < |QuickDurations| ==> Submittable(Some(QuickDurations[i]))
  {
    assert (4.0 * 0.25).Floor == 1;
    assert (4.0 * 0.5).Floor == 2;
    assert (4.0 * 1.0).Floor == 4;
    assert (4.0 * 2.0).Floor == 8;
    assert (4.0 * 4.0).Floor == 16;
    assert (4.0 * 8.0).Floor == 32;
  }

  /** A duration of q quarter hours is exactly 15 q minutes. */
  lemma QuarterMinutes(q: int)
    ensures MinutesOfHours(q as real / 4.0) == 15 * q
  {
    assert (q as real / 4.0) * 60.0 == (15 * q) as real;
  }

  /** Whatever is submitted is stored exactly: a positive whole number of
      quarter hours, so at least 15 minutes, a multiple of 15, and no
      rounding takes place. */
  lemma SubmittedMinutes(d: Option<real>)
    requires Submittable(d)
    ensures MinutesOfHours(d.value) >= 15 && MinutesOfHours(d.value) % 15 == 0
    ensures MinutesOfHours(d.value) as real == d.value * 60.0
  {
    var q := (4.0 * d.value).Floor;
    assert d.value == q as real / 4.0;
    QuarterMinutes(q);
  }

  /** A duration under half a minute passes `handleSubmit`'s own check and
      would round to 0 minutes, but the browser never lets it through. */
  lemma TinyDurationBlocked(h: real)
    requires 0.0 < h < 1.0 / 120.0
    ensures ValidDuration(Some(h)) && MinutesOfHours(h) == 0
    ensures !Submittable(Some(h))
  {
    assert (4.0 * h).Floor == 0;
  }

  /** Among durations that are a whole number of minutes, exactly the
      positive multiples of 15 can be submitted. */
  lemma ExactDurationValid(m: int)
    ensures Submittable(Some(m as real / 60.0)) <==> m > 0 && m % 15 == 0
  {
    var h := m as real / 60.0;
    var q := m / 15;
    var k := m % 15;
    assert 4.0 * h == q as real + k as real / 15.0;
    if k == 0 {
      assert (4.0 * h).Floor == q;
    } else {
      assert q as real < 4.0 * h < q as real + 1.0;
      assert (4.0 * h).Floor == q;
    }
  }
}
