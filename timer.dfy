/** The running timer widget: idle, it offers a client and a project and a
    start button; running, it shows `HH:MM:SS` and a stop button that turns
    the run into a time entry. Instants are milliseconds since the epoch. */
module Timer {
  import opened Records
  import opened Text
  import opened Numbers
  import opened ClientPicker

  /** An active_timers row. */
  datatype TimerRow = TimerRow(id: string, userId: string, startedAt: int, projectId: Option<string>)

  /** `Math.floor((now - start) / 1000)`: whole seconds since the start. */
  function ElapsedSeconds(startedAt: int, nowMs: int): (s: int)
    ensures s * 1000 <= nowMs - startedAt < s * 1000 + 1000
  {
    (nowMs - startedAt) / 1000
  }

  /** `Math.round(elapsed / 60)`: the nearest whole minute, half a minute
      rounding up. */
  function RoundMinutes(elapsed: int): (m: int)
    ensures m * 60 - 30 <= elapsed < m * 60 + 30
    ensures m == (elapsed + 30) / 60
    ensures 0 <= elapsed < 30 ==> m == 0
  {
    JsRound(elapsed as real / 60.0)
  }

  /** `n.toString().padStart(2, '0')`. */
  function Field(n: int): string {
    PadStart(IntToString(n), 2)
  }

  /** `formatTime(s)`: hours (`Math.floor`), minutes and seconds (through the
      truncating `%`), each padded to two characters. */
  function FormatTime(s: int): string
  {
    Field(s / 3600) + ":" + Field(JsRem(s, 3600) / 60) + ":" + Field(JsRem(s, 60))
  }

  /** For s >= 0 the three fields are s div 3600, (s mod 3600) div 60 and
      s mod 60: minutes and seconds are below 60 and recombine to s. */
  lemma {:induction false} FormatTimeFields(s: nat)
    ensures var h, m, sec := s / 3600, (s % 3600) / 60, s % 60;
      && FormatTime(s) == Field(h) + ":" + Field(m) + ":" + Field(sec)
      && 0 <= m < 60 && 0 <= sec < 60
      && 3600 * h + 60 * m + sec == s
  {
    var r := s % 3600;
    assert s == 3600 * (s / 3600) + r;
    assert r == 60 * (r / 60) + r % 60;
    assert s == 60 * (60 * (s / 3600) + r / 60) + r % 60;
    assert s % 60 == r % 60;
  }

  /** A padded field of a non-negative number is a digit string that reads
      back as the number. */
  lemma FieldDigits(n: nat)
    ensures Field(n) != [] && AllDigits(Field(n)) && ParseDigits(Field(n)) == n
    ensures ':' !in Field(n)
  {
    PadStartRoundTrip(n, 2);
  }

  /** The clock face is three colon-free digit fields that recombine to s. */
  lemma FormatTimeParts(s: nat) returns (a: string, b: string, c: string)
    ensures FormatTime(s) == a + ":" + b + ":" + c
    ensures a != [] && b != [] && c != [] && AllDigits(a) && AllDigits(b) && AllDigits(c)
    ensures ':' !in a && ':' !in b && ':' !in c
    ensures 3600 * ParseDigits(a) + 60 * ParseDigits(b) + ParseDigits(c) == s
  {
    FormatTimeFields(s);
    var h, m, sec := s / 3600, (s % 3600) / 60, s % 60;
    FieldDigits(h);
    FieldDigits(m);
    FieldDigits(sec);
    a, b, c := Field(h), Field(m), Field(sec);
  }

  /** Splitting the clock face at its colons gives back the three fields,
      which read as s. */
  lemma FormatTimeRoundTrip(s: nat) returns (a: string, b: string, c: string)
    ensures Split(FormatTime(s), ':') == [a, b, c]
    ensures AllDigits(a) && AllDigits(b) && AllDigits(c)
    ensures 3600 * ParseDigits(a) + 60 * ParseDigits(b) + ParseDigits(c) == s
  {
    a, b, c := FormatTimeParts(s);
    SplitThree(a, b, c, ':');
    assert FormatTime(s) == a + [':'] + b + [':'] + c;
  }

  /** Minutes and seconds always take two digits; hours are not capped, so
      from 100 hours (360000 s) on the hour field has three digits or more. */
  lemma FormatTimeWidths(s: nat)
    ensures |Field((s % 3600) / 60)| == 2 && |Field(s % 60)| == 2
    ensures |Field(s / 3600)| >= 3 <==> s >= 360000
    ensures |FormatTime(s)| == 8 <==> s < 360000
  {
    FormatTimeFields(s);
    NatToStringLength((s % 3600) / 60);
    NatToStringLength(s % 60);
    NatToStringLength(s / 3600);
  }

  /** The widget's state. `writes` collects the rows it asks the backend to
      insert or delete, in order. */
  class TimerWidget {
    const userId: string
    const projects: seq<Project>
    var timer: Option<TimerRow>
    var elapsed: int
    var loading: bool
    var selectedClient: string
    var selectedProject: string
    var writes: seq<Write>

    constructor(userId: string, projects: seq<Project>, activeTimer: Option<TimerRow>)
      ensures this.userId == userId && this.projects == projects
      ensures timer == activeTimer && elapsed == 0 && !loading
      ensures selectedClient == "" && selectedProject == "" && writes == []
    {
      this.userId := userId;
      this.projects := projects;
      timer := activeTimer;
      elapsed := 0;
      loading := false;
      selectedClient := "";
      selectedProject := "";
      writes := [];
    }

    /** The client options: one per distinct client among the projects. */
    function ClientOptions(): seq<Client> {
      Clients(projects)
    }

    /** The project options for the selected client. */
    function ProjectOptions(): seq<Project>
      reads this
    {
      ProjectsOf(projects, selectedClient)
    }

    /** The once-a-second refresh while a timer runs. */
    method Tick(nowMs: int)
      modifies this`elapsed
      ensures timer.Some? ==> elapsed == ElapsedSeconds(timer.value.startedAt, nowMs)
      ensures timer.None? ==> elapsed == old(elapsed)
    {
      if timer.Some? {
        elapsed := ElapsedSeconds(timer.value.startedAt, nowMs);
      }
    }

    /** Choosing a client forgets the chosen project. */
    method SelectClient(id: string)
      modifies this`selectedClient, this`selectedProject
      ensures selectedClient == id && selectedProject == ""
    {
      selectedClient := id;
      selectedProject := "";
    }

    method SelectProject(id: string)
      modifies this`selectedProject
      ensures selectedProject == id
    {
      selectedProject := id;
    }

    /** `handleStart`: insert an active timer, with no project when none is
        chosen, and show the row the backend returns (none when it fails). */
    method Start(nowMs: int, insertedId: Option<string>)
      modifies this`timer, this`loading, this`writes
      ensures writes == old(writes) + [InsertActiveTimer(userId, nowMs, OrNull(selectedProject))]
      ensures insertedId.Some? ==> timer == Some(TimerRow(insertedId.value, userId, nowMs, OrNull(selectedProject)))
      ensures insertedId.None? ==> timer.None?
      ensures !loading
    {
      loading := true;
      var projectId := OrNull(selectedProject);
      writes := writes + [InsertActiveTimer(userId, nowMs, projectId)];
      timer := if insertedId.Some? then Some(TimerRow(insertedId.value, userId, nowMs, projectId)) else None;
      loading := false;
    }

    /** `handleStop`: record the run as a billable timer entry of the rounded
        minutes, delete the active timer and return to the idle form. Without
        a running timer nothing happens. */
    method Stop(nowMs: int, today: string)
      modifies this
      ensures old(timer).None? ==> unchanged(this)
      ensures old(timer).Some? ==>
        var t := old(timer).value;
        && writes == old(writes) + [
             InsertTimeEntry(EntryPayload(userId, NonEmpty(t.projectId), RoundMinutes(old(elapsed)),
                                          today, None, Some(t.startedAt), Some(nowMs), true, true)),
             DeleteActiveTimer(t.id)]
        && timer.None? && elapsed == 0 && !loading
        && selectedClient == "" && selectedProject == ""
    {
      if timer.None? {
        return;
      }
      var t := timer.value;
      loading := true;
      var minutes := RoundMinutes(elapsed);
      var entry := EntryPayload(userId, NonEmpty(t.projectId), minutes, today, None,
                                Some(t.startedAt), Some(nowMs), true, true);
      writes := writes + [InsertTimeEntry(entry), DeleteActiveTimer(t.id)];
      timer := None;
      elapsed := 0;
      selectedClient := "";
      selectedProject := "";
      loading := false;
    }
  }
}
