/** The dialog that edits a time entry: it opens on the entry's values, with
    the duration shown in hours, and saves them back as an update of that one
    row. */
module EditEntry {
  import opened Records
  import opened Durations
  import opened ClientPicker

  /** `entry.project?.client_id || ''`: the client of the entry's project. */
  function InitialClient(e: TimeEntry): (c: string)
    ensures e.project.None? ==> c == ""
    ensures e.project.Some? ==> c == OrEmpty(e.project.value.clientId)
  {
    match e.project
    case None => ""
    case Some(p) => OrEmpty(p.clientId)
  }

  class EditEntryDialog {
    const entry: TimeEntry
    const projects: seq<Project>
    var duration: Option<real>
    var notes: string
    var projectId: string
    var isBillable: bool
    var selectedClient: string
    var loading: bool
    /** Whether the dialog asked its parent to close it. */
    var closed: bool
    var writes: seq<Write>

    constructor(entry: TimeEntry, projects: seq<Project>)
      ensures this.entry == entry && this.projects == projects
      ensures duration == Some(entry.durationMinutes as real / 60.0)
      ensures notes == OrEmpty(entry.notes) && projectId == OrEmpty(entry.projectId)
      ensures isBillable == entry.isBillable
      ensures selectedClient == InitialClient(entry)
      ensures !loading && !closed && writes == []
    {
      this.entry := entry;
      this.projects := projects;
      duration := Some(entry.durationMinutes as real / 60.0);
      notes := OrEmpty(entry.notes);
      projectId := OrEmpty(entry.projectId);
      isBillable := entry.isBillable;
      selectedClient := InitialClient(entry);
      loading := false;
      closed := false;
      writes := [];
    }

    function ClientOptions(): seq<Client> {
      Clients(projects)
    }

    function ProjectOptions(): seq<Project>
      reads this
    {
      ProjectsOf(projects, selectedClient)
    }

    method SetDuration(d: Option<real>)
      modifies this`duration
      ensures duration == d
    {
      duration := d;
    }

    method SetNotes(s: string)
      modifies this`notes
      ensures notes == s
    {
      notes := s;
    }

    method SetBillable(b: bool)
      modifies this`isBillable
      ensures isBillable == b
    {
      isBillable := b;
    }

    /** Choosing a client forgets the chosen project. */
    method SelectClient(id: string)
      modifies this`selectedClient, this`projectId
      ensures selectedClient == id && projectId == ""
    {
      selectedClient := id;
      projectId := "";
    }

    method SelectProject(id: string)
      modifies this`projectId
      ensures projectId == id
    {
      projectId := id;
    }

    /** Submitting the form: the browser holds back a duration that is
        missing, negative or not a whole number of quarter hours, and
        `handleSubmit` refuses an empty or non-positive one; either way nothing
        changes; otherwise the entry's row, and only it, is updated
        with the rounded minutes, the note and project (empty becomes null)
        and the billable box, and the dialog closes. */
    method Submit() returns (saved: bool)
      modifies this`loading, this`closed, this`writes
      ensures saved <==> Submittable(duration)
      ensures !saved ==> unchanged(this)
      ensures saved ==>
        && writes == old(writes) + [UpdateTimeEntry(entry.id, MinutesOfHours(duration.value),
                                                    OrNull(notes), OrNull(projectId), isBillable)]
        && closed && !loading
    {
      if !Submittable(duration) {
        return false;
      }
      loading := true;
      var minutes := MinutesOfHours(duration.value);
      writes := writes + [UpdateTimeEntry(entry.id, minutes, OrNull(notes), OrNull(projectId), isBillable)];
      closed := true;
      loading := false;
      return true;
    }
  }

  /** Saving the dialog as it opened is possible exactly when the entry's
      minutes are a positive multiple of 15, and then stores those same
      minutes. */
  lemma SaveUnchangedKeepsMinutes(e: TimeEntry)
    ensures Submittable(Some(e.durationMinutes as real / 60.0))
            <==> e.durationMinutes > 0 && e.durationMinutes % 15 == 0
    ensures MinutesOfHours(e.durationMinutes as real / 60.0) == e.durationMinutes
  {
    ExactDurationValid(e.durationMinutes);
    MinutesOfHoursExact(e.durationMinutes);
  }

  /** An entry of 20 minutes, which the timer can record, opens as 1/3 hour,
      which is off the quarter-hour step: the browser will not submit it
      until the duration is changed. */
  lemma TwentyMinutesBlocked()
    ensures !Submittable(Some(20 as real / 60.0))
  {
    ExactDurationValid(20);
  }
}
