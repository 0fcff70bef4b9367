/** The quick entry form: a duration in hours, an optional client and
    project, a note, and a submit that inserts a manual billable entry. */
module QuickEntry {
  import opened Records
  import opened Durations
  import opened ClientPicker

  class QuickEntryForm {
    const userId: string
    const projects: seq<Project>
    var duration: Option<real>
    var notes: string
    var selectedClient: string
    var selectedProject: string
    var loading: bool
    var writes: seq<Write>

    constructor(userId: string, projects: seq<Project>)
      ensures this.userId == userId && this.projects == projects
      ensures duration.None? && notes == "" && selectedClient == "" && selectedProject == ""
      ensures !loading && writes == []
    {
      this.userId := userId;
      this.projects := projects;
      duration := None;
      notes := "";
      selectedClient := "";
      selectedProject := "";
      loading := false;
      writes := [];
    }

    function ClientOptions(): seq<Client> {
      Clients(projects)
    }

    function ProjectOptions(): seq<Project>
      reads this
    {
      ProjectsOf(projects, selectedClient)
    }

    /** The submit button is disabled while saving and while the duration is
        empty. */
    predicate SubmitDisabled()
      reads this
    {
      loading || duration.None?
    }

    method SetDuration(d: Option<real>)
      modifies this`duration
      ensures duration == d
    {
      duration := d;
    }

    /** A quick button fills in its number of hours. */
    method PickQuickDuration(i: nat)
      requires i < |QuickDurations|
      modifies this`duration
      ensures duration == Some(QuickDurations[i])
    {
      duration := Some(QuickDurations[i]);
    }

    method SetNotes(s: string)
      modifies this`notes
      ensures notes == s
    {
      notes := s;
    }

    /** Choosing a client forgets the chosen project. */
    method SelectClient(id: string)
      modifies this`selectedClient, this`selectedProject
      ensures selectedClient == id && selectedProject == ""
    {
      selectedClient := id;
      selectedProject := "";
    }

    method SelectProject(id: string)
      modifies this`selectedProject
      ensures selectedProject == id
    {
      selectedProject := id;
    }

    /** Submitting the form: the browser holds back a duration that is
        missing, negative or not a whole number of quarter hours, and
        `handleSubmit` refuses an empty or non-positive one; either way nothing
        changes; otherwise one billable, non-timer entry of the
        rounded minutes is inserted (no project and no note become null) and
        the four fields are emptied. */
    method Submit(today: string) returns (saved: bool)
      modifies this
      ensures saved <==> Submittable(old(duration))
      ensures !saved ==> unchanged(this)
      ensures saved ==>
        && writes == old(writes) + [InsertTimeEntry(EntryPayload(
             userId, OrNull(old(selectedProject)), MinutesOfHours(old(duration).value), today,
             OrNull(old(notes)), None, None, false, true))]
        && duration.None? && notes == "" && selectedClient == "" && selectedProject == ""
        && !loading
    {
      if !Submittable(duration) {
        return false;
      }
      loading := true;
      var minutes := MinutesOfHours(duration.value);
      var entry := EntryPayload(userId, OrNull(selectedProject), minutes, today,
                                OrNull(notes), None, None, false, true);
      writes := writes + [InsertTimeEntry(entry)];
      duration := None;
      notes := "";
      selectedClient := "";
      selectedProject := "";
      loading := false;
      return true;
    }
  }
}
