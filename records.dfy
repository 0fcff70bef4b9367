/** Row shapes of the hosted tables as the components read them, and the
    writes a component asks the backend to perform. A nullable column is an
    `Option`; JavaScript's `x || null` and `x || ''` are `OrNull` and `OrEmpty`. */
module Records {

  datatype Option<T> = None | Some(value: T)

  /** `s || null` for a string `s`: the empty string is falsy. */
  function OrNull(s: string): (r: Option<string>)
    ensures r == None <==> s == ""
    ensures r.Some? ==> r.value == s
  {
    if s == "" then None else Some(s)
  }

  /** `o || ''` for a nullable string. */
  function OrEmpty(o: Option<string>): (r: string)
    ensures o.Some? ==> r == o.value
    ensures o.None? ==> r == ""
  {
    match o
    case None => ""
    case Some(s) => s
  }

  /** `o || null` for a nullable string: null and '' both become null. */
  function NonEmpty(o: Option<string>): (r: Option<string>)
    ensures r == OrNull(OrEmpty(o))
  {
    match o
    case None => None
    case Some(s) => OrNull(s)
  }

  /** `o || 0` for a nullable number. */
  function OrZero(o: Option<real>): (r: real)
    ensures o.Some? ==> r == o.value
    ensures o.None? ==> r == 0.0
  {
    match o
    case None => 0.0
    case Some(v) => v
  }

  /** A client as joined into a project row (`client:clients(id, name, company)`). */
  datatype Client = Client(id: string, name: string, company: Option<string>)

  /** A project row, with its joined client when the query asked for one.
      `hoursLogged` is not a column: the kanban page fills it in. */
  datatype Project = Project(
    id: string,
    name: string,
    clientId: Option<string>,
    client: Option<Client>,
    status: string,
    kanbanStatus: Option<string>,
    budgetHours: Option<real>,
    hoursLogged: Option<real>)

  /** A time_entries row, with its joined project when the query asked for one. */
  datatype TimeEntry = TimeEntry(
    id: string,
    projectId: Option<string>,
    project: Option<Project>,
    durationMinutes: int,
    date: string,
    notes: Option<string>,
    isBillable: bool,
    isTimer: bool)

  /** A project_tasks row. Due dates are day numbers. */
  datatype Task = Task(
    id: string,
    title: string,
    status: string,
    assignedTo: Option<string>,
    estimatedHours: Option<real>,
    spentHours: Option<real>,
    dueDate: Option<int>,
    priority: string)

  /** A row that names a person: a project_members row carries `user_id`,
      a profiles row selected as `id, full_name` does not. */
  datatype Member = Member(id: string, userId: Option<string>, fullName: Option<string>)

  /** A profiles row. */
  datatype Profile = Profile(id: string, fullName: Option<string>, hourlyRate: Option<real>)

  /** The payload of a time_entries insert. Instants are milliseconds. */
  datatype EntryPayload = EntryPayload(
    userId: string,
    projectId: Option<string>,
    durationMinutes: int,
    date: string,
    notes: Option<string>,
    startTime: Option<int>,
    endTime: Option<int>,
    isTimer: bool,
    isBillable: bool)

  /** A write a component requests from the backend. */
  datatype Write =
    | InsertActiveTimer(userId: string, startedAt: int, timerProjectId: Option<string>)
    | DeleteActiveTimer(timerId: string)
    | InsertTimeEntry(payload: EntryPayload)
    | UpdateTimeEntry(entryId: string, minutes: int, entryNotes: Option<string>,
                      entryProjectId: Option<string>, billable: bool)
    | UpdateProjectStatus(projectId: string, newStatus: string)
    | UpdateKanbanStatus(kanbanProjectId: string, newKanbanStatus: string)
    | UpdateTaskStatus(taskId: string, taskStatus: string, completedAt: Option<int>)
    | InsertProjectMember(memberProjectId: string, memberUserId: string)
    | DeleteProjectTask(deletedTaskId: string)
    | DeleteProjectMember(removedMemberId: string)
}
