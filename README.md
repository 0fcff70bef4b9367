# tasty-tracker, the computations inside its components

tasty-tracker is a small agency back office built on Next.js and Supabase.
It tracks time against client projects, shows projects on kanban boards,
lists tasks and clients, and shows a team-workload dashboard. Most of the
app is queries and forms. This project models the small computations inside
the React components, with their contracts proved:

- **Time accounting**:
  - the running timer (start, tick, stop), its `HH:MM:SS` display and its rounding to minutes;
  - manual entries in hours and their conversion to stored minutes;
  - the edit dialog;
  - the CSV export;
  - the period → date-range switch of the time page;
  - the minute and billable sums and statistics of the time page and the dashboard.
- **Boards**:
  - the project kanban, where an unknown status falls back to the backlog column;
  - the kanban page, where an unknown `kanban_status` shows in no column;
  - the optimistic status update and the drag-and-drop state;
  - the per-project hour totals;
  - budget progress on the project header, the kanban cards and each task card.
- **Task views**:
  - the member × four-month workload matrix;
  - the today / week / all task filters, the Monday-based week and the priority sort;
  - the mock task widget;
  - the in-memory checklist of the project dialog;
  - the status filter and statistics of a project's task list.
- **Lists**:
  - the client search, the sort by active project count and the single expanded row;
  - the users not yet members of a project;
  - the "five most recent" project widget.

Records (`Project`, `Task`, `TimeEntry`, `Client`, `Member`, …) are
datatypes in module `Records`. A backend call is not performed: a component
appends the `Write` it requests to its `writes` outbox, and what the backend
answers (an inserted id, whether a call failed) is a parameter. "Now" is a
millisecond count, and "today" is either a day number (Day 0 is a Thursday)
or an ISO 8601 `YYYY-MM-DD` string, whichever the component compares.
Components that keep React state are classes. Their handlers are methods
with `modifies` clauses, and the values they derive are functions and
lemmas. JavaScript's `||` fallbacks, `Math.round`, the truncating `%` and
the stable `Array.prototype.sort` are written out in `Records`, `Numbers`
and `Sorting`.

## Model

| member | source | states |
|---|---|---|
| Records.OrNull | src/components/time/quick-entry.tsx:36 | `s \|\| null`: the empty string becomes null, any other string is kept |
| Records.OrEmpty | src/components/time/edit-entry-dialog.tsx:14-15 | `o \|\| ''`: null becomes the empty string, a string is kept |
| Records.NonEmpty | src/components/time/active-timer.tsx:70 | `o \|\| null` on a nullable string: null and '' both become null |
| Records.OrZero | src/components/tasks/task-card.tsx:17-18 | `o \|\| 0`: null becomes 0 and a number is kept (`0 \|\| 0` is 0 as well); the same fallback gives the budget of project-header.tsx:6, whole or fractional |
| Numbers.JsRound | src/components/time/active-timer.tsx:67 | `Math.round`: the nearest integer, with halves rounded up |
| Numbers.JsRem | src/components/time/active-timer.tsx:37-38 | JavaScript `%`: the sign follows the dividend; it agrees with `%` for a non-negative dividend, and for a negative one it is minus the remainder of the absolute value |
| Numbers.Min | src/components/projects/project-header.tsx:59 | `Math.min`: a lower bound that is one of the two arguments |
| Numbers.PercentFull | src/components/projects/project-details-dialog.tsx:60 | a part of a positive whole is 100 % exactly when it is the whole |
| Numbers.Hundredths | src/components/time/time-entries-table.tsx:32 | minutes as a count of hundredths of an hour, rounded to the nearest |
| Numbers.ReadFixed2Digits | src/components/time/time-entries-table.tsx:32 | a `W.FF` decimal string reads back as W + FF/100 |
| Numbers.ReadFixed2Parts | src/components/time/time-entries-table.tsx:32 | the whole part and the two zero-padded fraction digits read back as their value |
| Numbers.HoursFixed2Nearest | src/components/time/time-entries-table.tsx:32 | the `(minutes / 60).toFixed(2)` cell reads back within half a hundredth of the exact hours |
| Text.NatToString | src/components/time/active-timer.tsx:37-39 | decimal digits of a natural number, one digit exactly below 10 |
| Text.ParseNatToString | src/components/time/active-timer.tsx:37-39 | reading the decimal digits back gives the number |
| Text.NatToStringLength | src/components/time/active-timer.tsx:37-39 | a number has two or more digits exactly from 10, three or more exactly from 100 |
| Text.PadStart | src/components/time/active-timer.tsx:37-39 | `padStart(width, '0')`: unchanged when long enough, otherwise zeros in front up to the width |
| Text.PadStartRoundTrip | src/components/time/active-timer.tsx:37-39 | a zero-padded number still reads back as the number |
| Text.Lower | src/components/clients/client-list.tsx:45-46 | `toLowerCase` on ASCII, character by character |
| Text.LowerUpper | src/components/clients/client-list.tsx:45-46 | lower-casing forgets any earlier upper-casing |
| Text.LowerIdempotent | src/components/clients/client-list.tsx:45-46 | lower-casing twice is lower-casing once |
| Text.ContainsAt | src/components/clients/client-list.tsx:45-46 | `includes` holds exactly when the substring occurs at some position |
| Text.StrLeTotal | src/components/dashboard/my-tasks-widget.tsx:58 | string `>=` is a total order: any two strings compare one way or the other |
| Text.StrLeTrans | src/components/dashboard/my-tasks-widget.tsx:58 | string `>=` is transitive |
| Sorting.SortBySorted | src/components/clients/client-list.tsx:50-55 | `sort` with a total preorder as comparator returns a sorted permutation |
| Sorting.SortByStable | src/components/clients/client-list.tsx:50-55 | `sort` is stable: the elements of one equivalence class keep their input order |
| Days.DayOfWeek | src/app/time/page.tsx:25 | `getDay()` of a day number, 0 for Sunday, always in 0..6 |
| Days.DayOfWeekNext | src/components/dashboard/my-tasks.tsx:52-54 | the weekday advances by one each day and repeats every seven days |
| Budget.Progress | src/components/projects/project-header.tsx:7 | progress is used / budget × 100 for a positive budget, otherwise 0 |
| Budget.BarWidth | src/components/projects/project-header.tsx:59 | bar width is the progress capped at 100 |
| Budget.OverBudgetIff | src/components/projects/project-header.tsx:7-8 | with a positive budget, over budget exactly when used > budget; never over budget without one; over budget means a full bar |
| Budget.ProgressWithinBudget | src/components/projects/project-header.tsx:7 | usage within the budget gives a progress between 0 and 100 |
| ProjectHeader.Header | src/components/projects/project-header.tsx:5-8 | missing hours or budget count as 0; budget ≤ 0 gives progress 0, not over budget and an empty bar; otherwise over budget iff hours > budget; the bar is the progress capped at 100 (see also lines 59) |
| TaskCard.MemberKey | src/components/tasks/task-card.tsx:14 | a member's key is `user_id`, or `id` when that is missing or empty |
| TaskCard.FindKey | src/components/tasks/task-card.tsx:14 | the index of the first member with the key, or the length when there is none |
| TaskCard.AssignedMember | src/components/tasks/task-card.tsx:14 | `find`: no assignee gives none; otherwise the first member whose key is the assignee, or none when no member has it |
| TaskCard.Bar | src/components/tasks/task-card.tsx:17-26 | missing hours count as 0; the bar shows iff the estimate is positive; progress is spent / estimate × 100 and over budget iff spent > estimate; an estimate ≤ 0 gives 0 and not over budget; the bar is the progress capped at 100 (see also lines 88, 99) |
| TaskCard.BarIsBudgetProgress | src/components/tasks/task-card.tsx:20-26 | a task card computes the same progress and over-budget flag as the project header (see also lines 99) |
| Timer.ElapsedSeconds | src/components/time/active-timer.tsx:28 | the whole seconds elapsed since the start, rounded down |
| Timer.RoundMinutes | src/components/time/active-timer.tsx:67 | `Math.round(elapsed / 60)`: the nearest minute, halves up; under 30 seconds gives 0 |
| Timer.FormatTimeFields | src/components/time/active-timer.tsx:35-39 | `formatTime(s)` is hours, minutes and seconds joined by `:`, minutes and seconds below 60, together worth s seconds |
| Timer.FieldDigits | src/components/time/active-timer.tsx:37-39 | each padded field is non-empty digits with no `:` and reads back as its number |
| Timer.FormatTimeParts | src/components/time/active-timer.tsx:35-39 | the display is three digit fields whose values give back s |
| Timer.FormatTimeRoundTrip | src/components/time/active-timer.tsx:36-39 | splitting the display on `:` yields three digit fields with 3600·h + 60·m + sec = s |
| Timer.FormatTimeWidths | src/components/time/active-timer.tsx:36-39 | minutes and seconds are always two digits; hours are uncapped, so the display is 8 characters exactly below 360000 s |
| Timer.TimerWidget.constructor | src/components/time/active-timer.tsx:7-11 | starts from the server's active timer, elapsed 0, nothing selected, not loading |
| Timer.TimerWidget.Tick | src/components/time/active-timer.tsx:25-33 | with a running timer, elapsed becomes the whole seconds since its start; without one it does not change |
| Timer.TimerWidget.SelectClient | src/components/time/active-timer.tsx:128-131 | choosing a client clears the chosen project |
| Timer.TimerWidget.SelectProject | src/components/time/active-timer.tsx:148 | choosing a project records it |
| Timer.TimerWidget.Start | src/components/time/active-timer.tsx:42-61 | requests one active-timer insert with the chosen project or null; the timer becomes the inserted row, or null when none came back; loading ends |
| Timer.TimerWidget.Stop | src/components/time/active-timer.tsx:63-89 | with no timer, nothing changes; otherwise requests a billable timer entry of the rounded minutes with the timer's project and start, then the timer's deletion, and resets timer, elapsed and both selections |
| ClientPicker.Keys | src/components/time/active-timer.tsx:16-18 | the ids of a client list, position by position |
| ClientPicker.Put | src/components/time/active-timer.tsx:16-18 | filing a client under its id replaces the entry with that id in place, or appends it; ids stay distinct |
| ClientPicker.Clients | src/components/time/active-timer.tsx:16-18 | the client options have distinct ids and are exactly the ids of the projects' clients |
| ClientPicker.ClientsOrder | src/components/time/active-timer.tsx:16-18 | the options come in the order their ids first appear among the projects |
| ClientPicker.ClientsLatest | src/components/time/active-timer.tsx:16-18 | each option is the client record of the last project that carries that id |
| ClientPicker.ProjectsOf | src/components/time/active-timer.tsx:21-23 | with no client chosen there are no project options; every option belongs to the chosen client |
| ClientPicker.ProjectsOfComplete | src/components/time/active-timer.tsx:21-23 | every project of the chosen client is an option |
| ClientPicker.ProjectsOfAppend | src/components/time/active-timer.tsx:21-23 | the options keep the projects' order: the options of two lists in a row are those of the first followed by those of the second |
| Durations.MinutesOfHours | src/components/time/quick-entry.tsx:34 | `Math.round(hours * 60)`: the nearest whole minute |
| Durations.QuickDurationMinutes | src/components/time/quick-entry.tsx:34-59 | the buttons 0.25, 0.5, 1, 2, 4 and 8 h are valid and store exactly 15, 30, 60, 120, 240 and 480 minutes |
| Durations.QuickDurationsSubmittable | src/components/time/quick-entry.tsx:64-82 | every quick button sets a duration the browser and `handleSubmit` both accept |
| Durations.QuarterMinutes | src/components/time/quick-entry.tsx:34 | q quarter hours are stored as exactly 15 q minutes |
| Durations.SubmittedMinutes | src/components/time/quick-entry.tsx:64-75 | a duration that can be submitted is stored without rounding, as a positive multiple of 15 minutes (see also line 34) |
| Durations.MinutesOfHoursExact | src/components/time/quick-entry.tsx:34 | whole minutes converted to hours and back are unchanged |
| Durations.TinyDurationBlocked | src/components/time/quick-entry.tsx:27-34 | a positive duration under half a minute passes `handleSubmit`'s test and would store 0 minutes, but the browser's step check never submits it (see also lines 69-70) |
| Durations.ExactDurationValid | src/components/time/quick-entry.tsx:64-75 | a whole number of minutes, as hours, can be submitted exactly when it is a positive multiple of 15 (see also line 27) |
| QuickEntry.QuickEntryForm.constructor | src/components/time/quick-entry.tsx:7-11 | all fields empty, not loading, nothing requested |
| QuickEntry.QuickEntryForm.SetDuration | src/components/time/quick-entry.tsx:73 | typing a duration records it |
| QuickEntry.QuickEntryForm.PickQuickDuration | src/components/time/quick-entry.tsx:78-82 | a quick button sets the duration to its hours |
| QuickEntry.QuickEntryForm.SetNotes | src/components/time/quick-entry.tsx:137 | typing notes records them |
| QuickEntry.QuickEntryForm.SelectClient | src/components/time/quick-entry.tsx:97-99 | choosing a client clears the chosen project |
| QuickEntry.QuickEntryForm.SelectProject | src/components/time/quick-entry.tsx:117 | choosing a project records it |
| QuickEntry.QuickEntryForm.Submit | src/components/time/quick-entry.tsx:25-57 | saves iff the browser lets the form through (a duration present, not negative, a whole number of quarter hours) and the duration is positive; a rejected submit changes nothing; a save requests one billable, non-timer entry of the rounded minutes, with empty notes and project as null, then clears every field |
| EditEntry.InitialClient | src/components/time/edit-entry-dialog.tsx:26-28 | the entry's project's client id, or '' |
| EditEntry.EditEntryDialog.constructor | src/components/time/edit-entry-dialog.tsx:13-28 | the dialog starts at the entry's minutes / 60, its notes and project or '', its billable flag and its project's client |
| EditEntry.EditEntryDialog.SetDuration | src/components/time/edit-entry-dialog.tsx:86 | typing a duration records it |
| EditEntry.EditEntryDialog.SetNotes | src/components/time/edit-entry-dialog.tsx:137 | typing notes records them |
| EditEntry.EditEntryDialog.SetBillable | src/components/time/edit-entry-dialog.tsx:149 | the checkbox sets the billable flag |
| EditEntry.EditEntryDialog.SelectClient | src/components/time/edit-entry-dialog.tsx:98-100 | choosing a client clears the chosen project |
| EditEntry.EditEntryDialog.SelectProject | src/components/time/edit-entry-dialog.tsx:118 | choosing a project records it |
| EditEntry.EditEntryDialog.Submit | src/components/time/edit-entry-dialog.tsx:34-62 | saves iff the browser lets the form through (a duration present, not negative, a whole number of quarter hours) and the duration is positive; a rejected submit changes nothing; a save requests one update of this entry with the rounded minutes, empty notes and project as null and the checkbox value, then closes |
| EditEntry.SaveUnchangedKeepsMinutes | src/components/time/edit-entry-dialog.tsx:13-43 | saving the dialog as it opened is possible exactly when the entry's minutes are a positive multiple of 15, and then stores those same minutes (see also lines 83-88) |
| EditEntry.TwentyMinutesBlocked | src/components/time/edit-entry-dialog.tsx:13 | a 20-minute entry opens as 1/3 hour, off the quarter-hour step, so it cannot be saved without changing the duration (see also lines 83-88) |
| CsvExport.Or | src/components/time/time-entries-table.tsx:33-35 | `x \|\| fallback` on a nullable string |
| CsvExport.ClientLabel | src/components/time/time-entries-table.tsx:33 | the client's company if non-empty, else its name if non-empty, else '-' (also '-' with no project or no client): never empty |
| CsvExport.ProjectLabel | src/components/time/time-entries-table.tsx:34 | the project's name if non-empty, else '-' |
| CsvExport.Cells | src/components/time/time-entries-table.tsx:30-38 | seven cells: the date, the hours with two decimals, the client and project labels, the note if non-empty else '-', 'Oui' iff billable, 'Timer' iff a timer entry |
| CsvExport.Table | src/components/time/time-entries-table.tsx:29-30 | the header row followed by one row per entry in entry order, every row seven cells |
| CsvExport.CsvLines | src/components/time/time-entries-table.tsx:30-40 | when no cell holds a line feed, the export has entries + 1 lines: the quoted header line, then each entry's quoted line in order |
| CsvExport.CsvRoundTripIff | src/components/time/time-entries-table.tsx:40 | reading the export as CSV gives back the table exactly when no cell holds a `"` |
| CsvExport.DocumentRoundTripIff | src/components/time/time-entries-table.tsx:40 | for any table, quoting without doubling reads back exactly when no cell holds a `"` |
| CsvExport.CsvAsWrittenCollides | src/components/time/time-entries-table.tsx:34-40 | two different entries export to the same text, so at least one of them does not read back; the quote-doubling export tells them apart |
| CsvExport.SplitLinesAgree | src/components/time/time-entries-table.tsx:34-40 | a project name holding `","` and a note holding `","` give the same quoted line |
| CsvExport.RowShift | src/components/time/time-entries-table.tsx:40 | moving a `","` across a cell boundary leaves a quoted line unchanged |
| CsvExport.ReadRecords | src/components/time/time-entries-table.tsx:40 | a CSV reader per section 2 of RFC 4180 (quoted fields, doubled quotes, LF line breaks) |
| CsvExport.CsvRfcRoundTrip | src/components/time/time-entries-table.tsx:40 | with quotes doubled, reading the export gives back the table for every list of entries |
| CsvExport.ReadRecordsInverse | src/components/time/time-entries-table.tsx:40 | whatever the reader accepts is the quote-doubling export of the table it returns |
| TimePage.Or | src/app/time/page.tsx:32-33 | `param \|\| today` |
| TimePage.DateRange | src/app/time/page.tsx:17-37 | 'week' ends today and starts on the Monday of the week, except on a Sunday, where it starts tomorrow; 'month' runs from day 1 to today; 'custom' takes start and end separately, each defaulting to today; anything else is today only |
| TimePage.PageStats | src/app/time/page.tsx:57-59 | no rows gives zeros; otherwise the count is the number of rows, the totals are the sums of all and of the billable durations, total = billable + non-billable, and billable ≤ total for non-negative durations |
| EntrySums.BillableSplit | src/app/time/page.tsx:57-58 | the total minutes are the billable plus the non-billable minutes |
| EntrySums.BillableBounded | src/app/page.tsx:44-45 | with non-negative durations, both the billable and the non-billable sums lie between 0 and the total |
| EntrySums.TotalAppend | src/components/time/time-entries.tsx:13 | the total of two lists is the sum of their totals |
| TimeStats.NonBillableHours | src/components/time/time-stats.tsx:10 | non-billable + billable = total |
| TimeStats.BillablePercent | src/components/time/time-stats.tsx:11 | billable / total × 100, and 0 when total is 0 |
| TimeStats.PercentBounds | src/components/time/time-stats.tsx:11-30 | for 0 ≤ billable ≤ total the percentage lies in [0, 100] |
| TimeStats.NonBillablePercent | src/components/time/time-stats.tsx:30 | the non-billable card's share: the two shown percentages sum to 100; with a positive total it is the non-billable hours over the total × 100, and it is 100 with a zero total |
| TimeStats.NonBillablePercentBounds | src/components/time/time-stats.tsx:30 | for 0 ≤ billable ≤ total the non-billable share lies in [0, 100] |
| TimeStats.DailyAverage | src/components/time/time-stats.tsx:35 | the total spread over seven days, whatever the period |
| TimeStats.Plural | src/components/time/time-stats.tsx:18 | 's' exactly when the count exceeds 1 |
| TimeStats.CardsOfMinutes | src/components/time/time-stats.tsx:10-30 | the page's minute sums give a non-billable card equal to the non-billable minutes, both shares in [0, 100], and a non-billable share equal to non-billable minutes / total minutes × 100 |
| TimeStats.CardsOfEntries | src/components/time/time-stats.tsx:10-30 | the same, stated over the entries themselves |
| TimeEntries.Render | src/components/time/time-entries.tsx:4-30 | the placeholder exactly for no entries; otherwise a total of the summed minutes / 60 and one row per entry showing its own minutes / 60 |
| TimeEntries.TotalIsSumOfRows | src/components/time/time-entries.tsx:13-30 | the header's hours are the sum of the rows' hours |
| Dashboard.OrList | src/app/page.tsx:44-45 | missing rows (`todayEntries?.…`) count as an empty list |
| Dashboard.TodayMinutes | src/app/page.tsx:44-45 | (0, 0) without entries; the sums of all and of the billable durations of today's entries; total is billable + non-billable, with billable ≤ total for non-negative durations |
| Dashboard.BillableAmount | src/app/page.tsx:46-47 | billable minutes / 60 × the hourly rate, and 0 without a rate |
| Dashboard.InProgressCount | src/app/page.tsx:92 | the number of active projects plus the number in production, never more than the number of projects |
| Dashboard.InProgressSplit | src/app/page.tsx:92 | the count is the 'active' projects plus the 'production' projects |
| Dashboard.StatusBadge | src/app/page.tsx:136-137 | 'Occupé' iff a timer runs, 'Disponible' iff none does |
| ProjectKanban.Home | src/components/projects/project-kanban.tsx:27-34 | a project's column is its status when that is a column id, otherwise the backlog (see also lines 86-88) |
| ProjectKanban.InColumnIff | src/components/projects/project-kanban.tsx:83-89 | a project is in a column's bucket exactly when it is on the board and that is its column |
| ProjectKanban.ExactlyOneColumn | src/components/projects/project-kanban.tsx:27-34 | every project on the board is in exactly one of the six buckets (see also lines 83-89) |
| ProjectKanban.CountsAddUp | src/components/projects/project-kanban.tsx:27-34 | the six bucket sizes add up to the number of projects (see also lines 83-89) |
| ProjectKanban.ActiveShownInBacklog | src/components/projects/project-kanban.tsx:86 | a new project, created with status 'active', shows in the backlog (see also src/components/projects/create-project-form.tsx:47) |
| ProjectKanban.WithStatus | src/components/projects/project-kanban.tsx:51-53 | only the project with that id changes, only in its status; the length and the other projects stay |
| ProjectKanban.MovedProjectInColumn | src/components/projects/project-kanban.tsx:51-89 | after moving a project to a column it is in that column's bucket and no other project changes column |
| ProjectKanban.VisibleColumns | src/components/projects/project-kanban.tsx:93-95 | the full board shows every column; the simple view shows the columns other than backlog and completed |
| ProjectKanban.OverviewColumns | src/components/projects/project-kanban.tsx:93-95 | the simple view is exactly pre-prod, production, sprint, blocked, in that order |
| ProjectKanban.Board.constructor | src/components/projects/project-kanban.tsx:38-39 | starts from the server's projects, nothing dragged |
| ProjectKanban.Board.UpdateProjectStatus | src/components/projects/project-kanban.tsx:50-60 | the optimistic update changes that project's status and requests the same update from the backend |
| ProjectKanban.Board.DragStart | src/components/projects/project-kanban.tsx:63-64 | records the dragged project |
| ProjectKanban.Board.DragEnd | src/components/projects/project-kanban.tsx:68-69 | clears the dragged project |
| ProjectKanban.Board.Drop | src/components/projects/project-kanban.tsx:76-81 | with no dragged project nothing happens; otherwise the dragged project moves to the target column |
| ProjectsKanban.ColumnKey | src/components/Kanban/projects-kanban.tsx:79 | `kanban_status`, or 'upcoming' when it is missing or empty |
| ProjectsKanban.ColumnProjects | src/components/Kanban/projects-kanban.tsx:78-80 | a column holds only projects whose key is that column |
| ProjectsKanban.InColumnIff | src/components/Kanban/projects-kanban.tsx:78-80 | a project is in a column exactly when it is on the board and its key is that column |
| ProjectsKanban.ColumnsDisjoint | src/components/Kanban/projects-kanban.tsx:78-80 | no project is in two columns |
| ProjectsKanban.UnknownStatusHidden | src/components/Kanban/projects-kanban.tsx:7-14 | a project whose key is none of the six columns appears in no column (see also lines 78-80) |
| ProjectsKanban.Card | src/components/Kanban/projects-kanban.tsx:114-116 | missing hours and budget count as 0; the budget block shows iff the budget is positive; progress is hours / budget × 100; red iff hours > budget; the bar is the progress capped at 100 (see also lines 149, 157-160) |
| ProjectsKanban.Board.constructor | src/components/Kanban/projects-kanban.tsx:30-31 | nothing dragged, no column hovered |
| ProjectsKanban.Board.DragStart | src/components/Kanban/projects-kanban.tsx:35-38 | records the dragged project |
| ProjectsKanban.Board.DragEnd | src/components/Kanban/projects-kanban.tsx:40-43 | clears both the dragged project and the hovered column |
| ProjectsKanban.Board.DragOver | src/components/Kanban/projects-kanban.tsx:45-49 | records the hovered column |
| ProjectsKanban.Board.DragLeave | src/components/Kanban/projects-kanban.tsx:51-53 | clears only the hovered column |
| ProjectsKanban.Board.Drop | src/components/Kanban/projects-kanban.tsx:55-73 | with no dragged project nothing happens; otherwise requests the `kanban_status` update and clears both the dragged project and the hovered column |
| KanbanPage.NoEntriesNoHours | src/app/kanban/page.tsx:26-27 | a project with no entries gets 0 hours |
| KanbanPage.OtherEntriesIgnored | src/app/kanban/page.tsx:20-27 | entries of other projects do not change a project's hours |
| KanbanPage.FillHoursLogged | src/app/kanban/page.tsx:19-29 | in place, each project's `hours_logged` becomes its entries' minutes / 60, and nothing else about any project changes |
| KanbanPage.OrNone | src/app/kanban/page.tsx:39 | a null project list is passed on as empty |
| Workload.NextMonths | src/components/dashboard/workload-view.tsx:14-21 | the current month and the three that follow it, in order |
| Workload.PropertyName | src/components/dashboard/workload-view.tsx:28 | a missing key is filed under the property name "undefined" |
| Workload.Build | src/components/dashboard/workload-view.tsx:24-51 | the rows are exactly the members' keys, each with exactly the four months; every cell is the sum of the estimated hours of the open tasks assigned to that key and due that month |
| Workload.CellSnoc | src/components/dashboard/workload-view.tsx:35-47 | one more task adds exactly its own contribution to a cell |
| Workload.CellOrderFree | src/components/dashboard/workload-view.tsx:35-47 | a cell does not depend on the order of the tasks |
| Workload.CellOfIgnoredTasks | src/components/dashboard/workload-view.tsx:36-42 | tasks with no assignee, no due date, another member, another month or status 'done' leave a cell at 0 |
| Workload.ProfilesAsWrittenShowZero | src/components/dashboard/workload-view.tsx:28 | keyed by `user_id`, a profile row's cells show 0 unless a task is assigned to the string "undefined" (see also src/app/page.tsx:56-58) |
| Workload.ProfilesCounterexample | src/components/dashboard/workload-view.tsx:28 | a 3-hour task of a profile shows 0 keyed by `user_id` and 3 keyed by `id` (see also src/app/page.tsx:56-58) |
| Workload.IdKeyShowsTasks | src/components/dashboard/workload-view.tsx:28-47 | keyed by `id`, each member's displayed cell is the sum of that member's counted tasks |
| Workload.LoadColorOf | src/components/dashboard/workload-view.tsx:54-59 | exactly 0 is neutral; any other value up to 80, negatives included, is green; up to 140 orange; above that red |
| MyTasks.WeekWindow | src/components/dashboard/my-tasks.tsx:51-58 | the week starts on the Monday on or before today (six days back on a Sunday) and ends six days later, around today |
| MyTasks.FilteredTasks | src/components/dashboard/my-tasks.tsx:60-78 | no 'done' task is listed, and a task with no due date is listed only under 'all' |
| MyTasks.FilteredTasksMembers | src/components/dashboard/my-tasks.tsx:60-78 | 'today' lists the open tasks due on or before today, 'week' those due from today to the end of the week, 'all' every open task |
| MyTasks.CountersMatchLists | src/components/dashboard/my-tasks.tsx:60-78 | each tab's counter equals the length of that tab's list (see also lines 91-105) |
| MyTasks.Rank | src/components/dashboard/my-tasks.tsx:81 | urgent, high, medium and low rank 0 to 3; any other priority has no rank |
| MyTasks.SortedTasks | src/components/dashboard/my-tasks.tsx:80-89 | the sorted list is a permutation of the filtered list |
| MyTasks.SortedByPriorityThenDue | src/components/dashboard/my-tasks.tsx:80-89 | when every task has a known priority and a due date: by rank, and by due date within a rank |
| MyTasks.UnrankedKeepOrder | src/components/dashboard/my-tasks.tsx:80-89 | in the model's stable insertion sort, tasks the comparator treats as equal to everything keep their input order |
| MyTasks.AllUnrankedUnchanged | src/components/dashboard/my-tasks.tsx:80-89 | when no task has a known priority every pair ties, the comparator is consistent, and the sorted list is the filtered list unchanged |
| MyTasks.Panel.constructor | src/components/dashboard/my-tasks.tsx:21-22 | the 'today' tab, no task being updated |
| MyTasks.Panel.SetFilter | src/components/dashboard/my-tasks.tsx:118-138 | a tab click selects that filter |
| MyTasks.Panel.StatusChange | src/components/dashboard/my-tasks.tsx:26-45 | requests the status update, with `completed_at` exactly when the new status is 'done'; no task is being updated afterwards |
| MyTasksWidget.Toggled | src/components/dashboard/my-tasks-widget.tsx:51-53 | only the tasks with that id change, and only in their `completed` flag |
| MyTasksWidget.ToggleTwice | src/components/dashboard/my-tasks-widget.tsx:51-53 | toggling twice restores the list |
| MyTasksWidget.ToggleUnknown | src/components/dashboard/my-tasks-widget.tsx:51-53 | toggling an unknown id changes nothing |
| MyTasksWidget.Widget.constructor | src/components/dashboard/my-tasks-widget.tsx:49 | starts from the given tasks |
| MyTasksWidget.Widget.ToggleTask | src/components/dashboard/my-tasks-widget.tsx:51-53 | the list becomes the toggled list |
| MyTasksWidget.TodaysTasks | src/components/dashboard/my-tasks-widget.tsx:57 | every listed task is due today |
| MyTasksWidget.WeekTasks | src/components/dashboard/my-tasks-widget.tsx:58 | every listed task is due today or later in ISO string order |
| MyTasksWidget.TodayWithinWeek | src/components/dashboard/my-tasks-widget.tsx:57-58 | today's list is the week list restricted to today, so it is never longer |
| MyTasksWidget.TabsKeepCompleted | src/components/dashboard/my-tasks-widget.tsx:57-58 | the lists hold exactly the tasks with the right due date, completed ones included |
| MyTasksWidget.Badge | src/components/dashboard/my-tasks-widget.tsx:120 | the badge never exceeds today's list |
| MyTasksWidget.BadgeCountsOpen | src/components/dashboard/my-tasks-widget.tsx:120 | the badge plus today's completed tasks make today's list |
| ProjectDetails.Toggled | src/components/projects/project-details-dialog.tsx:51 | only the tasks with that id change, and only in their `completed` flag |
| ProjectDetails.ToggleTwice | src/components/projects/project-details-dialog.tsx:51 | toggling twice restores the list |
| ProjectDetails.Deleted | src/components/projects/project-details-dialog.tsx:55 | no task with that id is left |
| ProjectDetails.DeleteRemovesExactly | src/components/projects/project-details-dialog.tsx:55 | the others all stay, and the removed ones are exactly those with that id |
| ProjectDetails.DeleteUnknown | src/components/projects/project-details-dialog.tsx:55 | deleting an unknown id changes nothing |
| ProjectDetails.CompletedCount | src/components/projects/project-details-dialog.tsx:59 | never more than the number of tasks |
| ProjectDetails.Progress | src/components/projects/project-details-dialog.tsx:59-60 | 0 for no tasks, otherwise completed / total × 100, always in [0, 100] |
| ProjectDetails.ProgressFull | src/components/projects/project-details-dialog.tsx:60 | 100 % exactly when every task is completed |
| ProjectDetails.AllCompletedIff | src/components/projects/project-details-dialog.tsx:59 | the completed count is the total exactly when every task is completed |
| ProjectDetails.RemainingCount | src/components/projects/project-details-dialog.tsx:59 | the tab counter is the number of tasks minus the completed ones (see also lines 137) |
| ProjectDetails.AppendOpenTask | src/components/projects/project-details-dialog.tsx:46 | adding an open task leaves the completed count and adds one to the counter |
| ProjectDetails.Checklist.constructor | src/components/projects/project-details-dialog.tsx:33-38 | starts from the given tasks with an empty input |
| ProjectDetails.Checklist.SetNewTask | src/components/projects/project-details-dialog.tsx:162 | typing records the input |
| ProjectDetails.Checklist.AddTask | src/components/projects/project-details-dialog.tsx:44-48 | a blank title changes nothing; otherwise one open task with the untrimmed title is appended and the input is cleared |
| ProjectDetails.Checklist.ToggleTask | src/components/projects/project-details-dialog.tsx:50-52 | the list becomes the toggled list |
| ProjectDetails.Checklist.DeleteTask | src/components/projects/project-details-dialog.tsx:54-56 | the list becomes the list without that id |
| ProjectTasks.FilteredTasks | src/components/tasks/project-tasks.tsx:48-51 | never longer than the list; a status filter lists only tasks of that status |
| ProjectTasks.FilterShows | src/components/tasks/project-tasks.tsx:48-51 | 'all' returns the list itself; a status filter returns exactly the tasks with that status, in order |
| ProjectTasks.StatsOf | src/components/tasks/project-tasks.tsx:54-59 | the total is the number of tasks and each count is at most the total |
| ProjectTasks.CountersMatchLists | src/components/tasks/project-tasks.tsx:54-59 | each filter button's count is the length of the list it shows: the total for 'all', and the todo, in-progress and done counts for their statuses (see also lines 104-131) |
| ProjectTasks.StatsAddUp | src/components/tasks/project-tasks.tsx:54-59 | the three counts add up to at most the total, and to the total when every status is one of the three |
| ProjectTasks.CompletionRate | src/components/tasks/project-tasks.tsx:61 | 0 for no tasks, otherwise done / total × 100, always in [0, 100] |
| ProjectTasks.FullRateIffAllDone | src/components/tasks/project-tasks.tsx:61 | 100 % exactly when every task is done |
| ProjectTasks.AllDoneIff | src/components/tasks/project-tasks.tsx:57 | the done count is the total exactly when every task is done |
| ProjectTasks.DoneBelowTotal | src/components/tasks/project-tasks.tsx:57 | one open task keeps the done count below the total |
| ProjectTasks.Panel.constructor | src/components/tasks/project-tasks.tsx:16-18 | the form is closed, nothing is being edited, the filter is 'all' |
| ProjectTasks.Panel.SetFilter | src/components/tasks/project-tasks.tsx:96-126 | a filter button selects that filter |
| ProjectTasks.Panel.OpenForm | src/components/tasks/project-tasks.tsx:74 | the new-task button opens the form |
| ProjectTasks.Panel.HandleEdit | src/components/tasks/project-tasks.tsx:22-25 | editing a task opens the form on that task |
| ProjectTasks.Panel.HandleCloseForm | src/components/tasks/project-tasks.tsx:43-46 | closing the form clears the edited task |
| ProjectTasks.Panel.HandleDelete | src/components/tasks/project-tasks.tsx:27-41 | a confirmed delete requests that task's deletion; a cancelled one requests nothing |
| ClientList.ActiveProjects | src/components/clients/client-list.tsx:52-53 | a project is listed exactly when it belongs to the client and is not 'completed', so 'archived' ones count as active (see also lines 99) |
| ClientList.ActiveCountSplit | src/components/clients/client-list.tsx:52-53 | the active count plus the number of completed projects is the number of projects |
| ClientList.FilteredClients | src/components/clients/client-list.tsx:44-47 | only matching clients are listed |
| ClientList.SearchFinds | src/components/clients/client-list.tsx:44-47 | a client is listed exactly when the lower-cased term occurs in its lower-cased name or company |
| ClientList.SearchIgnoresCase | src/components/clients/client-list.tsx:44-47 | upper-casing the term lists the same clients |
| ClientList.EmptySearchKeepsAll | src/components/clients/client-list.tsx:44-47 | an empty term lists every client |
| ClientList.SortedClients | src/components/clients/client-list.tsx:50-55 | the sorted list is a permutation of the filtered list |
| ClientList.SortedByActiveCount | src/components/clients/client-list.tsx:50-55 | the active project counts never increase along the list |
| ClientList.TiesKeepOrder | src/components/clients/client-list.tsx:50-55 | clients with the same count keep the input order, which is name order (see also src/app/clients/page.tsx:18) |
| ClientList.ProjectsLabel | src/components/clients/client-list.tsx:151 | "n Projet", with 's' exactly when n ≠ 1 |
| ClientList.ClientRows.constructor | src/components/clients/client-list.tsx:38-41 | nothing expanded, no project chosen |
| ClientList.ClientRows.ToggleExpand | src/components/clients/client-list.tsx:57-63 | the expanded client collapses; any other client becomes the only expanded one |
| ClientList.ClientRows.SelectProject | src/components/clients/client-list.tsx:179 | a project click opens it together with its client |
| ClientList.ClientRows.CloseDialog | src/components/clients/client-list.tsx:221 | closing the dialog clears the chosen project |
| ProjectMembers.MemberIds | src/components/projects/project-members.tsx:13 | the members' `user_id`s, in order |
| ProjectMembers.AvailableUsers | src/components/projects/project-members.tsx:13-14 | never longer than the user list |
| ProjectMembers.AvailableIff | src/components/projects/project-members.tsx:13-14 | a user is available exactly when it is a user and no member's `user_id` is its id |
| ProjectMembers.NoMembersAllAvailable | src/components/projects/project-members.tsx:13-14 | with no members every user is available, in order |
| ProjectMembers.UserLabel | src/components/projects/project-members.tsx:66 | `full_name \|\| email` |
| ProjectMembers.MembersPanel.constructor | src/components/projects/project-members.tsx:7-9 | the panel is hidden, nothing selected, not loading |
| ProjectMembers.MembersPanel.ToggleAdd | src/components/projects/project-members.tsx:49 | the add button shows or hides the panel |
| ProjectMembers.MembersPanel.Select | src/components/projects/project-members.tsx:60 | choosing a user records it |
| ProjectMembers.MembersPanel.HandleAdd | src/components/projects/project-members.tsx:16-32 | with no selection nothing happens; otherwise requests the member insert; on success the selection clears and the panel hides, on failure both stay |
| ProjectMembers.MembersPanel.HandleRemove | src/components/projects/project-members.tsx:34-42 | a confirmed removal requests that member's deletion; a cancelled one requests nothing |
| ProjectListWidget.ClientLabel | src/components/dashboard/project-list-widget.tsx:46 | the client's company, or 'Client interne' |
| ProjectListWidget.StatusLabel | src/components/dashboard/project-list-widget.tsx:57 | 'En cours' for 'active', otherwise the raw status |
| ProjectListWidget.BudgetLabel | src/components/dashboard/project-list-widget.tsx:63 | '-' exactly when the budget is null or 0, otherwise the budget's `toString` followed by 'h' |
| ProjectListWidget.BudgetLabelReadsBack | src/components/dashboard/project-list-widget.tsx:63 | a positive budget's label is its text and 'h', the text reads back as the budget, and a whole budget is plain digits |
| ProjectListWidget.HalfHourBudget | src/components/dashboard/project-list-widget.tsx:63 | a budget of 12.5 hours is shown as "12.5h" |
| Decimals.FewestDecimals | src/components/dashboard/project-list-widget.tsx:63 | the fewest decimals that write the number exactly, none fewer doing so |
| Decimals.Fraction | src/components/dashboard/project-list-widget.tsx:63 | the last k digits of a number: below 10^k, with the number's last digit |
| Decimals.WholeFraction | src/components/dashboard/project-list-widget.tsx:63 | a number is its whole part times 10^k plus its last k digits |
| Decimals.NumberText | src/components/dashboard/project-list-widget.tsx:63 | `Number.prototype.toString`: a minus sign before a negative number, then the digits of its absolute value |
| Decimals.WholeText | src/components/dashboard/project-list-widget.tsx:63 | a whole number is written as its digits with no point |
| Decimals.NegativeText | src/components/dashboard/project-list-widget.tsx:63 | a negative number is its absolute value's text after '-' |
| Decimals.NumberTextRoundTrip | src/components/dashboard/project-list-widget.tsx:63 | the text of a non-negative number with at most 20 decimals reads back as that number |
| Decimals.NumberTextShortest | src/components/dashboard/project-list-widget.tsx:63 | the text is the shortest: no point for a whole number, and a fraction never ends in 0 |
| ProjectListWidget.Render | src/components/dashboard/project-list-widget.tsx:7 | the placeholder exactly for no projects; the first min(5, n) projects in order; the footer exactly when n > 5, announcing the rest (see also lines 72-75) |

## Left out

- Backend calls are not performed: select, insert, update and delete, `router.refresh`, and the Blob and object-URL download of the CSV. A component appends the write it requests to its `writes` outbox.
- Backend failures are out of scope: Supabase reports errors in its result rather than throwing. What a call returns enters as a parameter (`insertedId`, `throws`), and the other failure paths are not modelled.
- `alert` and `confirm` are not modelled; a confirmation enters as the `confirmed` parameter.
- The clock and the calendar are parameters:
  - `new Date()` becomes a millisecond or day-number parameter;
  - the day of the month is a parameter;
  - the month of a due date is the `monthOf` parameter;
  - `new Date` parsing of a due date (a date-only string is read as UTC midnight while `today` is local time) and the `toISOString` day shift between local time and UTC are not modelled: the model's day numbers agree with the source only when local time is UTC;
  - `date-fns` formatting is not modelled.
- The `setInterval` tick is not modelled; one tick is the method `Tick`.
- Floating point is replaced by exact arithmetic. Hours and ratios are `real`. The `toFixed(1)` and `toFixed(0)` display strings are left as those reals; only the CSV's `toFixed(2)` is modelled as a decimal string.
- Numbers.HoursFixed2Nearest: `toFixed(2)` is modelled on the exact value minutes / 60, not on its binary floating-point approximation.
- Decimals.NumberText: exact for numbers with at most 20 decimals written without an exponent. A number with a longer or endless expansion, such as 1/3, is shown here by its first 20 decimals, while JavaScript prints the shortest decimal that reads back as the nearest double. The exponent forms that JavaScript uses below 10^-6 and from 10^21 are not modelled.
- The CSV export uses LF rather than the CRLF of section 2 item 1 of RFC 4180. The model keeps LF and does not model CRLF.
- CsvExport.CsvLines: stated only for cells without a line feed. A line feed inside a note breaks the line structure.
- `toLowerCase` is modelled on ASCII letters only.
- MyTasks.SortedByPriorityThenDue: stated only for tasks whose priority is one of the four known ones and that have a due date. On other tasks the source's comparator returns NaN or 0 and is not a total order. For them only the permutation is stated, and the list is unchanged when no task has a known priority.
- MyTasks.UnrankedKeepOrder: holds for the model's insertion sort only. When ranked and unranked tasks are mixed, the comparator is inconsistent: an unranked task ties with an urgent and a low task, which do not tie. ECMAScript then leaves the order of `Array.prototype.sort` to the engine, and V8's TimSort may move an unranked task past another.
- MyTasks.FilteredTasks: the 'today' test also accepts a due date on today's calendar day. With day numbers, and when local time is UTC, that case is already covered by "on or before today", so the model has the single comparison.
- Timer.TimerWidget.Stop: the two writes are modelled as one atomic step. The non-transactional insert-then-delete, double starts and the last-write-wins kanban drags are concurrency and not modelled.
- Colours, CSS classes and icons are not modelled, except the load colour of the workload view.
- The Supabase queries that feed the pages are not modelled, except the key mismatch reported below.
- QuickEntry.QuickEntryForm.SubmitDisabled and ProjectMembers.MembersPanel.AddDisabled are predicates that state the button conditions; they carry no lemma.
- Files outside the computations above are not part of this model:
  - the server actions;
  - the upload components;
  - the forms that only trim and insert;
  - the layout, routing and page loaders;
  - the type declarations.

## Findings

| source | as written | input that shows it | evidently intended | confidence | as-written member | corrected member |
|---|---|---|---|---|---|---|
| src/components/time/time-entries-table.tsx:40 | each cell is wrapped in `"` without doubling the `"` it contains | two entries: one with project name `P","N` and no note, one with project `P` and note `N","-`; both export the same text | quotes doubled as section 2 item 7 of RFC 4180 requires, so the file reads back into the table | not executed | CsvExport.CsvAsWrittenCollides | CsvExport.CsvRfcRoundTrip |
| src/components/dashboard/workload-view.tsx:28 | rows are keyed by `m.user_id`, but src/app/page.tsx:56-58 passes profile rows selected as `id, full_name`, which have no `user_id` | a profile `alice` and a 3-hour open task assigned to `alice` due in the window: the cell shows 0 | rows keyed by the profile's `id`, so the cell shows the member's 3 hours | not executed | Workload.ProfilesCounterexample | Workload.IdKeyShowsTasks |
