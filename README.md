# PurpleNotes reminder and timer core, modelled in Dafny

PurpleNotes is a browser widget for notes (optionally with a one-shot
reminder), a task checklist and a work/break interval timer. This project
models the parts of it that hold logic rather than markup:

- **Interval timer** (`timer.dfy`, module `Timer`). This is the header bar's work/break countdown. Its state is `mode`, `timeLeft` and `isRunning`, and the durations are fixed at 1500 s and 300 s. A tick of the one-second interval counts down. At 1 or below it stops, raises one alert naming the next phase, flips the mode and reloads that mode's duration. It does not start again. Toggle, reset and manual mode switch are modelled too, and so is the `mm:ss` display. The class `IntervalTimer` holds the state, a log of raised alerts, and whether the last OS notification is still on screen. The cleanup of the `[isRunning]` effect closes that notification whenever `isRunning` changes, so an expiry notification is closed as soon as it is raised. Each of its methods is proved equal to a pure step function (`TickStep`, `ToggleStep`, ...). The lemmas about runs of ticks are stated over those functions.
- **Deadline tracker of a note card** (`note_card.dfy`, module `NoteCard`). This covers the progress percentage, the `{d}d {h}h {m}m {s}s` countdown and the due flag. It also covers the reminder effect. The effect checks once at setup, then on every tick, and the first "due" check calls `onReminderDue` and cancels the interval. The class `ReminderTracker` has `Setup(now)`, `Tick(now)` and `Teardown()`. Its invariant is that the current setup has made at most one call, and none while the interval is still registered. The pure state machine (`SetupStep`, `TickStep`, `RunTicks`) carries the "exactly when observed due" lemma.
- **Reminder texts** (`notes_section.dfy`, `notification_popup.dfy`). The OS notification keeps 50 characters of content plus `...`. It is shown only when permission is granted. The in-page popup keeps 150 characters. Both fall back to fixed texts for an empty title or an empty body.
- **Lists and forms**:
  - note add (prepend) and delete (filter), in both notes sections: `notes_section.dfy`, and `legacy_notes_section.dfy` for the section the app actually mounts;
  - task append, toggle and delete: `tasks_section.dfy`;
  - the trim-and-reject guards and the disabled-button predicates of the two forms: `add_note_form.dfy`, `add_task_form.dfy`.

Shared modules:
- `Text` holds the JavaScript string built-ins the code uses: `trim`, `substring` truncation, `||` on strings, `toString` and `padStart`. It also has a decimal parser that inverts them.
- `Seqs` holds `filter`.
- `Types` holds the `Note`/`Task` records and the two kinds of alert.
- `Wrappers` holds `Option`.

Times are integer milliseconds and ids are passed in by the caller. The clock reading is a parameter of each `Setup`/`Tick` call. The notification permission is a parameter of the calls that depend on it.

## Model

| member | source | states |
|---|---|---|
| Timer.IntervalTimer.constructor | src/components/Timer.tsx:7-11 | starts in work mode with 1500 s left, stopped, no alerts; the state invariant holds |
| Timer.Duration | src/components/Timer.tsx:8-9 | the full duration of a mode: the constants 1500 s for work and 300 s for a break, chosen by mode as at lines 23, 83 and 91 (no contract of its own; used by `TickStep`, `ResetStep`, `SwitchStep`) |
| Timer.Other | src/components/Timer.tsx:72 | the mode the timer flips to at expiry (no contract of its own; `TickStep` states the flip) |
| Timer.EndMessage | src/components/Timer.tsx:64 | the expiry message: "Time for a break!" after work, "Break's over! Back to work." after a break (no contract of its own; `TickStep` states which is raised) |
| Timer.RunTicks | src/components/Timer.tsx:31-50 | a run of n interval firings: the final state and the messages raised, in order (no contract of its own; see `CountsDown`, `ExpiresAfterTimeLeftTicks`, `AlertCount`) |
| Timer.TickStep | src/components/Timer.tsx:33-44 | an alert is raised iff the timer runs and shows 1 or less; it names the next phase, and the timer is then in the other mode with that mode's full duration and stopped; otherwise a running timer loses exactly one second and a stopped one is unchanged; 1 <= timeLeft <= duration(mode) is preserved |
| Timer.ToggleStep | src/components/Timer.tsx:77-79 | start/pause flips `isRunning` only; mode and countdown keep their values |
| Timer.ResetStep | src/components/Timer.tsx:81-84 | stops and reloads the current mode's duration, mode unchanged |
| Timer.SwitchStep | src/components/Timer.tsx:86-93 | switching to the current mode changes nothing; to the other mode it enters it stopped with its full duration |
| Timer.StoppedTimerIsInert | src/components/Timer.tsx:45-50 | without a running interval any number of ticks changes nothing and raises nothing |
| Timer.CountsDown | src/components/Timer.tsx:35-42 | fewer ticks than the countdown shows each take one second off and raise nothing |
| Timer.ExpiresAfterTimeLeftTicks | src/components/Timer.tsx:33-44 | a running timer showing T seconds raises exactly one alert on exactly the T-th tick and ends in the other mode, full, stopped |
| Timer.AlertCount | src/components/Timer.tsx:31-50 | from any reachable state, n ticks raise one alert if the timer runs and n reaches the countdown, none otherwise |
| Timer.WorkSessionEndsInBreak | src/components/Timer.tsx:63-75 | started from the initial state, 1500 ticks end in break mode with 300 s, stopped, with the single message "Time for a break!" |
| Timer.FormatTime | src/components/Timer.tsx:95-99 | the `mm:ss` display: reading it back with the independent parser gives the seconds it was made from; the digits before the colon are the whole minutes and the two after it are the seconds below 60; it is five characters exactly below 6000 s (100 minutes) |
| Timer.TimerAlert | src/components/Timer.tsx:66-70 | an OS notification titled "Purple Notes Timer" with the message as body and no tag exactly when permission is granted, otherwise a blocking alert with the message |
| Timer.IntervalTimer.CloseNotification | src/components/Timer.tsx:52-60 | the `[isRunning]` effect's cleanup: the OS notification is no longer on screen; state and alert log unchanged |
| Timer.IntervalTimer.Tick | src/components/Timer.tsx:33-44 | the new state is `TickStep` of the old; the alert goes out as an OS notification titled "Purple Notes Timer" when permission is granted, as a blocking alert otherwise; the expiry's `setIsRunning(false)` triggers the cleanup, so after an expiry no timer notification is on screen, and a tick that leaves `isRunning` alone leaves the notification as it was |
| Timer.IntervalTimer.Toggle | src/components/Timer.tsx:77-79 | the new state is `ToggleStep` of the old; no alert; `isRunning` changes, so any open notification is closed |
| Timer.IntervalTimer.Reset | src/components/Timer.tsx:81-84 | the new state is `ResetStep` of the old; no alert; the notification is closed if the timer was running |
| Timer.IntervalTimer.SwitchMode | src/components/Timer.tsx:86-93 | the new state is `SwitchStep` of the old; no alert; the notification is closed exactly when `isRunning` changes |
| Timer.IntervalTimer.Display | src/components/Timer.tsx:121-123 | the shown text is five characters and parses back to `timeLeft` |
| Text.PadStart2 | src/components/Timer.tsx:98 | pads to two characters and does not change the decimal value |
| Text.NatToDecimal | src/components/Timer.tsx:98 | `n.toString()`: at least one character, all decimal digits, with a leading zero only for 0 |
| Text.DecimalRoundTrip | src/components/Timer.tsx:96-98 | parsing `n.toString()` gives n |
| NoteCard.BreakdownOf | src/sections/Notes/NoteCard.tsx:44-48 | for a positive remaining time, hours < 24, minutes < 60, seconds < 60, and the parts add up to the remaining time less under one second |
| NoteCard.BreakdownUnique | src/sections/Notes/NoteCard.tsx:44-47 | no other split of the remaining time has those bounds |
| NoteCard.SourceBreakdown | src/sections/Notes/NoteCard.tsx:44-47 | the card's formula read over exact reals (real division, JavaScript `%`, `Math.floor`); its hours, minutes and seconds are within 24, 60 and 60 |
| NoteCard.JsRemainder | src/sections/Notes/NoteCard.tsx:44-46 | JavaScript `%` on non-negative numbers over exact reals: the result lies in [0, y) and differs from x by a whole multiple of y |
| NoteCard.FloorOfRemainder | src/sections/Notes/NoteCard.tsx:44-46 | `Math.floor((diff / unit) % base)` over reals is integer division then remainder |
| NoteCard.SourceBreakdownAgrees | src/sections/Notes/NoteCard.tsx:44-47 | the card's real-division formula gives the same days, hours, minutes and seconds as the integer breakdown |
| NoteCard.RemainingText | src/sections/Notes/NoteCard.tsx:48 | builds the `{d}d {h}h {m}m {s}s` countdown text from a breakdown (no contract of its own; see the next row) |
| NoteCard.RemainingTextRoundTrip | src/sections/Notes/NoteCard.tsx:48 | reading the countdown text back with an independent parser gives the breakdown it was made from |
| NoteCard.Progress | src/sections/Notes/NoteCard.tsx:39-40 | progress lies in [0, 100]; it is 0 when the span is not positive and before creation time |
| NoteCard.ProgressIsElapsedShare | src/sections/Notes/NoteCard.tsx:39-40 | inside the span, progress times the span is 100 times the elapsed time |
| NoteCard.ProgressMonotone | src/sections/Notes/NoteCard.tsx:39-41 | with a fixed span, progress never decreases as time passes |
| NoteCard.Observe | src/sections/Notes/NoteCard.tsx:30-50 | due iff the reminder time has been reached; when due, progress 100 and the text "Reminder due!"; otherwise the clamped progress and the countdown text of the remaining time |
| NoteCard.ObservedProgressMonotone | src/sections/Notes/NoteCard.tsx:30-41 | the shown progress never moves back, and it is 100 from the deadline on |
| NoteCard.Scheduled | src/sections/Notes/NoteCard.tsx:17 | the effect's guard: a reminder counts as scheduled when it is enabled and has a date (no contract of its own; used by `SetupStep` and `ReminderTracker.Setup`) |
| NoteCard.CheckStep | src/sections/Notes/NoteCard.tsx:32-50 | one check with the interval registered: shows the observation, keeps the interval iff the deadline is still ahead, and adds exactly one call iff it has been reached; from no calls it keeps at most one |
| NoteCard.SetupStep | src/sections/Notes/NoteCard.tsx:16-72 | a disabled or undated reminder shows 0, "" and not due, with no interval; otherwise a past deadline makes exactly one call during setup and cancels the interval, and a future one keeps the interval with no call |
| NoteCard.TickStep | src/sections/Notes/NoteCard.tsx:28-51 | no interval means no change; otherwise the tick shows the observation, keeps the interval exactly while the deadline is still ahead, and adds a call exactly when due; at most one call is preserved |
| NoteCard.RunTicks | src/sections/Notes/NoteCard.tsx:28-51 | the interval callbacks at a sequence of clock readings, in order (no contract of its own; see `CancelledTrackerIsInert`, `RunAddsOneCallAtMost`, `DispatchIffObservedDue`) |
| NoteCard.CancelledTrackerIsInert | src/sections/Notes/NoteCard.tsx:75 | after cancellation (having fired, unmount or deletion) no tick changes anything or calls back |
| NoteCard.RunAddsOneCallAtMost | src/sections/Notes/NoteCard.tsx:28-51 | a run of ticks keeps at most one call and adds one exactly when the interval is registered and some tick sees the deadline |
| NoteCard.DispatchIffObservedDue | src/sections/Notes/NoteCard.tsx:28-61 | within one setup `onReminderDue` is called exactly once if the reminder is scheduled and the setup or some tick sees the deadline, and never otherwise |
| NoteCard.OverduePollExample | src/sections/Notes/NoteCard.tsx:28-37 | a reminder 10 s after creation, polled at 11 s, is due with progress 100, one call, interval cancelled |
| NoteCard.ReminderTracker.constructor | src/sections/Notes/NoteCard.tsx:12-14 | the card starts with progress 0, empty text, not due, no interval, no calls |
| NoteCard.ReminderTracker.Check | src/sections/Notes/NoteCard.tsx:32-50 | one check with the interval registered, as `CheckStep`: on due it calls back with the note and cancels |
| NoteCard.ReminderTracker.Setup | src/sections/Notes/NoteCard.tsx:16-72 | the new state is `SetupStep` of the note's schedule and the clock reading; the calls are none or this note once |
| NoteCard.ReminderTracker.Tick | src/sections/Notes/NoteCard.tsx:28-51 | the new state is `TickStep` of the old; the invariant (at most one call, none while ticking) holds |
| NoteCard.ReminderTracker.Teardown | src/sections/Notes/NoteCard.tsx:75 | the interval is cleared, nothing else changes |
| NotificationPopup.PopupTitle | src/components/NotificationPopup.tsx:19 | the note's title when it has one, else "Note Reminder"; never empty |
| NotificationPopup.PopupBody | src/components/NotificationPopup.tsx:20-22 | at most 153 characters and never empty; long content gives its first 150 characters then "..."; short non-empty content is shown unchanged; empty content gives "Your reminder is due!" |
| NotesSection.NewNote | src/sections/Notes/NotesSection.tsx:23-27 | the draft's fields with the given id and creation time (no contract of its own; `AddNote` states its fields) |
| NotesSection.AddNote | src/sections/Notes/NotesSection.tsx:22-29 | the list grows by one; the old list is the unchanged tail; the new head carries the draft's fields with the given id and creation time |
| NotesSection.DeleteNote | src/sections/Notes/NotesSection.tsx:31-33 | no note with the id remains; every other note remains; nothing new appears |
| NotesSection.DeleteNoteKeepsOrder | src/sections/Notes/NotesSection.tsx:32 | delete distributes over concatenation, so survivors keep their order |
| NotesSection.DeleteNoteIdempotent | src/sections/Notes/NotesSection.tsx:32 | deleting twice is deleting once |
| NotesSection.DeleteAbsentNote | src/sections/Notes/NotesSection.tsx:32 | deleting an absent id leaves the list unchanged |
| NotesSection.DeleteUndoesAdd | src/sections/Notes/NotesSection.tsx:22-33 | adding a note with a fresh id and deleting that id restores the list |
| NotesSection.NotificationTitle | src/sections/Notes/NotesSection.tsx:42 | the note's title when it has one, else "Note Reminder" |
| NotesSection.NotificationBody | src/sections/Notes/NotesSection.tsx:38-43 | at most 53 characters and never empty; long content gives its first 50 characters then "..."; short non-empty content unchanged; empty gives "Your reminder is due!" |
| NotesSection.ReminderDue | src/sections/Notes/NotesSection.tsx:35-62 | a notification is shown iff permission is granted, and it is tagged with the note's id and has that title and body; undecided permission requests permission again; denied shows nothing |
| LegacyNotesSection.AddDisabled | src/sections/NotesSection.tsx:115 | the Add button is disabled exactly when title and content are both blank |
| LegacyNotesSection.Accept | src/sections/NotesSection.tsx:24-37 | a note is built iff the button would be enabled; it stores trimmed title, subtitle and content, the given id and time, and the date only when the reminder is enabled |
| LegacyNotesSection.DeleteNote | src/sections/NotesSection.tsx:48-50 | no note with the id remains; every other note remains; nothing new appears |
| LegacyNotesSection.DeleteNoteKeepsOrder | src/sections/NotesSection.tsx:49 | survivors keep their order |
| LegacyNotesSection.DeleteAbsentNote | src/sections/NotesSection.tsx:49 | deleting an absent id leaves the list unchanged |
| LegacyNotesSection.NotesBoard.constructor | src/sections/NotesSection.tsx:17-22 | empty list and the five fields at '', '', '', false, '' |
| LegacyNotesSection.NotesBoard.Add | src/sections/NotesSection.tsx:24-46 | a rejected form changes neither list nor fields; an accepted one prepends the note and resets all five fields |
| LegacyNotesSection.NotesBoard.Delete | src/sections/NotesSection.tsx:48-50 | the list becomes `DeleteNote` of the old list; the form is untouched |
| AddNoteForm.Payload | src/sections/Notes/AddNoteForm.tsx:18-26 | no draft iff title and content are both blank; the draft has trimmed title and content, the reminder flag as given, and a date only when the reminder is enabled |
| AddNoteForm.SubmitDisabled | src/sections/Notes/AddNoteForm.tsx:93 | disabled iff both texts are blank or a reminder is enabled without a date |
| AddNoteForm.EnabledButtonSubmitsDatedDraft | src/sections/Notes/AddNoteForm.tsx:93 | whatever the enabled button submits is a draft, and an enabled reminder in it has a date |
| AddNoteForm.HandlerAcceptsUndatedReminder | src/sections/Notes/AddNoteForm.tsx:18-25 | the handler itself does not check the date: for every form, the button is disabled yet a draft is produced exactly when title or content is non-blank and a reminder is enabled without a date, and that draft is an undated reminder |
| AddNoteForm.UndatedReminderExample | src/sections/Notes/AddNoteForm.tsx:18-25 | such a form exists: title "Call", no content, reminder on, no date gives the undated draft |
| AddNoteForm.NoteForm.constructor | src/sections/Notes/AddNoteForm.tsx:10-13 | the four fields start at '', '', false, '' |
| AddNoteForm.NoteForm.Submit | src/sections/Notes/AddNoteForm.tsx:15-33 | the call made is `Payload` of the fields; after a call the fields are reset, otherwise unchanged |
| TasksSection.AddTask | src/sections/Tasks/TasksSection.tsx:13-17 | the list grows by one at the end, an open task with the given id and text; the prefix is unchanged |
| TasksSection.Toggled | src/sections/Tasks/TasksSection.tsx:22 | `{ ...task, completed: !task.completed }` (no contract of its own; `ToggleTask` states its effect) |
| TasksSection.ToggleTask | src/sections/Tasks/TasksSection.tsx:19-24 | length, order, ids and texts are kept; `completed` changes exactly on the tasks with the id |
| TasksSection.ToggleTwice | src/sections/Tasks/TasksSection.tsx:21-23 | toggling the same id twice restores the list |
| TasksSection.ToggleAbsent | src/sections/Tasks/TasksSection.tsx:21-23 | toggling an absent id leaves the list unchanged |
| TasksSection.DeleteTask | src/sections/Tasks/TasksSection.tsx:26-29 | no task with the id remains; every other task remains; nothing new appears |
| TasksSection.DeleteTaskKeepsOrder | src/sections/Tasks/TasksSection.tsx:28 | survivors keep their order |
| TasksSection.DeleteTaskIdempotent | src/sections/Tasks/TasksSection.tsx:28 | deleting twice is deleting once |
| TasksSection.DeleteAbsentTask | src/sections/Tasks/TasksSection.tsx:28 | deleting an absent id leaves the list unchanged |
| TasksSection.DeleteUndoesAdd | src/sections/Tasks/TasksSection.tsx:13-29 | appending a task with a fresh id and deleting that id restores the list |
| AddTaskForm.Submission | src/sections/Tasks/AddTaskForm.tsx:13-14 | a call is made iff the text is not blank, with the trimmed text, which is non-empty and has no whitespace at either end |
| AddTaskForm.AddDisabled | src/sections/Tasks/AddTaskForm.tsx:31 | the button is disabled iff the text is blank, that is iff submitting would make no call |
| AddTaskForm.TaskForm.constructor | src/sections/Tasks/AddTaskForm.tsx:9 | the field starts empty |
| AddTaskForm.TaskForm.Submit | src/sections/Tasks/AddTaskForm.tsx:11-17 | the call made is `Submission` of the text; after a call the field is '', otherwise unchanged |
| Text.Trim | src/sections/NotesSection.tsx:26-32 | the result is the infix left after removing whitespace from both ends: everything outside it is whitespace and its ends are not; it is empty iff the input is all whitespace |
| Text.Or | src/sections/Notes/NotesSection.tsx:43 | JavaScript's logical-or fallback on strings: `s` unless it is empty (no contract of its own; `NotificationBody` and `PopupBody` state the fallback) |
| Text.Truncate | src/sections/Notes/NotesSection.tsx:38-40 | at most n + 3 characters; short input unchanged; long input gives its first n characters then "..." |
| Seqs.Filter | src/sections/Notes/NotesSection.tsx:32 | the result holds exactly the elements that pass the test, and no more elements than the input |

## Left out

- Rendering: the JSX markup, the CSS classes, the popups' scroll lock and the task item and timer-popup components.
- Persistence: `useLocalStorage`, the theme, and `matchMedia`. List setters are whole-value replacements, so the list functions return the new list.
- Ids and clocks: `crypto.randomUUID` and `Date.now()` as id sources and the current time. Ids, creation times and clock readings are parameters.
- Date handling: parsing the note's two date strings into milliseconds. `ReminderTracker` takes them already converted. An unparsable date (NaN in the browser) is not modelled. `toLocaleString` and `getMinDateTime` are left out too.
- Browser form validation: the `required` and `min` attributes of the date input. `HandlerAcceptsUndatedReminder` shows what the handler alone lets through.
- Scheduling: `setInterval` and `clearInterval` are represented by an "interval registered" flag (`isRunning` for the timer, `ticking` for the cards), and each firing is an explicit `Tick` call. React's batching and effect ordering are left out. In particular, the timer's expiry tick includes the mode-change effect that follows it. The single render in between, which shows 00:00 in the new mode, is not a separate state. Double invocation of state updaters in React's development mode is not modelled.
- Re-firing across setups: the card's effect re-runs whenever its dependencies change. That includes the parent callback's identity, which changes on every render. `dueCalls` therefore counts the calls of the current setup only. "At most once" is claimed per setup, not per deadline.
- Notification API calls: the permission requests on mount (src/components/Timer.tsx:15-20, src/sections/Notes/NotesSection.tsx:10-20), the notification icon, and console logging.
- NotesSection.ReminderDue: the asynchronous re-request on an undecided permission, and the retry after it is granted, appear only as the outcome `PermissionRequested`.
- The note's `reminderDismissed` flag: no shown code reads or writes it.
- Editing the timer durations: the inputs are commented out, so the durations are constants.
- Floating point: progress and the source's countdown formula are computed over exact reals, not IEEE doubles.
- Text.Truncate, NotesSection.NotificationBody, NotificationPopup.PopupBody: string lengths count Unicode scalar values, while JavaScript's `length` and `substring` count UTF-16 code units. The two differ for characters outside the Basic Multilingual Plane, both in the length tests and in where the text is cut.
- Timer.FormatTime: defined for non-negative seconds only, because the countdown is never negative. JavaScript's `Math.floor` and `%` on negative numbers are not modelled.
- Controlled-input `onChange` handlers: they only assign a field, and the classes' fields are assigned directly.

Behaviours of the code a reader might not expect, which the model follows:
- A denied permission shows no note notification at all. There is no fallback to the in-page popup.
- The timer's expiry notification is closed right after it is raised. The `[isRunning]` effect's cleanup (src/components/Timer.tsx:52-60) calls `close()` whenever `isRunning` changes, and the expiry tick sets it to false. Only the blocking alert of the non-granted path stays up.
- The retry after a permission request (src/sections/Notes/NotesSection.tsx:47-55) calls the `handleReminderDue` of the render that started the request. That render still reads the permission as undecided, so the retry asks for permission again instead of showing the notification. The request then resolves to granted at once and calls the stale handler again, so the loop never ends. The notification still arrives by another path. The first `setNotificationPermission('granted')` (line 51) re-renders the section with a new `onReminderDue`. That re-runs each card's effect (src/sections/Notes/NoteCard.tsx:76), and the eager check of an overdue note then calls the new handler, which shows it.
- The popup is a separate component, and no shown caller drives it.
- The timer ends on the tick that finds 1 second or less left. So a countdown of T seconds expires on the T-th tick and never runs below 1.
- Nothing resets a "fired" flag when a reminder is edited. The card simply re-runs its effect, which counts afresh.
