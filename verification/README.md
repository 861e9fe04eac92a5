# Personal Assistant reminder step, modelled in Dafny

The Personal Assistant app is a one-screen React Native reminder tool.
The user picks a calendar day and a time and types a title. The step
`scheduleReminder(date, time, title)` then does four things. It rejects a
blank title. It requests a notification fifteen minutes before the event.
It plays the alarm sound at that moment, or at once if that moment has
passed. It files `{ title, time }` under the day, in time order.

This project models that step as a pure function:

- The screen's `tasks` state is a `map<Day, seq<Task>>`.
- Instants are integer milliseconds since the epoch.
- A calendar day is an integer count of days since 1970-01-01.
- The wall clock (`new Date()`) is a parameter of the step. The event
  instant the code builds does not depend on the device's time zone, so
  `ScheduleReminder` has no zone parameter. The corrected step
  `ScheduleReminderIntended` (see "## Findings") takes the device's offset
  from UTC as a parameter.
- The side effects are returned as values and not performed: the
  notification request, the deferred sound and the immediate sound.

Files and modules:

- `js_text.dfy`, module `JsText`: `String.prototype.trim` and the
  whitespace set of ECMA-262. The title check `!title.trim()` is `IsBlank`.
- `task_order.dfy`, module `TaskOrder`: the `Task` record and the stable
  sort by time that `Array.prototype.sort` performs with the comparator
  `(a, b) => a.time - b.time`. The sort is modelled as an insertion sort.
  Its contract is the one any stable sort meets: the result is sorted, is a
  permutation, and keeps the order of the tasks within each time.
  `SortIsUnique` proves that only one list meets that contract, so every
  stable sort by time returns what the insertion sort returns.
- `event_time.dfy`, module `EventTime`: instants, and the event instant
  built from the day and the picked time. The 15-minute lead (900000 ms) is
  defined here.
- `reminder.dfy`, module `Reminder`: the effects, the `setTasks` updater
  (`AddTask`), the step `ScheduleReminder`, and the lemmas that relate
  several calls.

## Model

| member | source | states |
|---|---|---|
| `JsText.TrimStart` | pa/App.js:63 | the result is a suffix of the input, everything dropped is whitespace, and it does not start with whitespace |
| `JsText.TrimEnd` | pa/App.js:63 | the result is a prefix of the input, everything dropped is whitespace, and it does not end with whitespace |
| `JsText.Trim` | pa/App.js:63 | `title.trim()` is empty exactly when every character of the title is ECMA-262 whitespace or a line terminator; a non-empty result neither starts nor ends with whitespace |
| `JsText.TrimPasses` | pa/App.js:63 | the two trimming passes together leave nothing exactly when the string is blank |
| `JsText.TrimRemovesOnlyWhitespace` | pa/App.js:63 | trimming never drops a character that is not whitespace: every non-whitespace position of the title lies inside the kept slice, so every non-whitespace character value survives |
| `JsText.TrimIsSlice` | pa/App.js:63 | `title.trim()` is a contiguous slice of the title, and everything before it and everything after it is whitespace |
| `JsText.IsBlank` | pa/App.js:63 | `!title.trim()` holds exactly when every character of the title is whitespace or a line terminator (the empty title included) |
| `TaskOrder.Insert` | pa/App.js:89-90 | placing one task into a list adds exactly that task (multiset) and grows the list by one |
| `TaskOrder.InsertKeepsSorted` | pa/App.js:89-90 | inserting into a list sorted by time keeps it sorted |
| `TaskOrder.SortByTime` | pa/App.js:90 | the sort by `a.time - b.time` returns a permutation of its input, sorted ascending by time |
| `TaskOrder.SortIsStable` | pa/App.js:90 | the sort is stable: for every time, the tasks of that time keep their relative order |
| `TaskOrder.SortedByTimeUnique` | pa/App.js:90 | two lists sorted by time that hold the same tasks of every time, in the same order, are equal |
| `TaskOrder.SortIsUnique` | pa/App.js:90 | any list sorted by time that keeps each time's tasks of the input in order is `SortByTime` of the input, so the insertion sort returns exactly what a stable `sort` with this comparator returns |
| `TaskOrder.InsertIsStable` | pa/App.js:89-90 | inserting into a sorted list keeps each time's tasks in order and puts the new task after those of its own time |
| `TaskOrder.InsertLast` | pa/App.js:89-90 | a task due no earlier than every listed task is appended at the end |
| `TaskOrder.SortSortedIsIdentity` | pa/App.js:90 | re-sorting a list that is already sorted by time changes nothing |
| `TaskOrder.SortAppend` | pa/App.js:89-90 | sorting the list with the new task appended is inserting the task into the sorted old list |
| `TaskOrder.InsertPosition` | pa/App.js:89-90 | in a sorted list the new task lands right after the tasks due no later than it, before all tasks due later |
| `TaskOrder.CountUpToSplits` | pa/App.js:90 | in a sorted list the tasks due no later than a time form a prefix |
| `TaskOrder.InsertAtCount` | pa/App.js:89-90 | inserting into a sorted list splits it at the count of tasks due no later than the new one |
| `TaskOrder.InsertCommutes` | pa/App.js:89-90 | two tasks of different times end in the same places whichever is inserted first |
| `EventTime.UtcTimeOfDay` | pa/App.js:68 | the `HH:mm:ss.sssZ` part of `toISOString()` is a time of day in [0, 86400000) that is a whole number of days away from the instant |
| `EventTime.LocalTimeOfDay` | pa/App.js:68 | the wall-clock time of day is in [0, 86400000) and a whole number of days away from the local instant |
| `EventTime.EventInstantAsWritten` | pa/App.js:68 | the instant the source builds falls on the picked day in UTC, at the picked time's UTC time of day |
| `EventTime.EventInstant` | pa/App.js:68 | the event falls, on the local wall clock, on the picked day at the picked time's local time of day |
| `EventTime.EventInstantInUtc` | pa/App.js:68 | at UTC offset zero the corrected instant and the instant as written coincide |
| `EventTime.AsWrittenAgreesIffSameDay` | pa/App.js:68 | the instant as written is the intended one exactly when the picked time lies on the same day in UTC and locally |
| `EventTime.AsWrittenIsADayEarlyWestOfUtc` | pa/App.js:68 | at UTC−5, a reminder picked for 20:00 is placed at 20:00 of the previous local day |
| `EventTime.AsWrittenIsADayLateEastOfUtc` | pa/App.js:68 | at UTC+2, a reminder picked for 01:00 is placed at 01:00 of the next local day |
| `Reminder.AlarmSound` | pa/App.js:76-81 | the sound is always emitted: deferred, by a positive delay that ends exactly at the alarm, when the alarm is in the future, else played at once; it starts at the later of the alarm and now |
| `Reminder.AlarmEffects` | pa/App.js:69-81 | for a given event instant, exactly two effects: a notification triggered 15 minutes (900000 ms) before the event, titled "Upcoming Event", with body the untrimmed title followed by " starts in 15 minutes!", then exactly one sound effect that is deferred exactly when the notification instant is later than now, by a delay ending at that instant, and otherwise plays at once |
| `Reminder.AddTask` | pa/App.js:84-92 | the `setTasks` updater adds the day's key if missing and changes no other day; the day's list holds exactly the old tasks plus the new one, sorted by time; a day without a list ends with the new task alone |
| `Reminder.AddTaskIsStable` | pa/App.js:89-90 | for every time, the day's tasks of that time keep their order, and the new task follows those of its own time |
| `Reminder.AddTaskGrowsByOne` | pa/App.js:89 | the day's list grows by exactly one |
| `Reminder.ScheduleReminder` | pa/App.js:62-92 | a title that trims to empty produces no effect and leaves the task map unchanged; any other title files the task with `AddTask` and produces the alarm effects for the instant the code builds: 15 minutes after the notification it is day `date` in UTC at the UTC time of day of the picked time |
| `Reminder.ScheduleReminderIntended` | pa/App.js:62-92 | the corrected step: the same rejection and filing, but 15 minutes after the notification the device's wall clock shows day `date` at the picked time's local time of day |
| `Reminder.IntendedAgreesIffSameDay` | pa/App.js:68 | the code's step and the corrected step always leave the same task map, and they agree entirely exactly when the title is blank or the picked time falls on the same day in UTC and locally |
| `Reminder.ScheduleReminderNotifiesADayEarly` | pa/App.js:68-74 | at UTC−5, a reminder for 20:00 on day 0 is notified exactly one day before the corrected step notifies it |
| `Reminder.ScheduleFilesTask` | pa/App.js:83-91 | an accepted call adds exactly `{title, time}`, with the title as typed, to the day's list; the list grows by one, stays sorted by the picked time, and ends the new task after every earlier task of the same time; other days are untouched |
| `Reminder.ScheduleInsertsInPlace` | pa/App.js:89-90 | on sorted lists the new day's list is the old list with the task inserted after the tasks due no later than it |
| `Reminder.AddTaskKeepsWellFormed` | pa/App.js:84-91 | filing a task with a non-blank title keeps every day's list sorted and free of blank titles |
| `Reminder.ScheduleKeepsWellFormed` | pa/App.js:62-92 | every call keeps the invariant that all stored lists are sorted by time and hold no blank title |
| `Reminder.AddTaskToSorted` | pa/App.js:89-90 | filing into a sorted day's list is inserting in place and keeps the list sorted |
| `Reminder.AddTaskCommutesOnOneDay` | pa/App.js:89-90 | two tasks of different times on one day give the same list in either order |
| `Reminder.AddTaskCommutesAcrossDays` | pa/App.js:85-91 | tasks filed under different days do not interact |
| `Reminder.ScheduleOrderIndependent` | pa/App.js:84-92 | two reminders for different days, or for different times of one day, leave the same task map whichever is set first |

## Left out

- The code has no alarm states, no cancellation and no re-arming of a
  reminder, so none are modelled. The blank-title check happens only at the
  top of `scheduleReminder`; nothing checks the stored lists again.
- The React component, its hooks and its rendering (`pa/App.js:19-36`,
  `54-60`, `100-143`). This is UI plumbing.
- The notification handler set-up and the permission requests. These are
  foreign library calls.
- `playAlarmSound` itself: loading the fixed alarm URI, playing it, and the
  error alert when that fails. These happen asynchronously inside the audio
  library. The model stops at the effect value that says when the sound
  starts.
- The two alerts and the clearing of the title field. These are the error
  alert for a blank title, the "Reminder Set!" confirmation alert and
  `setTaskTitle('')`. They are UI only. The confirmation text also depends on
  `toLocaleTimeString`.
- Parsing the 'YYYY-MM-DD' day string, and `Date` objects in general. A day
  is an integer and an instant is integer milliseconds. Invalid dates and the
  ±8.64e15 ms range of `Date` are not modelled.
- EventTime.EventInstant and Reminder.ScheduleReminderIntended: the local
  time zone is a fixed offset. Daylight saving changes between the picked
  time and the event are not modelled.
- Reminder.AlarmSound: the delay is handed to the timer as an unbounded
  integer. How the host's `setTimeout` treats delays above 2^31−1 ms is not
  modelled.
- The comparator `a.time - b.time` is modelled on integer times. The `NaN`
  that an invalid `Date` would produce is not modelled.
- React runs the `setTasks` updater later, against the state at that time.
  The model applies it at once to the map passed in. The updater copies the
  map shallowly and then pushes onto the array that the previous state still
  shares. That aliasing is not visible in a value model.
- Strings are sequences of Unicode scalar values. Lone UTF-16 surrogates
  cannot be represented. None of them is whitespace, so `trim` is unaffected.

## Findings

| source | as written | input that shows it | evidently intended | confidence | as-written member | corrected member |
|---|---|---|---|---|---|---|
| pa/App.js:68 | the event instant is built from `${date}T` and the UTC time of day of the picked time (`toISOString` ends in `Z`), so a local calendar day is paired with a UTC clock time | at UTC−5, day 0, time picked as 20:00 local (01:00 UTC of day 1): the event lands at 20:00 local of day −1, a day early (and at UTC+2, 01:00 local lands a day late) | the event is on the picked day at the picked local time, as the confirmation alert (`toLocaleTimeString`) tells the user | not executed; high whenever the device is not on UTC | `Reminder.ScheduleReminderNotifiesADayEarly` | `Reminder.ScheduleReminderIntended` |

`EventTime.EventInstantAsWritten` is the source's formula, and
`Reminder.ScheduleReminder` uses it, as the code does. The corrected instant
`EventTime.EventInstant` agrees with it exactly when the picked time falls
on the same day in UTC and locally (`EventTime.AsWrittenAgreesIffSameDay`).
At offset zero it always agrees (`EventTime.EventInstantInUtc`).
`Reminder.ScheduleReminderIntended` is the step built on the corrected
instant, and `Reminder.IntendedAgreesIffSameDay` relates the two steps.
`EventTime.AsWrittenIsADayEarlyWestOfUtc` and
`EventTime.AsWrittenIsADayLateEastOfUtc` show the two directions of the
error on the instants alone.
