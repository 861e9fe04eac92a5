/** The reminder step of the personal assistant screen, `scheduleReminder`:
    validate the title, compute the event and alarm instants, request the
    notification, decide when the alarm sound plays, and file the new task
    under its day in time order. The step is pure: it returns the new task
    map and the side effects to perform instead of performing them. */
module Reminder {
  import opened JsText
  import opened TaskOrder
  import opened EventTime

  /** The screen's `tasks` state: each day's tasks, kept in time order. */
  type TaskMap = map<Day, seq<Task>>

  /** A side effect of the step, in the order the step issues them. */
  datatype Effect =
    | ScheduleNotification(trigger: Instant, heading: string, body: string)
    | PlaySoundAfter(delay: int)
    | PlaySoundNow
  {
    predicate IsSound() {
      PlaySoundAfter? || PlaySoundNow?
    }
  }

  /** What one call leaves behind: the task map and the effects issued. */
  datatype Reaction = Reaction(tasks: TaskMap, effects: seq<Effect>)

  const NotificationHeading: string := "Upcoming Event"

  /** Appended to the title to form the notification text. */
  const NotificationSuffix: string := " starts in 15 minutes!"

  /** The day's list, or the empty list for a day without one. */
  function TasksOn(tasks: TaskMap, date: Day): seq<Task> {
    if date in tasks then tasks[date] else []
  }

  /** The instant a sound effect issued at `now` starts playing. */
  function SoundStart(e: Effect, now: Instant): Instant
    requires e.IsSound()
  {
    if e.PlaySoundAfter? then now + e.delay else now
  }

  /** The sound decision: wait for the alarm when it lies in the future,
      otherwise play at once. The sound is never dropped; it starts at the
      alarm instant or, when that has passed, right away. */
  function AlarmSound(alarm: Instant, now: Instant): (e: Effect)
    ensures e.IsSound()
    ensures e.PlaySoundAfter? <==> now < alarm
    ensures e.PlaySoundAfter? ==> e.delay > 0
    ensures SoundStart(e, now) == if alarm < now then now else alarm
  {
    var wait := alarm - now;
    if wait > 0 then PlaySoundAfter(wait) else PlaySoundNow
  }

  /** The `setTasks` updater: copy the map, create the day's list if it is
      missing, append the task and sort the list stably by time. Only the
      day's list changes; it gains exactly the new task and stays sorted. */
  function AddTask(tasks: TaskMap, date: Day, task: Task): (r: TaskMap)
    ensures r.Keys == tasks.Keys + {date}
    ensures forall d :: d in tasks && d != date ==> r[d] == tasks[d]
    ensures date !in tasks ==> r[date] == [task]
    ensures multiset(r[date]) == multiset(TasksOn(tasks, date)) + multiset{task}
    ensures SortedByTime(r[date])
  {
    var list := TasksOn(tasks, date) + [task];
    var sorted := SortByTime(list);
    UpdateFacts(tasks, date, sorted);
    SortSingle(task);
    tasks[date := sorted]
  }

  lemma UpdateFacts(m: TaskMap, k: Day, v: seq<Task>)
    ensures m[k := v].Keys == m.Keys + {k}
    ensures forall d :: d in m && d != k ==> m[k := v][d] == m[d]
    ensures m[k := v][k] == v
  {
  }

  /** The updater's sort is stable: for every time, the day's tasks of that
      time keep their order; the new task comes after those of its time. */
  lemma AddTaskIsStable(tasks: TaskMap, date: Day, task: Task, t: Instant)
    ensures WithTime(AddTask(tasks, date, task)[date], t)
      == WithTime(TasksOn(tasks, date), t) + (if task.time == t then [task] else [])
  {
    var prior := TasksOn(tasks, date);
    SortIsStable(prior + [task], t);
    WithTimeConcat(prior, [task], t);
    assert [task][1..] == [];
  }

  /** The day's list grows by exactly one. */
  lemma AddTaskGrowsByOne(tasks: TaskMap, date: Day, task: Task)
    ensures |AddTask(tasks, date, task)[date]| == |TasksOn(tasks, date)| + 1
  {
    var r := AddTask(tasks, date, task)[date];
    assert |r| == |multiset(r)|;
  }

  /** The effects of an accepted reminder for an event at `event`: one
      notification requested fifteen minutes before the event, with the
      title as typed in its text, then exactly one sound effect, due at the
      notification's instant or at once when that has passed. */
  function AlarmEffects(event: Instant, title: string, now: Instant): (effects: seq<Effect>)
    ensures |effects| == 2
    ensures effects[0].ScheduleNotification?
    ensures event - effects[0].trigger == 15 * 60 * 1000
    ensures effects[0].heading == "Upcoming Event"
    ensures effects[0].body == title + " starts in 15 minutes!"
    ensures var alarm := effects[0].trigger;
      && effects[1].IsSound()
      && (effects[1].PlaySoundAfter? <==> now < alarm)
      && (effects[1].PlaySoundAfter? ==> now + effects[1].delay == alarm)
      && SoundStart(effects[1], now) == (if alarm < now then now else alarm)
  {
    var alarm := event - LeadMs;
    [ScheduleNotification(alarm, NotificationHeading, title + NotificationSuffix),
     AlarmSound(alarm, now)]
  }

  /** `scheduleReminder(date, time, title)` at wall-clock instant `now`. A
      blank title is rejected: the task map stays as it was and nothing is
      scheduled. Otherwise the task is filed and the alarm effects are
      issued for the instant the code builds, which lies on day `date` in
      UTC at the UTC time of day of `time`, whatever the device's zone. */
  function ScheduleReminder(tasks: TaskMap, date: Day, time: Instant, title: string,
                            now: Instant): (r: Reaction)
    ensures AllWhitespace(title) <==> r.effects == []
    ensures AllWhitespace(title) ==> r.tasks == tasks
    ensures !AllWhitespace(title) ==>
      && r.effects == AlarmEffects(EventInstantAsWritten(date, time), title, now)
      && (r.effects[0].trigger + LeadMs) / MsPerDay == date
      && (r.effects[0].trigger + LeadMs) % MsPerDay == UtcTimeOfDay(time)
      && r.tasks == AddTask(tasks, date, Task(title, time))
  {
    if IsBlank(title) then
      Reaction(tasks, [])
    else
      var effects := AlarmEffects(EventInstantAsWritten(date, time), title, now);
      Reaction(AddTask(tasks, date, Task(title, time)), effects)
  }

  /** The step with the event instant corrected: on a device `zone` ahead of
      UTC the notification comes fifteen minutes before the local wall clock
      shows day `date` at the local time of day of `time`. */
  function ScheduleReminderIntended(tasks: TaskMap, date: Day, time: Instant, title: string,
                                    now: Instant, zone: UtcOffset): (r: Reaction)
    ensures AllWhitespace(title) <==> r.effects == []
    ensures AllWhitespace(title) ==> r.tasks == tasks
    ensures !AllWhitespace(title) ==>
      && r.effects == AlarmEffects(EventInstant(date, time, zone), title, now)
      && LocalClockShows(r.effects[0].trigger + LeadMs, zone, date, LocalTimeOfDay(time, zone))
      && r.tasks == AddTask(tasks, date, Task(title, time))
  {
    if IsBlank(title) then
      Reaction(tasks, [])
    else
      var effects := AlarmEffects(EventInstant(date, time, zone), title, now);
      LocalEventDay(date, time, zone, effects[0].trigger);
      Reaction(AddTask(tasks, date, Task(title, time)), effects)
  }

  lemma LocalEventDay(date: Day, time: Instant, zone: UtcOffset, alarm: Instant)
    requires EventInstant(date, time, zone) - alarm == 15 * 60 * 1000
    ensures LocalClockShows(alarm + LeadMs, zone, date, LocalTimeOfDay(time, zone))
  {
    assert alarm + LeadMs == EventInstant(date, time, zone);
  }

  /** The two steps file the same task; their effects agree exactly when
      the title is blank or the picked time falls on the same day in UTC as
      on the device's wall clock. */
  lemma IntendedAgreesIffSameDay(tasks: TaskMap, date: Day, time: Instant, title: string,
                                 now: Instant, zone: UtcOffset)
    ensures ScheduleReminderIntended(tasks, date, time, title, now, zone).tasks
         == ScheduleReminder(tasks, date, time, title, now).tasks
    ensures ScheduleReminderIntended(tasks, date, time, title, now, zone)
         == ScheduleReminder(tasks, date, time, title, now)
      <==> AllWhitespace(title) || time / MsPerDay == (time + zone) / MsPerDay
  {
    AsWrittenAgreesIffSameDay(date, time, zone);
  }

  /** Five hours behind UTC, a reminder for 20:00 on day 0 is notified a
      day before the corrected step notifies it. */
  lemma ScheduleReminderNotifiesADayEarly(tasks: TaskMap, now: Instant)
    ensures var zone, time := -5 * 3600000, 25 * 3600000;
      ScheduleReminder(tasks, 0, time, "Meeting", now).effects[0].trigger
        == ScheduleReminderIntended(tasks, 0, time, "Meeting", now, zone).effects[0].trigger - MsPerDay
  {
    assert !IsWhitespace("Meeting"[0]);
    AsWrittenIsADayEarlyWestOfUtc();
  }

  /** What a stored day's list promises: it is sorted by time and holds
      no blank title. */
  predicate WellFormedDay(list: seq<Task>) {
    && SortedByTime(list)
    && forall i :: 0 <= i < |list| ==> !AllWhitespace(list[i].title)
  }

  /** Every stored day's list is well formed. */
  predicate WellFormed(tasks: TaskMap) {
    forall d :: d in tasks ==> WellFormedDay(tasks[d])
  }

  /** An accepted reminder files exactly one new task, with the title as
      typed (not trimmed) and the picked time, under its day; the day's list
      is the prior list with that task added, sorted by time, the task after
      every earlier-filed task of equal time; no other day changes. */
  lemma ScheduleFilesTask(tasks: TaskMap, date: Day, time: Instant, title: string,
                          now: Instant)
    requires !AllWhitespace(title)
    ensures var r := ScheduleReminder(tasks, date, time, title, now);
      && r.tasks.Keys == tasks.Keys + {date}
      && (forall d :: d in tasks && d != date ==> r.tasks[d] == tasks[d])
      && |r.tasks[date]| == |TasksOn(tasks, date)| + 1
      && multiset(r.tasks[date]) == multiset(TasksOn(tasks, date)) + multiset{Task(title, time)}
      && SortedByTime(r.tasks[date])
      && WithTime(r.tasks[date], time) == WithTime(TasksOn(tasks, date), time) + [Task(title, time)]
  {
    AddTaskGrowsByOne(tasks, date, Task(title, time));
    AddTaskIsStable(tasks, date, Task(title, time), time);
  }

  /** On a well-formed map the new task is placed, not re-sorted into: the
      day's list is the prior list with the task inserted right after the
      tasks due no later than it. */
  lemma ScheduleInsertsInPlace(tasks: TaskMap, date: Day, time: Instant, title: string,
                               now: Instant)
    requires WellFormed(tasks) && !AllWhitespace(title)
    ensures var prior := TasksOn(tasks, date);
      var k := CountUpTo(prior, time);
      && ScheduleReminder(tasks, date, time, title, now).tasks[date]
         == prior[..k] + [Task(title, time)] + prior[k..]
      && (forall i :: 0 <= i < k ==> prior[i].time <= time)
      && (forall i :: k <= i < |prior| ==> time < prior[i].time)
  {
    var prior := TasksOn(tasks, date);
    var task := Task(title, time);
    SortAppend(prior, task);
    SortSortedIsIdentity(prior);
    InsertPosition(prior, task);
  }

  /** Filing a task with a non-blank title keeps the map well formed. */
  lemma AddTaskKeepsWellFormed(tasks: TaskMap, date: Day, task: Task)
    requires WellFormed(tasks) && !AllWhitespace(task.title)
    ensures WellFormed(AddTask(tasks, date, task))
  {
    var prior := TasksOn(tasks, date);
    var list := SortByTime(prior + [task]);
    assert WellFormedDay(prior);
    NoBlankTitleIsKept(prior, task, list);
    UpdateKeepsWellFormed(tasks, date, list);
  }

  lemma NoBlankTitleIsKept(prior: seq<Task>, task: Task, list: seq<Task>)
    requires forall i :: 0 <= i < |prior| ==> !AllWhitespace(prior[i].title)
    requires !AllWhitespace(task.title)
    requires multiset(list) == multiset(prior) + multiset{task}
    ensures forall i :: 0 <= i < |list| ==> !AllWhitespace(list[i].title)
  {
    forall i | 0 <= i < |list|
      ensures !AllWhitespace(list[i].title)
    {
      assert list[i] in multiset(prior) + multiset{task};
      if list[i] != task {
        var j :| 0 <= j < |prior| && prior[j] == list[i];
      }
    }
  }

  lemma UpdateKeepsWellFormed(m: TaskMap, k: Day, v: seq<Task>)
    requires WellFormed(m) && WellFormedDay(v)
    ensures WellFormed(m[k := v])
  {
  }

  /** Scheduling keeps every list sorted and every stored title non-blank. */
  lemma ScheduleKeepsWellFormed(tasks: TaskMap, date: Day, time: Instant, title: string,
                                now: Instant)
    requires WellFormed(tasks)
    ensures WellFormed(ScheduleReminder(tasks, date, time, title, now).tasks)
  {
    if !IsBlank(title) {
      AddTaskKeepsWellFormed(tasks, date, Task(title, time));
    }
  }

  /** Filing into a sorted day's list inserts the task in place. */
  lemma AddTaskToSorted(tasks: TaskMap, date: Day, task: Task)
    requires SortedByTime(TasksOn(tasks, date))
    ensures AddTask(tasks, date, task) == tasks[date := Insert(TasksOn(tasks, date), task)]
    ensures SortedByTime(Insert(TasksOn(tasks, date), task))
  {
    var prior := TasksOn(tasks, date);
    SortAppend(prior, task);
    SortSortedIsIdentity(prior);
    InsertKeepsSorted(prior, task);
  }

  lemma UpdateTwice(m: TaskMap, k: Day, v1: seq<Task>, v2: seq<Task>)
    ensures m[k := v1][k := v2] == m[k := v2]
    ensures TasksOn(m[k := v1], k) == v1
  {
  }

  /** Two tasks of different times filed under one day give the same list
      whichever is filed first. */
  lemma AddTaskCommutesOnOneDay(tasks: TaskMap, date: Day, a: Task, b: Task)
    requires SortedByTime(TasksOn(tasks, date)) && a.time != b.time
    ensures AddTask(AddTask(tasks, date, a), date, b) == AddTask(AddTask(tasks, date, b), date, a)
  {
    var prior := TasksOn(tasks, date);
    var pa, pb := Insert(prior, a), Insert(prior, b);
    AddTaskToSorted(tasks, date, a);
    AddTaskToSorted(tasks, date, b);
    UpdateTwice(tasks, date, pa, Insert(pa, b));
    UpdateTwice(tasks, date, pb, Insert(pb, a));
    AddTaskToSorted(tasks[date := pa], date, b);
    AddTaskToSorted(tasks[date := pb], date, a);
    InsertCommutes(prior, a, b);
  }

  /** Tasks filed under different days do not interact. */
  lemma AddTaskCommutesAcrossDays(tasks: TaskMap, date1: Day, a: Task, date2: Day, b: Task)
    requires date1 != date2
    ensures AddTask(AddTask(tasks, date1, a), date2, b) == AddTask(AddTask(tasks, date2, b), date1, a)
  {
    var x := SortByTime(TasksOn(tasks, date1) + [a]);
    var y := SortByTime(TasksOn(tasks, date2) + [b]);
    UpdatesCommute(tasks, date1, x, date2, y);
  }

  lemma UpdatesCommute(m: TaskMap, k1: Day, v1: seq<Task>, k2: Day, v2: seq<Task>)
    requires k1 != k2
    ensures m[k1 := v1][k2 := v2] == m[k2 := v2][k1 := v1]
    ensures TasksOn(m[k1 := v1], k2) == TasksOn(m, k2)
    ensures TasksOn(m[k2 := v2], k1) == TasksOn(m, k1)
  {
  }

  /** Two reminders for different days, or for different times of one day,
      leave the same task map whichever is set first. */
  lemma ScheduleOrderIndependent(tasks: TaskMap, now: Instant,
                                 date1: Day, time1: Instant, title1: string,
                                 date2: Day, time2: Instant, title2: string)
    requires WellFormed(tasks)
    requires date1 != date2 || time1 != time2
    ensures
      var first := ScheduleReminder(tasks, date1, time1, title1, now).tasks;
      var second := ScheduleReminder(tasks, date2, time2, title2, now).tasks;
      ScheduleReminder(first, date2, time2, title2, now).tasks
        == ScheduleReminder(second, date1, time1, title1, now).tasks
  {
    var a, b := Task(title1, time1), Task(title2, time2);
    if !IsBlank(title1) && !IsBlank(title2) {
      if date1 == date2 {
        AddTaskCommutesOnOneDay(tasks, date1, a, b);
      } else {
        AddTaskCommutesAcrossDays(tasks, date1, a, date2, b);
      }
    }
  }
}
