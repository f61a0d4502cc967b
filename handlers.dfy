/** The scheduling side of the bot's handlers, over an abstract state: the
    reminders table and the scheduler's job store. Each handler's block of
    database and scheduler calls is a function from the state before to the
    state after; the Bot class (engine.dfy) makes the same calls on the Store
    and JobScheduler objects and is proved to reach the same state. */
module Handlers {
  import opened Common
  import opened BotHelpers
  import opened ReminderStore
  import opened Scheduling
  import Recurrence

  /** The reminders table (rows and next SERIAL id) and the job store. */
  datatype World = World(rows: map<int, Reminder>, next: int, sched: Sched)

  predicate Consistent(w: World) {
    IdsBelow(w.rows, w.next) && Issued(w.sched)
  }

  /** The positional arguments the handlers pass to schedule_reminder:
      chat_id, message, reminder_time, reminder_id, topic_id. */
  function ReminderArgs(chatId: int, message: string, time: Arg, id: int, topicId: Option<int>): seq<Arg> {
    [Int(chatId), Text(message), time, Int(id), OptionArg(topicId)]
  }

  /** The ids the edit and delete handlers read back for a reminder. */
  function StoredIds(w: World, id: int): seq<string> {
    ReminderJobIds(w.rows, id)
  }

  /** Every job id stored on the row names a job the scheduler holds. */
  predicate InStep(w: World, id: int) {
    id in w.rows && forall i :: 0 <= i < |StoredIds(w, id)| ==> StoredIds(w, id)[i] in w.sched.jobs
  }

  // ---------------------------------------------------------------------
  // The steps the handlers are made of

  /** add_reminder: the new row under the next id; job_id starts NULL. */
  function Insert(w: World, row: Reminder): (World, int) {
    (w.(rows := w.rows[w.next := row], next := w.next + 1), w.next)
  }

  function NewRow(userId: int, chatId: int, message: string, time: Stamp, timezone: string,
                  isRecurring: bool, recurrenceType: Option<string>, dayOfWeek: Option<string>,
                  topicId: Option<int>, now: int): Reminder {
    Reminder(userId, chatId, topicId, message, time, timezone, false, isRecurring,
             recurrenceType, dayOfWeek, None, now, now)
  }

  /** update_reminder on the table. */
  function PatchRow(w: World, id: int, userId: int, p: Patch, now: int): (World, bool) {
    var (rows, ok) := Updated(w.rows, id, userId, p, now);
    (w.(rows := rows), ok)
  }

  /** remove_job for each id, a missing one skipped. */
  function Unschedule(w: World, ids: seq<string>): World {
    w.(sched := RemoveAll(w.sched, ids))
  }

  /** One add_job; when it succeeds its id is stored with update_reminder, and
      when it raises nothing more is written. */
  function ScheduleOne(w: World, id: int, userId: int, t: Trigger, args: seq<Arg>, now: int): World {
    var (s, job) := Add(w.sched, t, args);
    if job.Some? then w.(sched := s, rows := Updated(w.rows, id, userId, JobIdPatch(job.value), now).0)
    else w.(sched := s)
  }

  /** The fan-out loop, one cron job per day; when every add succeeds the
      comma-joined ids are stored, and when one raises the jobs added before it
      stay and nothing is written. */
  function ScheduleAll(w: World, id: int, userId: int, days: seq<string>, hour: int, minute: int,
                       timezone: string, args: seq<Arg>, now: int): World {
    var (s, ids) := FanOut(w.sched, days, hour, minute, timezone, args);
    if ids.Some? then w.(sched := s, rows := Updated(w.rows, id, userId, JobIdPatch(StoredJobIds(ids.value)), now).0)
    else w.(sched := s)
  }

  // ---------------------------------------------------------------------
  // Creation

  /** add_reminder followed by one add_job for the new row, whose callback gets
      the row's chat, text and topic, the given reminder_time and the new id. */
  function CreateScheduled(w: World, row: Reminder, t: Trigger, time: Arg, now: int): (World, int) {
    var (w1, id) := Insert(w, row);
    (ScheduleOne(w1, id, row.userId, t, ReminderArgs(row.chatId, row.message, time, id, row.topicId), now), id)
  }

  /** /remind every day at H:MM, and the wizard with all seven days selected. */
  function RemindDaily(w: World, userId: int, chatId: int, message: string, time: Stamp,
                       timezone: string, topicId: Option<int>, now: int): (World, int) {
    CreateScheduled(w, NewRow(userId, chatId, message, time, timezone, true, Some("daily"), None, topicId, now),
                    Cron(None, time.hour, time.minute, timezone), Null, now)
  }

  /** A weekly reminder on one day: the day_of_week name is stored on the row
      and handed to the cron trigger. */
  function RemindOnDay(w: World, userId: int, chatId: int, message: string, dayOfWeek: string,
                       time: Stamp, timezone: string, topicId: Option<int>, now: int): (World, int) {
    CreateScheduled(w, NewRow(userId, chatId, message, time, timezone, true, Some("weekly"), Some(dayOfWeek),
                              topicId, now),
                    Cron(Some(dayOfWeek), time.hour, time.minute, timezone), Null, now)
  }

  /** /remind every week on <day> at H:MM as written: the full lower-case
      weekday name is stored and handed to the cron trigger unchanged. */
  function RemindWeeklyDayAsWritten(w: World, userId: int, chatId: int, message: string, day: string,
                                    time: Stamp, timezone: string, topicId: Option<int>, now: int): (World, int) {
    RemindOnDay(w, userId, chatId, message, day, time, timezone, topicId, now)
  }

  /** The same with the weekday mapped to the scheduler's three-letter name, as
      the wizard does. */
  function RemindWeeklyDay(w: World, userId: int, chatId: int, message: string, day: string,
                           time: Stamp, timezone: string, topicId: Option<int>, now: int): (World, int) {
    RemindOnDay(w, userId, chatId, message, Abbrev(day), time, timezone, topicId, now)
  }

  /** A one-time reminder (the /remind command and the wizard's message step):
      an instant before now is answered with "the time is in the past" before
      anything is written (None); otherwise the row and one date job. */
  function RemindOnce(w: World, userId: int, chatId: int, message: string, time: Stamp,
                      timezone: string, topicId: Option<int>, now: int): Option<(World, int)> {
    if time.instant < now then None
    else Some(CreateScheduled(w, NewRow(userId, chatId, message, time, timezone, false, None, None, topicId, now),
                              Date(time.instant), Instant(time.instant), now))
  }

  /** The wizard with fewer than seven days: the days' three-letter names are
      stored comma-joined and one cron job is added per day. */
  function RemindWeekly(w: World, userId: int, chatId: int, message: string, selected: seq<string>,
                        time: Stamp, timezone: string, topicId: Option<int>, now: int): (World, int) {
    var abbrevs := Abbrevs(selected);
    var (w1, id) := Insert(w, NewRow(userId, chatId, message, time, timezone, true, Some("weekly"),
                                     Some(Join(abbrevs, ',')), topicId, now));
    (ScheduleAll(w1, id, userId, abbrevs, time.hour, time.minute, timezone,
                 ReminderArgs(chatId, message, Null, id, topicId), now), id)
  }

  /** The wizard's recurring step: seven days make a daily reminder. */
  function RemindRecurring(w: World, userId: int, chatId: int, message: string, selected: seq<string>,
                           time: Stamp, timezone: string, topicId: Option<int>, now: int): (World, int) {
    if |selected| == 7 then RemindDaily(w, userId, chatId, message, time, timezone, topicId, now)
    else RemindWeekly(w, userId, chatId, message, selected, time, timezone, topicId, now)
  }

  /** rest.split(t, 1)[1]: what follows the first occurrence of t; None where
      Python raises (t absent, or t empty). */
  function AfterFirst(s: string, t: string): (r: Option<string>)
    decreases |s|
    ensures r.Some? ==> |t| > 0 && |t| + |r.value| <= |s| && StartsWith(s[|s| - |r.value| - |t|..], t)
                        && r.value == s[|s| - |r.value|..]
    ensures r.Some? ==> forall j :: 0 <= j < |s| - |r.value| - |t| ==> !StartsWith(s[j..], t)
    ensures r.None? <==> |t| == 0 || forall j :: 0 <= j <= |s| ==> !StartsWith(s[j..], t)
  {
    if |t| == 0 then None
    else if StartsWith(s, t) then Some(s[|t|..])
    else if |s| == 0 then None
    else
      var r := AfterFirst(s[1..], t);
      assert forall j :: 1 <= j <= |s| ==> s[j..] == s[1..][j - 1..];
      assert s[0..] == s;
      assert r.Some? ==> s[1..][|s| - 1 - |r.value| - |t|..] == s[|s| - |r.value| - |t|..];
      r
  }

  /** hour, minute = map(int, t.split(':')); None where that raises. */
  function ClockFields(t: string): Option<(int, int)> {
    var parts := Split(t, ':');
    if |parts| == 2 && PyInt(parts[0]).Some? && PyInt(parts[1]).Some?
    then Some((PyInt(parts[0]).value, PyInt(parts[1]).value))
    else None
  }

  /** The recurring branch of /remind, with the weekly form corrected to hand
      the cron trigger the weekday's abbreviation (RemindWeeklyDay; the form
      as written is RemindWeeklyDayAsWritten): None where the text is no
      recurrence rule (the one-time branch takes it) or the handler raises
      before writing. */
  function RemindCommand(w: World, userId: int, chatId: int, rest: string, instant: int,
                         timezone: string, topicId: Option<int>, now: int): Option<(World, int)> {
    var rule := Recurrence.ParseRecurrence(rest);
    if rule.None? then None
    else
      var after := AfterFirst(rest, rule.value.time);
      var clock := ClockFields(rule.value.time);
      if after.None? || clock.None? then None
      else
        var message := Strip(after.value);
        var time := Stamp(instant, clock.value.0, clock.value.1);
        if rule.value.Daily? then Some(RemindDaily(w, userId, chatId, message, time, timezone, topicId, now))
        else Some(RemindWeeklyDay(w, userId, chatId, message, rule.value.day, time, timezone, topicId, now))
  }

  // ---------------------------------------------------------------------
  // Editing

  function MessagePatch(text: string): Patch { Patch(Some(text), None, None, None, None, None) }

  /** The jobs the message edit adds for the updated row r, carrying the new text. */
  function Reschedule(w: World, id: int, userId: int, r: Reminder, text: string, now: int): World {
    var t := r.remindTime;
    var args := ReminderArgs(r.chatId, text, Null, id, r.topicId);
    if r.isRecurring then
      if r.recurrenceType == Some("daily") then
        ScheduleOne(w, id, userId, Cron(None, t.hour, t.minute, r.timezone), args, now)
      else if r.recurrenceType == Some("weekly") then
        if NonEmpty(r.dayOfWeek) && ',' in r.dayOfWeek.value then
          ScheduleAll(w, id, userId, Split(r.dayOfWeek.value, ','), t.hour, t.minute, r.timezone, args, now)
        else ScheduleOne(w, id, userId, Cron(r.dayOfWeek, t.hour, t.minute, r.timezone), args, now)
      else w
    else
      ScheduleOne(w, id, userId, Date(t.instant),
                  ReminderArgs(r.chatId, text, Instant(t.instant), id, r.topicId), now)
  }

  /** Editing the message: the stored jobs are removed first (whether or not the
      update then succeeds), then the row is updated and its jobs re-added. */
  function EditMessage(w: World, userId: int, id: int, text: string, now: int): World {
    var w1 := Unschedule(w, StoredIds(w, id));
    var (w2, ok) := PatchRow(w1, id, userId, MessagePatch(text), now);
    if ok then Reschedule(w2, id, userId, w2.rows[id], text, now) else w2
  }

  /** Editing a recurring reminder's days and time; message is the text the
      edit started from and chatId/topicId those of the chat the edit is made in. */
  function EditRecurringTime(w: World, userId: int, id: int, selected: seq<string>, time: Stamp,
                             timezone: string, chatId: int, topicId: Option<int>, message: string,
                             now: int): World {
    var w1 := Unschedule(w, StoredIds(w, id));
    var args := ReminderArgs(chatId, message, Null, id, topicId);
    if |selected| == 7 then
      var (w2, ok) := PatchRow(w1, id, userId, Patch(None, Some(time), None, None, Some("daily"), None), now);
      if ok then ScheduleOne(w2, id, userId, Cron(None, time.hour, time.minute, timezone), args, now) else w2
    else
      var abbrevs := Abbrevs(selected);
      var (w2, ok) := PatchRow(w1, id, userId,
                               Patch(None, Some(time), None, None, Some("weekly"), Some(Join(abbrevs, ','))), now);
      if ok then ScheduleAll(w2, id, userId, abbrevs, time.hour, time.minute, timezone, args, now) else w2
  }

  /** Editing a one-time reminder's time as written: a time before now is
      refused before the row is touched; otherwise the date job gets four
      arguments, without the topic. */
  function EditOnceTimeAsWritten(w: World, userId: int, id: int, time: Stamp, chatId: int,
                                 message: string, now: int): World {
    if time.instant < now then w
    else
    var (w1, ok) := PatchRow(w, id, userId, Patch(None, Some(time), None, None, None, None), now);
    if !ok then w1
    else
      var w2 := Unschedule(w1, StoredIds(w1, id));
      ScheduleOne(w2, id, userId, Date(time.instant),
                  [Int(chatId), Text(message), Instant(time.instant), Int(id)], now)
  }

  /** The same with the reminder's own topic passed as the fifth argument. */
  function EditOnceTime(w: World, userId: int, id: int, time: Stamp, chatId: int,
                        message: string, now: int): World {
    if time.instant < now then w
    else
    var (w1, ok) := PatchRow(w, id, userId, Patch(None, Some(time), None, None, None, None), now);
    if !ok then w1
    else
      var w2 := Unschedule(w1, StoredIds(w1, id));
      ScheduleOne(w2, id, userId, Date(time.instant),
                  ReminderArgs(chatId, message, Instant(time.instant), id, w1.rows[id].topicId), now)
  }

  // ---------------------------------------------------------------------
  // Deletion

  /** The delete button: the ids are read, the owner-scoped row delete runs, and
      only when it removed the row are the jobs removed. */
  function DeleteButton(w: World, userId: int, id: int): (World, bool) {
    var ids := StoredIds(w, id);
    var (rows, ok) := Deleted(w.rows, id, userId);
    (if ok then w.(rows := rows, sched := RemoveAll(w.sched, ids)) else w, ok)
  }

  /** /delete <id>: the owner's reminder must also belong to the current chat. */
  function DeleteCommand(w: World, userId: int, chatId: int, id: int): (World, bool) {
    var r := ById(w.rows, id, userId);
    if r.None? || r.value.chatId != chatId then (w, false) else DeleteButton(w, userId, id)
  }

  /** The admin deletes (button and command): scoped by chat instead of owner. */
  function AdminDelete(w: World, chatId: int, id: int): (World, bool) {
    if ByIdAdmin(w.rows, id, chatId).None? then (w, false)
    else
      var ids := StoredIds(w, id);
      var (rows, ok) := AdminDeleted(w.rows, id, chatId);
      (if ok then w.(rows := rows, sched := RemoveAll(w.sched, ids)) else w, ok)
  }

  // ---------------------------------------------------------------------
  // Weekday names and the cron trigger

  /** The three-letter name of a full weekday is accepted by the cron trigger. */
  lemma AbbrevAccepted(day: string)
    requires day in AllDays
    ensures DayAccepted(Abbrev(day))
  {
    var k :| 0 <= k < 7 && day == AllDays[k];
    AbbrevFullNameInverse(k);
    var a := Abbreviations[k];
    assert Lower(a) == a by {
      assert forall i :: 0 <= i < |a| ==> 'a' <= a[i] <= 'z';
    }
  }

  /** A full weekday name is not a day_of_week value the cron trigger accepts. */
  lemma FullNameRejected(day: string)
    requires day in Recurrence.Weekdays
    ensures !DayAccepted(day)
  {
    assert |Lower(day)| >= 6;
    assert forall k :: 0 <= k < 7 ==> |Abbreviations[k]| == 3;
  }

  /** Selected weekdays map to day_of_week names the fan-out accepts. */
  lemma {:induction false} SelectionAccepted(selected: seq<string>, hour: int, minute: int, timezone: string,
                                             args: seq<Arg>)
    requires forall i :: 0 <= i < |selected| ==> selected[i] in AllDays
    requires 0 <= hour <= 23 && 0 <= minute <= 59 && Bind(args).Some?
    ensures AllDaysAccepted(Abbrevs(selected), hour, minute, timezone, args)
  {
    if |selected| > 0 {
      AbbrevAccepted(selected[0]);
      SelectionAccepted(selected[1..], hour, minute, timezone, args);
      assert Abbrevs(selected) == [Abbrev(selected[0])] + Abbrevs(selected[1..]);
    }
  }

  /** A weekday stored under its three-letter name is accepted by the cron
      trigger and reads back for an edit as that weekday. */
  lemma WeekdayReadsBack(day: string)
    requires day in AllDays
    ensures DayAccepted(Abbrev(day))
    ensures DaysForEdit(Some("weekly"), Some(Abbrev(day))) == Some([day])
  {
    AbbrevAccepted(day);
    DaysStringRoundTrip([day]);
    assert Abbrevs([day]) == [Abbrev(day)];
  }

  // ---------------------------------------------------------------------
  // Properties of the steps

  /** An accepted add_job stores the job under the next id and writes that id
      to the owner's row, which then reads back as exactly that one id. */
  lemma ScheduleOneAdds(w: World, id: int, userId: int, t: Trigger, args: seq<Arg>, now: int)
    requires Consistent(w) && id in w.rows && w.rows[id].userId == userId && Accepts(t, args)
    ensures var r := ScheduleOne(w, id, userId, t, args, now);
            var jid := JobIdAt(w.sched.counter);
            Consistent(r) && r.next == w.next && jid !in w.sched.jobs
            && r.sched == Sched(w.sched.jobs[jid := Job(t, args)], w.sched.counter + 1)
            && r.rows == w.rows[id := w.rows[id].(jobId := Some(jid), updatedAt := now)]
            && StoredIds(r, id) == [jid] && InStep(r, id)
  {
    FreshId(w.sched);
    AddIssued(w.sched, t, args);
    var jid := JobIdAt(w.sched.counter);
    SplitNoSeparator(jid, ',');
    UpdatedOwned(w.rows, id, userId, JobIdPatch(jid), now);
    JobIdStamped(w.rows[id], jid, now);
  }

  /** A rejected add_job changes nothing. */
  lemma ScheduleOneRejected(w: World, id: int, userId: int, t: Trigger, args: seq<Arg>, now: int)
    requires !Accepts(t, args)
    ensures ScheduleOne(w, id, userId, t, args, now) == w
  {
  }

  /** A fan-out over accepted days adds one job per day under fresh, distinct
      ids, keeps every other job, and writes the ids comma-joined to the
      owner's row, which reads back as exactly those ids. */
  lemma ScheduleAllAdds(w: World, id: int, userId: int, days: seq<string>, hour: int, minute: int,
                        timezone: string, args: seq<Arg>, now: int)
    requires Consistent(w) && id in w.rows && w.rows[id].userId == userId
    requires AllDaysAccepted(days, hour, minute, timezone, args)
    ensures var r := ScheduleAll(w, id, userId, days, hour, minute, timezone, args, now);
            Consistent(r) && r.next == w.next
            && r.rows == w.rows[id := w.rows[id].(jobId := Some(StoredJobIds(StoredIds(r, id))), updatedAt := now)]
            && InStep(r, id)
            && JobsAdded(w.sched, r.sched, StoredIds(r, id), days, hour, minute, timezone, args)
  {
    FanOutAccepted(w.sched, days, hour, minute, timezone, args);
    var (s, o) := FanOut(w.sched, days, hour, minute, timezone, args);
    var ids := o.value;
    JobIdsRoundTrip(ids);
    var p := JobIdPatch(StoredJobIds(ids));
    UpdatedOwned(w.rows, id, userId, p, now);
    JobIdStamped(w.rows[id], StoredJobIds(ids), now);
    var r := w.(sched := s, rows := w.rows[id := Patched(w.rows[id], p, now)]);
    assert ScheduleAll(w, id, userId, days, hour, minute, timezone, args, now) == r;
    assert StoredIds(r, id) == ids;
  }

  /** Recording a job id on a row changes only its job_id and updated_at. */
  lemma JobIdStamped(row: Reminder, jobId: string, now: int)
    ensures Patched(row, JobIdPatch(jobId), now) == row.(jobId := Some(jobId), updatedAt := now)
  {
  }

  // ---------------------------------------------------------------------
  // Properties of creation

  /** A created row whose trigger is accepted gets exactly one new job under a
      fresh id, and that id is the row's job_id; no other row and no other job
      changes. */
  lemma CreateScheduledAdds(w: World, row: Reminder, t: Trigger, time: Arg, now: int)
    requires Consistent(w) && TriggerAccepted(t)
    ensures var (r, id) := CreateScheduled(w, row, t, time, now);
            var jid := JobIdAt(w.sched.counter);
            Consistent(r) && id == w.next && id !in w.rows && r.next == w.next + 1
            && r.rows == w.rows[id := row.(jobId := Some(jid), updatedAt := now)]
            && jid !in w.sched.jobs
            && r.sched == Sched(w.sched.jobs[jid := Job(t, ReminderArgs(row.chatId, row.message, time, id, row.topicId))],
                                w.sched.counter + 1)
            && StoredIds(r, id) == [jid] && InStep(r, id)
  {
    var id := w.next;
    var jid := JobIdAt(w.sched.counter);
    var args := ReminderArgs(row.chatId, row.message, time, id, row.topicId);
    var w1 := w.(rows := w.rows[id := row], next := id + 1);
    FreshId(w.sched);
    AddIssued(w.sched, t, args);
    SplitNoSeparator(jid, ',');
    UpdatedOwned(w1.rows, id, row.userId, JobIdPatch(jid), now);
    JobIdStamped(row, jid, now);
    Overwrite(w.rows, id, row, row.(jobId := Some(jid), updatedAt := now));
  }

  /** A created row whose trigger add_job rejects keeps a NULL job_id, and the
      job store is unchanged. */
  lemma CreateScheduledRejected(w: World, row: Reminder, t: Trigger, time: Arg, now: int)
    requires !TriggerAccepted(t)
    ensures var (r, id) := CreateScheduled(w, row, t, time, now);
            id == w.next && r.next == w.next + 1 && r.rows == w.rows[id := row] && r.sched == w.sched
  {
  }

  /** A daily reminder gets a new row under the next id and, for an hour and
      minute in range, exactly one new cron job firing every day, whose id is
      the row's job_id; out of range, add_job raises and the row keeps a NULL
      job_id. No other row and no other job changes. */
  lemma RemindDailySchedules(w: World, userId: int, chatId: int, message: string, time: Stamp,
                             timezone: string, topicId: Option<int>, now: int)
    requires Consistent(w)
    ensures var (r, id) := RemindDaily(w, userId, chatId, message, time, timezone, topicId, now);
            var jid := JobIdAt(w.sched.counter);
            var row := NewRow(userId, chatId, message, time, timezone, true, Some("daily"), None, topicId, now);
            0 <= time.hour <= 23 && 0 <= time.minute <= 59 ==>
              Consistent(r) && id == w.next && id !in w.rows && r.next == w.next + 1
              && r.rows == w.rows[id := row.(jobId := Some(jid))]
              && jid !in w.sched.jobs
              && r.sched == Sched(w.sched.jobs[jid := Job(Cron(None, time.hour, time.minute, timezone),
                                                         ReminderArgs(chatId, message, Null, id, topicId))],
                                  w.sched.counter + 1)
              && StoredIds(r, id) == [jid] && InStep(r, id)
    ensures var (r, id) := RemindDaily(w, userId, chatId, message, time, timezone, topicId, now);
            var row := NewRow(userId, chatId, message, time, timezone, true, Some("daily"), None, topicId, now);
            !(0 <= time.hour <= 23 && 0 <= time.minute <= 59) ==>
              id == w.next && r.next == w.next + 1 && r.rows == w.rows[id := row] && r.sched == w.sched
  {
    var row := NewRow(userId, chatId, message, time, timezone, true, Some("daily"), None, topicId, now);
    var t := Cron(None, time.hour, time.minute, timezone);
    if TriggerAccepted(t) {
      CreateScheduledAdds(w, row, t, Null, now);
    } else {
      CreateScheduledRejected(w, row, t, Null, now);
    }
  }

  /** A one-time reminder is refused exactly when its instant is before now;
      otherwise it gets exactly one new date job at its instant, carrying its
      text, instant, id and topic, and the row's job_id names it. */
  lemma RemindOnceSchedules(w: World, userId: int, chatId: int, message: string, time: Stamp,
                            timezone: string, topicId: Option<int>, now: int)
    requires Consistent(w)
    ensures RemindOnce(w, userId, chatId, message, time, timezone, topicId, now).None? <==> time.instant < now
    ensures RemindOnce(w, userId, chatId, message, time, timezone, topicId, now).Some? ==>
            var (r, id) := RemindOnce(w, userId, chatId, message, time, timezone, topicId, now).value;
            var jid := JobIdAt(w.sched.counter);
            Consistent(r) && id == w.next && id !in w.rows && r.next == w.next + 1
            && r.rows == w.rows[id := NewRow(userId, chatId, message, time, timezone, false, None, None, topicId, now)
                                        .(jobId := Some(jid))]
            && jid !in w.sched.jobs
            && r.sched == Sched(w.sched.jobs[jid := Job(Date(time.instant),
                                  ReminderArgs(chatId, message, Instant(time.instant), id, topicId))],
                                w.sched.counter + 1)
            && StoredIds(r, id) == [jid] && InStep(r, id)
  {
    if time.instant >= now {
      CreateScheduledAdds(w, NewRow(userId, chatId, message, time, timezone, false, None, None, topicId, now),
                          Date(time.instant), Instant(time.instant), now);
    }
  }

  /** /remind's weekly form as written never schedules anything: the full
      weekday name it stores and hands to the cron trigger is rejected, so the
      row is left with a NULL job_id and the job store is unchanged. */
  lemma RemindWeeklyDayAsWrittenRejected(w: World, userId: int, chatId: int, message: string, day: string,
                                     time: Stamp, timezone: string, topicId: Option<int>, now: int)
    requires day in Recurrence.Weekdays
    ensures var (r, id) := RemindWeeklyDayAsWritten(w, userId, chatId, message, day, time, timezone, topicId, now);
            r.sched == w.sched && id in r.rows && r.rows[id].jobId.None? && r.rows[id].dayOfWeek == Some(day)
  {
    FullNameRejected(day);
  }

  // ---------------------------------------------------------------------
  // Properties of the /remind command

  /** Where t first occurs at k, rest.split(t, 1)[1] is what follows it. */
  lemma {:induction false} AfterFirstAt(s: string, t: string, k: nat)
    requires |t| > 0 && k + |t| <= |s| && s[k..k + |t|] == t
    requires forall j :: 0 <= j < k ==> !StartsWith(s[j..], t)
    ensures AfterFirst(s, t) == Some(s[k + |t|..])
  {
    if k == 0 {
      assert s[..|t|] == t;
    } else {
      assert !StartsWith(s[0..], t);
      assert s[0..] == s;
      forall j | 0 <= j < k - 1 ensures !StartsWith(s[1..][j..], t) {
        assert s[1..][j..] == s[j + 1..];
      }
      assert s[1..][k - 1..k - 1 + |t|] == t;
      AfterFirstAt(s[1..], t, k - 1);
      assert s[1..][k - 1 + |t|..] == s[k + |t|..];
    }
  }

  /** hour, minute = map(int, t.split(':')) on the H:MM or HH:MM text the rule
      matched reads the digits before and after the colon. */
  lemma ClockFieldsOfTime(t: string)
    requires Recurrence.IsTimeText(t)
    ensures ClockFields(t) == Some((StringToNat(t[..|t| - 3]), StringToNat(t[|t| - 2..])))
  {
    var hs, ms := t[..|t| - 3], t[|t| - 2..];
    assert t == hs + [':'] + ms;
    ClockFieldsOfDigits(hs, ms);
  }

  /** Digits, a colon and digits are read as the two numbers. */
  lemma ClockFieldsOfDigits(hs: string, ms: string)
    requires |hs| >= 1 && |ms| >= 1 && AllDigits(hs) && AllDigits(ms)
    ensures ClockFields(hs + [':'] + ms) == Some((StringToNat(hs), StringToNat(ms)))
  {
    SplitColon(hs, ms);
    PyIntDigits(hs);
    PyIntDigits(ms);
  }

  /** Splitting digits, a colon and digits at the colon. */
  lemma SplitColon(hs: string, ms: string)
    requires AllDigits(hs) && AllDigits(ms)
    ensures Split(hs + [':'] + ms, ':') == [hs, ms]
  {
    assert ':' !in hs && ':' !in ms;
    SplitAfterWord(hs, ms, ':');
    SplitNoSeparator(ms, ':');
  }

  /** "/remind every day at H:MM text": a daily reminder at the matched hour
      and minute whose message is the stripped text after the time. */
  lemma RemindCommandDaily(w: World, userId: int, chatId: int, rest: string, time: string, instant: int,
                           timezone: string, topicId: Option<int>, now: int)
    requires Recurrence.DailyMatch(rest, time)
    ensures RemindCommand(w, userId, chatId, rest, instant, timezone, topicId, now)
            == Some(RemindDaily(w, userId, chatId, Strip(rest[|Recurrence.DailyPrefix| + |time|..]),
                                Stamp(instant, StringToNat(time[..|time| - 3]), StringToNat(time[|time| - 2..])),
                                timezone, topicId, now))
  {
    Recurrence.ParseDailyIff(rest, time);
    DailyMessageAfterTime(rest, time);
    ClockFieldsOfTime(time);
  }

  /** The text the daily rule matched has no earlier occurrence of the time
      than the matched one: the prefix holds no digit. */
  lemma DailyMessageAfterTime(rest: string, time: string)
    requires Recurrence.DailyMatch(rest, time)
    ensures AfterFirst(rest, time) == Some(rest[|Recurrence.DailyPrefix| + |time|..])
  {
    var k := |Recurrence.DailyPrefix|;
    assert forall i :: 0 <= i < k ==> !IsDigit(Recurrence.DailyPrefix[i]);
    forall j | 0 <= j < k ensures !StartsWith(rest[j..], time) {
      assert LowerChar(rest[j]) == Recurrence.DailyPrefix[j] by {
        assert Lower(rest[..k])[j] == LowerChar(rest[..k][j]);
      }
      assert rest[j..][0] == rest[j];
    }
    assert rest[k..][..|time|] == time;
    assert rest[k..k + |time|] == time;
    AfterFirstAt(rest, time, k);
  }

  /** A weekly reminder on an accepted day_of_week name adds one row under the
      next id storing that name, and exactly one new cron job, on that day,
      under a fresh id that is the row's job_id; no other row and no other job
      changes. */
  lemma OnDaySchedules(w: World, userId: int, chatId: int, message: string, dayOfWeek: string,
                       time: Stamp, timezone: string, topicId: Option<int>, now: int)
    requires Consistent(w) && DayAccepted(dayOfWeek)
    requires 0 <= time.hour <= 23 && 0 <= time.minute <= 59
    ensures var (r, id) := RemindOnDay(w, userId, chatId, message, dayOfWeek, time, timezone, topicId, now);
            var jid := JobIdAt(w.sched.counter);
            Consistent(r) && id == w.next && id !in w.rows && r.next == w.next + 1
            && r.rows == w.rows[id := NewRow(userId, chatId, message, time, timezone, true, Some("weekly"),
                                             Some(dayOfWeek), topicId, now).(jobId := Some(jid))]
            && jid !in w.sched.jobs
            && r.sched == Sched(w.sched.jobs[jid := Job(Cron(Some(dayOfWeek), time.hour, time.minute, timezone),
                                  ReminderArgs(chatId, message, Null, id, topicId))],
                                w.sched.counter + 1)
            && StoredIds(r, id) == [jid] && InStep(r, id)
  {
    CreateScheduledAdds(w, NewRow(userId, chatId, message, time, timezone, true, Some("weekly"),
                                  Some(dayOfWeek), topicId, now),
                        Cron(Some(dayOfWeek), time.hour, time.minute, timezone), Null, now);
  }

  /** The wizard's weekly reminder adds one row under the next id, storing the
      days' three-letter names comma-joined in selection order and the ids of
      its jobs comma-joined as its job_id; no other row changes. */
  lemma RemindWeeklyRows(w: World, userId: int, chatId: int, message: string, selected: seq<string>,
                         time: Stamp, timezone: string, topicId: Option<int>, now: int)
    requires Consistent(w)
    requires forall d :: d in selected ==> d in AllDays
    requires 0 <= time.hour <= 23 && 0 <= time.minute <= 59
    ensures var (r, id) := RemindWeekly(w, userId, chatId, message, selected, time, timezone, topicId, now);
            Consistent(r) && id == w.next && id !in w.rows && r.next == w.next + 1
            && r.rows == w.rows[id := NewRow(userId, chatId, message, time, timezone, true, Some("weekly"),
                                             Some(DaysString(selected)), topicId, now)
                                        .(jobId := Some(StoredJobIds(StoredIds(r, id))))]
  {
    var abbrevs := Abbrevs(selected);
    var id := w.next;
    var args := ReminderArgs(chatId, message, Null, id, topicId);
    var row := NewRow(userId, chatId, message, time, timezone, true, Some("weekly"),
                      Some(DaysString(selected)), topicId, now);
    var w1 := w.(rows := w.rows[id := row], next := id + 1);
    SelectionAccepted(selected, time.hour, time.minute, timezone, args);
    ScheduleAllAdds(w1, id, userId, abbrevs, time.hour, time.minute, timezone, args, now);
    var r := ScheduleAll(w1, id, userId, abbrevs, time.hour, time.minute, timezone, args, now);
    var stored := StoredJobIds(StoredIds(r, id));
    Overwrite(w.rows, id, row, row.(jobId := Some(stored), updatedAt := now));
    assert RemindWeekly(w, userId, chatId, message, selected, time, timezone, topicId, now) == (r, id);
  }

  /** For k selected weekdays and a time in range, the weekly reminder gets
      exactly k new cron jobs, the i-th on the i-th selected day, and reading
      the row's job_id back gives those k distinct ids, all live. */
  lemma RemindWeeklyJobs(w: World, userId: int, chatId: int, message: string, selected: seq<string>,
                         time: Stamp, timezone: string, topicId: Option<int>, now: int)
    requires Consistent(w)
    requires forall d :: d in selected ==> d in AllDays
    requires 0 <= time.hour <= 23 && 0 <= time.minute <= 59
    ensures var (r, id) := RemindWeekly(w, userId, chatId, message, selected, time, timezone, topicId, now);
            InStep(r, id)
            && JobsAdded(w.sched, r.sched, StoredIds(r, id), Abbrevs(selected), time.hour, time.minute,
                         timezone, ReminderArgs(chatId, message, Null, id, topicId))
  {
    var abbrevs := Abbrevs(selected);
    var id := w.next;
    var args := ReminderArgs(chatId, message, Null, id, topicId);
    var row := NewRow(userId, chatId, message, time, timezone, true, Some("weekly"),
                      Some(DaysString(selected)), topicId, now);
    var w1 := w.(rows := w.rows[id := row], next := id + 1);
    SelectionAccepted(selected, time.hour, time.minute, timezone, args);
    ScheduleAllAdds(w1, id, userId, abbrevs, time.hour, time.minute, timezone, args, now);
    var r := ScheduleAll(w1, id, userId, abbrevs, time.hour, time.minute, timezone, args, now);
    assert RemindWeekly(w, userId, chatId, message, selected, time, timezone, topicId, now) == (r, id);
  }

  // ---------------------------------------------------------------------
  // Properties of editing

  /** On the owner's row the message edit removes the stored jobs, writes the
      new text, and re-adds jobs from the updated row. */
  lemma EditMessageOwned(w: World, userId: int, id: int, text: string, now: int)
    requires Consistent(w) && id in w.rows && w.rows[id].userId == userId
    ensures var m := World(w.rows[id := w.rows[id].(message := text, updatedAt := now)], w.next,
                           RemoveAll(w.sched, StoredIds(w, id)));
            Consistent(m) && EditMessage(w, userId, id, text, now) == Reschedule(m, id, userId, m.rows[id], text, now)
  {
    RemoveAllIssued(w.sched, StoredIds(w, id));
    UpdatedOwned(w.rows, id, userId, MessagePatch(text), now);
  }

  /** Editing a daily reminder's message replaces its jobs by one cron job at
      the stored hour and minute carrying the new text; the row gets the new
      text and the new job's id, and nothing else changes. */
  lemma EditMessageDaily(w: World, userId: int, id: int, text: string, now: int)
    requires Consistent(w) && id in w.rows && w.rows[id].userId == userId
    requires w.rows[id].isRecurring && w.rows[id].recurrenceType == Some("daily")
    requires 0 <= w.rows[id].remindTime.hour <= 23 && 0 <= w.rows[id].remindTime.minute <= 59
    ensures var r := EditMessage(w, userId, id, text, now);
            var row := w.rows[id];
            var s := RemoveAll(w.sched, StoredIds(w, id));
            var jid := JobIdAt(w.sched.counter);
            Consistent(r) && r.next == w.next && jid !in w.sched.jobs
            && r.rows == w.rows[id := row.(message := text, jobId := Some(jid), updatedAt := now)]
            && r.sched == Sched(s.jobs[jid := Job(Cron(None, row.remindTime.hour, row.remindTime.minute, row.timezone),
                                                  ReminderArgs(row.chatId, text, Null, id, row.topicId))],
                                s.counter + 1)
            && StoredIds(r, id) == [jid] && InStep(r, id)
  {
    var row := w.rows[id];
    var jid := JobIdAt(w.sched.counter);
    var edited := row.(message := text, updatedAt := now);
    var m := World(w.rows[id := edited], w.next, RemoveAll(w.sched, StoredIds(w, id)));
    EditMessageOwned(w, userId, id, text, now);
    FreshId(w.sched);
    ScheduleOneAdds(m, id, userId, Cron(None, row.remindTime.hour, row.remindTime.minute, row.timezone),
                    ReminderArgs(row.chatId, text, Null, id, row.topicId), now);
    Overwrite(w.rows, id, edited, edited.(jobId := Some(jid), updatedAt := now));
  }

  /** Editing the message of a weekly reminder on a single day (no comma in
      day_of_week) replaces its jobs by one cron job on that day, carrying the
      new text. */
  lemma EditMessageWeeklyOne(w: World, userId: int, id: int, text: string, now: int)
    requires Consistent(w) && id in w.rows && w.rows[id].userId == userId
    requires w.rows[id].isRecurring && w.rows[id].recurrenceType == Some("weekly")
    requires !(NonEmpty(w.rows[id].dayOfWeek) && ',' in w.rows[id].dayOfWeek.value)
    requires w.rows[id].dayOfWeek.Some? ==> DayAccepted(w.rows[id].dayOfWeek.value)
    requires 0 <= w.rows[id].remindTime.hour <= 23 && 0 <= w.rows[id].remindTime.minute <= 59
    ensures var r := EditMessage(w, userId, id, text, now);
            var row := w.rows[id];
            var s := RemoveAll(w.sched, StoredIds(w, id));
            var jid := JobIdAt(w.sched.counter);
            Consistent(r) && r.next == w.next && jid !in w.sched.jobs
            && r.rows == w.rows[id := row.(message := text, jobId := Some(jid), updatedAt := now)]
            && r.sched == Sched(s.jobs[jid := Job(Cron(row.dayOfWeek, row.remindTime.hour, row.remindTime.minute,
                                                       row.timezone),
                                                  ReminderArgs(row.chatId, text, Null, id, row.topicId))],
                                s.counter + 1)
            && StoredIds(r, id) == [jid] && InStep(r, id)
  {
    var row := w.rows[id];
    var jid := JobIdAt(w.sched.counter);
    var edited := row.(message := text, updatedAt := now);
    var m := World(w.rows[id := edited], w.next, RemoveAll(w.sched, StoredIds(w, id)));
    EditMessageOwned(w, userId, id, text, now);
    FreshId(w.sched);
    ScheduleOneAdds(m, id, userId, Cron(row.dayOfWeek, row.remindTime.hour, row.remindTime.minute, row.timezone),
                    ReminderArgs(row.chatId, text, Null, id, row.topicId), now);
    Overwrite(w.rows, id, edited, edited.(jobId := Some(jid), updatedAt := now));
  }

  /** The message edit of a weekly reminder on several days is the fan-out
      over its re-split day_of_week, from the edited row with its jobs removed. */
  lemma EditMessageFansOut(w: World, userId: int, id: int, text: string, now: int)
    requires Consistent(w) && id in w.rows && w.rows[id].userId == userId
    requires w.rows[id].isRecurring && w.rows[id].recurrenceType == Some("weekly")
    requires NonEmpty(w.rows[id].dayOfWeek) && ',' in w.rows[id].dayOfWeek.value
    ensures var row := w.rows[id];
            var m := World(w.rows[id := row.(message := text, updatedAt := now)], w.next,
                           RemoveAll(w.sched, StoredIds(w, id)));
            Consistent(m)
            && EditMessage(w, userId, id, text, now)
               == ScheduleAll(m, id, userId, Split(row.dayOfWeek.value, ','), row.remindTime.hour,
                              row.remindTime.minute, row.timezone, ReminderArgs(row.chatId, text, Null, id, row.topicId),
                              now)
  {
    EditMessageOwned(w, userId, id, text, now);
  }

  /** Editing the message of a weekly reminder on several days, when every
      re-split day is accepted, gives the row the new text and the comma-joined
      ids of its new jobs; no other row changes. */
  lemma EditMessageWeeklyManyRows(w: World, userId: int, id: int, text: string, now: int)
    requires Consistent(w) && id in w.rows && w.rows[id].userId == userId
    requires w.rows[id].isRecurring && w.rows[id].recurrenceType == Some("weekly")
    requires NonEmpty(w.rows[id].dayOfWeek) && ',' in w.rows[id].dayOfWeek.value
    requires var row := w.rows[id];
             AllDaysAccepted(Split(row.dayOfWeek.value, ','), row.remindTime.hour, row.remindTime.minute,
                             row.timezone, ReminderArgs(row.chatId, text, Null, id, row.topicId))
    ensures var r := EditMessage(w, userId, id, text, now);
            var row := w.rows[id];
            Consistent(r) && r.next == w.next
            && r.rows == w.rows[id := row.(message := text, jobId := Some(StoredJobIds(StoredIds(r, id))),
                                           updatedAt := now)]
  {
    var row := w.rows[id];
    var edited := row.(message := text, updatedAt := now);
    var m := World(w.rows[id := edited], w.next, RemoveAll(w.sched, StoredIds(w, id)));
    var args := ReminderArgs(row.chatId, text, Null, id, row.topicId);
    var days := Split(row.dayOfWeek.value, ',');
    EditMessageFansOut(w, userId, id, text, now);
    ScheduleAllAdds(m, id, userId, days, row.remindTime.hour, row.remindTime.minute, row.timezone, args, now);
    var r := ScheduleAll(m, id, userId, days, row.remindTime.hour, row.remindTime.minute, row.timezone, args, now);
    Overwrite(w.rows, id, edited, edited.(jobId := Some(StoredJobIds(StoredIds(r, id))), updatedAt := now));
  }

  /** For the same edit, after the old jobs are removed one cron job is added
      per re-split day, carrying the new text, and the row's job_id reads back
      as their ids, all live. */
  lemma EditMessageWeeklyManyJobs(w: World, userId: int, id: int, text: string, now: int)
    requires Consistent(w) && id in w.rows && w.rows[id].userId == userId
    requires w.rows[id].isRecurring && w.rows[id].recurrenceType == Some("weekly")
    requires NonEmpty(w.rows[id].dayOfWeek) && ',' in w.rows[id].dayOfWeek.value
    requires var row := w.rows[id];
             AllDaysAccepted(Split(row.dayOfWeek.value, ','), row.remindTime.hour, row.remindTime.minute,
                             row.timezone, ReminderArgs(row.chatId, text, Null, id, row.topicId))
    ensures var r := EditMessage(w, userId, id, text, now);
            var row := w.rows[id];
            InStep(r, id)
            && JobsAdded(RemoveAll(w.sched, StoredIds(w, id)), r.sched, StoredIds(r, id),
                         Split(row.dayOfWeek.value, ','), row.remindTime.hour, row.remindTime.minute,
                         row.timezone, ReminderArgs(row.chatId, text, Null, id, row.topicId))
  {
    var row := w.rows[id];
    var m := World(w.rows[id := row.(message := text, updatedAt := now)], w.next, RemoveAll(w.sched, StoredIds(w, id)));
    EditMessageFansOut(w, userId, id, text, now);
    ScheduleAllAdds(m, id, userId, Split(row.dayOfWeek.value, ','), row.remindTime.hour, row.remindTime.minute,
                    row.timezone, ReminderArgs(row.chatId, text, Null, id, row.topicId), now);
  }

  /** Editing a one-time reminder's message replaces its jobs by one date job at
      the stored instant carrying the new text and the row's topic. */
  lemma EditMessageOnce(w: World, userId: int, id: int, text: string, now: int)
    requires Consistent(w) && id in w.rows && w.rows[id].userId == userId && !w.rows[id].isRecurring
    ensures var r := EditMessage(w, userId, id, text, now);
            var row := w.rows[id];
            var s := RemoveAll(w.sched, StoredIds(w, id));
            var jid := JobIdAt(w.sched.counter);
            Consistent(r) && r.next == w.next && jid !in w.sched.jobs
            && r.rows == w.rows[id := row.(message := text, jobId := Some(jid), updatedAt := now)]
            && r.sched == Sched(s.jobs[jid := Job(Date(row.remindTime.instant),
                                                  ReminderArgs(row.chatId, text, Instant(row.remindTime.instant),
                                                               id, row.topicId))],
                                s.counter + 1)
            && StoredIds(r, id) == [jid] && InStep(r, id)
  {
    var row := w.rows[id];
    var jid := JobIdAt(w.sched.counter);
    var edited := row.(message := text, updatedAt := now);
    var m := World(w.rows[id := edited], w.next, RemoveAll(w.sched, StoredIds(w, id)));
    EditMessageOwned(w, userId, id, text, now);
    FreshId(w.sched);
    ScheduleOneAdds(m, id, userId, Date(row.remindTime.instant),
                    ReminderArgs(row.chatId, text, Instant(row.remindTime.instant), id, row.topicId), now);
    Overwrite(w.rows, id, edited, edited.(jobId := Some(jid), updatedAt := now));
  }

  /** A weekly day string the wizard stored for two or more days is re-split
      by the message edit into exactly the days' three-letter names. */
  lemma WizardDaysResplit(selected: seq<string>)
    requires forall i :: 0 <= i < |selected| ==> selected[i] in AllDays
    requires |selected| >= 2
    ensures NonEmpty(Some(DaysString(selected))) && ',' in DaysString(selected)
    ensures Split(DaysString(selected), ',') == Abbrevs(selected)
  {
    AbbrevsNoComma(selected);
    SplitJoin(Abbrevs(selected), ',');
    JoinHasSeparator(Abbrevs(selected), ',');
  }

  /** An edit by someone other than the owner writes nothing to the row; the
      message and recurring-time edits have already removed the row's stored
      jobs by then, and the one-time time edit leaves everything unchanged. */
  lemma EditByOtherUser(w: World, userId: int, id: int, text: string, selected: seq<string>, time: Stamp,
                        timezone: string, chatId: int, topicId: Option<int>, now: int)
    requires id in w.rows && w.rows[id].userId != userId
    ensures EditMessage(w, userId, id, text, now) == w.(sched := RemoveAll(w.sched, StoredIds(w, id)))
    ensures EditRecurringTime(w, userId, id, selected, time, timezone, chatId, topicId, text, now)
            == w.(sched := RemoveAll(w.sched, StoredIds(w, id)))
    ensures EditOnceTime(w, userId, id, time, chatId, text, now) == w
    ensures EditOnceTimeAsWritten(w, userId, id, time, chatId, text, now) == w
  {
  }

  /** On the owner's row, choosing all seven days turns the reminder daily:
      the stored jobs are removed, the time and recurrence type written, and
      one cron job added. */
  lemma EditRecurringDailyOwned(w: World, userId: int, id: int, selected: seq<string>, time: Stamp,
                                timezone: string, chatId: int, topicId: Option<int>, message: string, now: int)
    requires Consistent(w) && id in w.rows && w.rows[id].userId == userId && |selected| == 7
    ensures var m := World(w.rows[id := w.rows[id].(remindTime := time, recurrenceType := Some("daily"),
                                                    updatedAt := now)],
                           w.next, RemoveAll(w.sched, StoredIds(w, id)));
            Consistent(m)
            && EditRecurringTime(w, userId, id, selected, time, timezone, chatId, topicId, message, now)
               == ScheduleOne(m, id, userId, Cron(None, time.hour, time.minute, timezone),
                              ReminderArgs(chatId, message, Null, id, topicId), now)
  {
    RemoveAllIssued(w.sched, StoredIds(w, id));
    UpdatedOwned(w.rows, id, userId, Patch(None, Some(time), None, None, Some("daily"), None), now);
  }

  /** Editing the days and time to all seven days makes the reminder daily at
      the new time with one cron job; day_of_week is passed as None, which
      update_reminder reads as "leave alone", so the old day string stays. */
  lemma EditRecurringTimeDaily(w: World, userId: int, id: int, selected: seq<string>, time: Stamp,
                               timezone: string, chatId: int, topicId: Option<int>, message: string, now: int)
    requires Consistent(w) && id in w.rows && w.rows[id].userId == userId && |selected| == 7
    requires 0 <= time.hour <= 23 && 0 <= time.minute <= 59
    ensures var r := EditRecurringTime(w, userId, id, selected, time, timezone, chatId, topicId, message, now);
            var row := w.rows[id];
            var s := RemoveAll(w.sched, StoredIds(w, id));
            var jid := JobIdAt(w.sched.counter);
            Consistent(r) && r.next == w.next && jid !in w.sched.jobs
            && r.rows == w.rows[id := row.(remindTime := time, recurrenceType := Some("daily"),
                                           jobId := Some(jid), updatedAt := now)]
            && r.rows[id].dayOfWeek == row.dayOfWeek
            && r.sched == Sched(s.jobs[jid := Job(Cron(None, time.hour, time.minute, timezone),
                                                  ReminderArgs(chatId, message, Null, id, topicId))],
                                s.counter + 1)
            && StoredIds(r, id) == [jid] && InStep(r, id)
  {
    var row := w.rows[id];
    var jid := JobIdAt(w.sched.counter);
    var edited := row.(remindTime := time, recurrenceType := Some("daily"), updatedAt := now);
    var m := World(w.rows[id := edited], w.next, RemoveAll(w.sched, StoredIds(w, id)));
    EditRecurringDailyOwned(w, userId, id, selected, time, timezone, chatId, topicId, message, now);
    FreshId(w.sched);
    ScheduleOneAdds(m, id, userId, Cron(None, time.hour, time.minute, timezone),
                    ReminderArgs(chatId, message, Null, id, topicId), now);
    Overwrite(w.rows, id, edited, edited.(jobId := Some(jid), updatedAt := now));
  }

  /** On the owner's row, choosing fewer than seven days makes the reminder
      weekly: the stored jobs are removed, the time, type and comma-joined
      three-letter day names written, and the fan-out run over those names. */
  lemma EditRecurringWeeklyOwned(w: World, userId: int, id: int, selected: seq<string>, time: Stamp,
                                 timezone: string, chatId: int, topicId: Option<int>, message: string, now: int)
    requires Consistent(w) && id in w.rows && w.rows[id].userId == userId && |selected| != 7
    ensures var m := World(w.rows[id := w.rows[id].(remindTime := time, recurrenceType := Some("weekly"),
                                                    dayOfWeek := Some(DaysString(selected)), updatedAt := now)],
                           w.next, RemoveAll(w.sched, StoredIds(w, id)));
            Consistent(m)
            && EditRecurringTime(w, userId, id, selected, time, timezone, chatId, topicId, message, now)
               == ScheduleAll(m, id, userId, Abbrevs(selected), time.hour, time.minute, timezone,
                              ReminderArgs(chatId, message, Null, id, topicId), now)
  {
    RemoveAllIssued(w.sched, StoredIds(w, id));
    UpdatedOwned(w.rows, id, userId,
                 Patch(None, Some(time), None, None, Some("weekly"), Some(DaysString(selected))), now);
  }

  /** Editing the days and time to fewer than seven weekdays stores their
      three-letter names comma-joined and the ids of the new jobs; no other
      row changes. */
  lemma EditRecurringTimeWeeklyRows(w: World, userId: int, id: int, selected: seq<string>, time: Stamp,
                                    timezone: string, chatId: int, topicId: Option<int>, message: string,
                                    now: int)
    requires Consistent(w) && id in w.rows && w.rows[id].userId == userId && |selected| != 7
    requires forall i :: 0 <= i < |selected| ==> selected[i] in AllDays
    requires 0 <= time.hour <= 23 && 0 <= time.minute <= 59
    ensures var r := EditRecurringTime(w, userId, id, selected, time, timezone, chatId, topicId, message, now);
            var row := w.rows[id];
            Consistent(r) && r.next == w.next
            && r.rows == w.rows[id := row.(remindTime := time, recurrenceType := Some("weekly"),
                                           dayOfWeek := Some(DaysString(selected)),
                                           jobId := Some(StoredJobIds(StoredIds(r, id))), updatedAt := now)]
  {
    var row := w.rows[id];
    var edited := row.(remindTime := time, recurrenceType := Some("weekly"),
                       dayOfWeek := Some(DaysString(selected)), updatedAt := now);
    var m := World(w.rows[id := edited], w.next, RemoveAll(w.sched, StoredIds(w, id)));
    var args := ReminderArgs(chatId, message, Null, id, topicId);
    SelectionAccepted(selected, time.hour, time.minute, timezone, args);
    EditRecurringWeeklyOwned(w, userId, id, selected, time, timezone, chatId, topicId, message, now);
    ScheduleAllAdds(m, id, userId, Abbrevs(selected), time.hour, time.minute, timezone, args, now);
    var r := ScheduleAll(m, id, userId, Abbrevs(selected), time.hour, time.minute, timezone, args, now);
    Overwrite(w.rows, id, edited, edited.(jobId := Some(StoredJobIds(StoredIds(r, id))), updatedAt := now));
  }

  /** On the owner's row the one-time time edit refuses a time before now and
      changes nothing; otherwise it writes the new time (job_id is untouched,
      so the same ids are read back), removes the stored jobs and adds one
      date job. */
  lemma EditOnceOwned(w: World, userId: int, id: int, time: Stamp, chatId: int, message: string, now: int)
    requires Consistent(w) && id in w.rows && w.rows[id].userId == userId
    ensures var row := w.rows[id];
            var m := World(w.rows[id := row.(remindTime := time, updatedAt := now)], w.next,
                           RemoveAll(w.sched, StoredIds(w, id)));
            Consistent(m)
            && (time.instant < now ==>
                  EditOnceTime(w, userId, id, time, chatId, message, now) == w
                  && EditOnceTimeAsWritten(w, userId, id, time, chatId, message, now) == w)
            && (time.instant >= now ==>
                  EditOnceTime(w, userId, id, time, chatId, message, now)
                  == ScheduleOne(m, id, userId, Date(time.instant),
                                 ReminderArgs(chatId, message, Instant(time.instant), id, row.topicId), now)
                  && EditOnceTimeAsWritten(w, userId, id, time, chatId, message, now)
                  == ScheduleOne(m, id, userId, Date(time.instant),
                                 [Int(chatId), Text(message), Instant(time.instant), Int(id)], now))
  {
    RemoveAllIssued(w.sched, StoredIds(w, id));
    UpdatedOwned(w.rows, id, userId, Patch(None, Some(time), None, None, None, None), now);
  }

  /** Editing a one-time reminder's time to a time before now changes nothing.
      Otherwise its jobs are replaced by one date job at the new instant,
      delivered to the reminder's own topic; the row gets the new time and the
      new job's id, and nothing else changes. */
  lemma EditOnceTimeSchedules(w: World, userId: int, id: int, time: Stamp, chatId: int, message: string,
                              now: int)
    requires Consistent(w) && id in w.rows && w.rows[id].userId == userId
    ensures time.instant < now ==> EditOnceTime(w, userId, id, time, chatId, message, now) == w
    ensures time.instant >= now ==>
            var r := EditOnceTime(w, userId, id, time, chatId, message, now);
            var row := w.rows[id];
            var s := RemoveAll(w.sched, StoredIds(w, id));
            var jid := JobIdAt(w.sched.counter);
            var args := ReminderArgs(chatId, message, Instant(time.instant), id, row.topicId);
            Consistent(r) && r.next == w.next && jid !in w.sched.jobs
            && r.rows == w.rows[id := row.(remindTime := time, jobId := Some(jid), updatedAt := now)]
            && r.sched == Sched(s.jobs[jid := Job(Date(time.instant), args)], s.counter + 1)
            && Bind(args).Some? && Bind(args).value.topicId == OptionArg(row.topicId)
            && StoredIds(r, id) == [jid] && InStep(r, id)
  {
    var row := w.rows[id];
    var jid := JobIdAt(w.sched.counter);
    var edited := row.(remindTime := time, updatedAt := now);
    var m := World(w.rows[id := edited], w.next, RemoveAll(w.sched, StoredIds(w, id)));
    EditOnceOwned(w, userId, id, time, chatId, message, now);
    if time.instant >= now {
      FreshId(w.sched);
      ScheduleOneAdds(m, id, userId, Date(time.instant),
                      ReminderArgs(chatId, message, Instant(time.instant), id, row.topicId), now);
      Overwrite(w.rows, id, edited, edited.(jobId := Some(jid), updatedAt := now));
    }
  }

  /** As written, the rescheduled date job gets four arguments, so the callback
      runs with topic_id None and a reminder made in a forum topic is delivered
      outside it from then on. A time before now is refused and changes
      nothing. */
  lemma EditOnceTimeAsWrittenDropsTopic(w: World, userId: int, id: int, time: Stamp, chatId: int,
                                        message: string, now: int)
    requires Consistent(w) && id in w.rows && w.rows[id].userId == userId
    ensures time.instant < now ==> EditOnceTimeAsWritten(w, userId, id, time, chatId, message, now) == w
    ensures time.instant >= now ==>
            var r := EditOnceTimeAsWritten(w, userId, id, time, chatId, message, now);
            var jid := JobIdAt(w.sched.counter);
            StoredIds(r, id) == [jid] && jid in r.sched.jobs
            && Bind(r.sched.jobs[jid].args).Some? && Bind(r.sched.jobs[jid].args).value.topicId == Null
  {
    var row := w.rows[id];
    var m := World(w.rows[id := row.(remindTime := time, updatedAt := now)], w.next,
                   RemoveAll(w.sched, StoredIds(w, id)));
    EditOnceOwned(w, userId, id, time, chatId, message, now);
    if time.instant >= now {
      ScheduleOneAdds(m, id, userId, Date(time.instant),
                      [Int(chatId), Text(message), Instant(time.instant), Int(id)], now);
    }
  }

  /** A time before now is answered with "the time is in the past" before
      anything is written: /remind and the wizard's message step create no
      row and no job, and the one-time time edit leaves the row and its jobs
      as they were, whoever asks. */
  lemma PastTimeChangesNothing(w: World, userId: int, chatId: int, id: int, message: string, time: Stamp,
                               timezone: string, topicId: Option<int>, now: int)
    requires time.instant < now
    ensures RemindOnce(w, userId, chatId, message, time, timezone, topicId, now).None?
    ensures TextInput(w, userId, chatId, timezone, topicId, OnceMessageText(time), message, now) == w
    ensures EditOnceTime(w, userId, id, time, chatId, message, now) == w
    ensures EditOnceTimeAsWritten(w, userId, id, time, chatId, message, now) == w
  {
  }

  // ---------------------------------------------------------------------
  // Properties of deletion

  /** The delete button removes the row and its stored jobs exactly when the
      row belongs to the user; every other job is kept, and otherwise nothing
      changes. */
  lemma DeleteButtonEffect(w: World, userId: int, id: int)
    ensures var (r, ok) := DeleteButton(w, userId, id);
            (ok <==> id in w.rows && w.rows[id].userId == userId)
            && (ok ==> r == World(w.rows - {id}, w.next, RemoveAll(w.sched, StoredIds(w, id))))
            && (!ok ==> r == w)
            && (Consistent(w) ==> Consistent(r))
    ensures var (r, ok) := DeleteButton(w, userId, id);
            ok ==> (forall i :: 0 <= i < |StoredIds(w, id)| ==> StoredIds(w, id)[i] !in r.sched.jobs)
                   && (forall j :: j in w.sched.jobs && j !in StoredIds(w, id) ==>
                          j in r.sched.jobs && r.sched.jobs[j] == w.sched.jobs[j])
  {
    if Consistent(w) {
      RemoveAllIssued(w.sched, StoredIds(w, id));
    }
  }

  /** /delete <id> deletes exactly when the reminder is the user's own and was
      made in the current chat, with the delete button's effect. */
  lemma DeleteCommandEffect(w: World, userId: int, chatId: int, id: int)
    ensures var (r, ok) := DeleteCommand(w, userId, chatId, id);
            (ok <==> id in w.rows && w.rows[id].userId == userId && w.rows[id].chatId == chatId)
            && (ok ==> (r, ok) == DeleteButton(w, userId, id))
            && (!ok ==> r == w)
  {
  }

  /** The admin deletes remove the row and its stored jobs exactly when the
      reminder was made in the admin's chat, whoever owns it; otherwise nothing
      changes. */
  lemma AdminDeleteEffect(w: World, chatId: int, id: int)
    ensures var (r, ok) := AdminDelete(w, chatId, id);
            (ok <==> id in w.rows && w.rows[id].chatId == chatId)
            && (ok ==> r == World(w.rows - {id}, w.next, RemoveAll(w.sched, StoredIds(w, id))))
            && (!ok ==> r == w)
            && (Consistent(w) ==> Consistent(r))
  {
    if Consistent(w) {
      RemoveAllIssued(w.sched, StoredIds(w, id));
    }
  }

  // ---------------------------------------------------------------------
  // handle_reminder_text_input: the 4000-character limit

  /** The steps of handle_reminder_text_input that store the typed text: the
      message edit, and the wizard's message step for a one-time or a
      recurring reminder. */
  datatype TextStep =
    | EditMessageText(id: int)
    | OnceMessageText(time: Stamp)
    | RecurringMessageText(selected: seq<string>, time: Stamp)

  /** handle_reminder_text_input: text over the limit is answered with an
      error before any step runs; otherwise the step runs with the text as
      the reminder's message. */
  function TextInput(w: World, userId: int, chatId: int, timezone: string, topicId: Option<int>,
                     step: TextStep, text: string, now: int): World {
    if !WithinLimit(text) then w
    else match step
      case EditMessageText(id) => EditMessage(w, userId, id, text, now)
      case OnceMessageText(time) =>
        var created := RemindOnce(w, userId, chatId, text, time, timezone, topicId, now);
        if created.Some? then created.value.0 else w
      case RecurringMessageText(selected, time) =>
        RemindRecurring(w, userId, chatId, text, selected, time, timezone, topicId, now).0
  }

  /** The same rows with the same messages. */
  predicate SameMessages(w: World, r: World) {
    r.rows.Keys == w.rows.Keys && forall k :: k in w.rows ==> r.rows[k].message == w.rows[k].message
  }

  /** Every row of r either has the message it had in w or carries text. */
  predicate MessagesKeptOr(w: World, r: World, text: string) {
    forall k :: k in r.rows ==> (k in w.rows && r.rows[k].message == w.rows[k].message) || r.rows[k].message == text
  }

  lemma ScheduleOneSameMessages(w: World, id: int, userId: int, t: Trigger, args: seq<Arg>, now: int)
    ensures SameMessages(w, ScheduleOne(w, id, userId, t, args, now))
  {
  }

  lemma ScheduleAllSameMessages(w: World, id: int, userId: int, days: seq<string>, hour: int, minute: int,
                                timezone: string, args: seq<Arg>, now: int)
    ensures SameMessages(w, ScheduleAll(w, id, userId, days, hour, minute, timezone, args, now))
  {
  }

  lemma RescheduleSameMessages(w: World, id: int, userId: int, r: Reminder, text: string, now: int)
    ensures SameMessages(w, Reschedule(w, id, userId, r, text, now))
  {
    var t := r.remindTime;
    var args := ReminderArgs(r.chatId, text, Null, id, r.topicId);
    ScheduleOneSameMessages(w, id, userId, Cron(None, t.hour, t.minute, r.timezone), args, now);
    ScheduleOneSameMessages(w, id, userId, Cron(r.dayOfWeek, t.hour, t.minute, r.timezone), args, now);
    ScheduleOneSameMessages(w, id, userId, Date(t.instant),
                            ReminderArgs(r.chatId, text, Instant(t.instant), id, r.topicId), now);
    if r.isRecurring && r.recurrenceType == Some("weekly") && NonEmpty(r.dayOfWeek) && ',' in r.dayOfWeek.value {
      ScheduleAllSameMessages(w, id, userId, Split(r.dayOfWeek.value, ','), t.hour, t.minute, r.timezone,
                              args, now);
    }
  }

  /** The limit as handle_reminder_text_input applies it: text over 4000
      characters changes nothing, not even the job removal the message edit
      starts with; and every message the handler writes is the typed text,
      which is then within the limit. */
  lemma {:induction false} TextInputWithinLimit(w: World, userId: int, chatId: int, timezone: string,
                                                topicId: Option<int>, step: TextStep, text: string, now: int)
    ensures !WithinLimit(text) ==> TextInput(w, userId, chatId, timezone, topicId, step, text, now) == w
    ensures var r := TextInput(w, userId, chatId, timezone, topicId, step, text, now);
            forall k :: k in r.rows && !(k in w.rows && r.rows[k].message == w.rows[k].message)
                        ==> r.rows[k].message == text && WithinLimit(text)
  {
    var r := TextInput(w, userId, chatId, timezone, topicId, step, text, now);
    if WithinLimit(text) {
      match step
      case EditMessageText(id) =>
        var w1 := Unschedule(w, StoredIds(w, id));
        var (w2, ok) := PatchRow(w1, id, userId, MessagePatch(text), now);
        assert MessagesKeptOr(w, w2, text);
        if ok {
          RescheduleSameMessages(w2, id, userId, w2.rows[id], text, now);
        }
        assert MessagesKeptOr(w, r, text);
      case OnceMessageText(time) =>
        if time.instant >= now {
          var row := NewRow(userId, chatId, text, time, timezone, false, None, None, topicId, now);
          var (w1, id) := Insert(w, row);
          ScheduleOneSameMessages(w1, id, userId, Date(time.instant),
                                  ReminderArgs(chatId, text, Instant(time.instant), id, topicId), now);
        }
        assert MessagesKeptOr(w, r, text);
      case RecurringMessageText(selected, time) =>
        if |selected| == 7 {
          var row := NewRow(userId, chatId, text, time, timezone, true, Some("daily"), None, topicId, now);
          var (w1, id) := Insert(w, row);
          ScheduleOneSameMessages(w1, id, userId, Cron(None, time.hour, time.minute, timezone),
                                  ReminderArgs(chatId, text, Null, id, topicId), now);
        } else {
          var abbrevs := Abbrevs(selected);
          var (w1, id) := Insert(w, NewRow(userId, chatId, text, time, timezone, true, Some("weekly"),
                                           Some(Join(abbrevs, ',')), topicId, now));
          ScheduleAllSameMessages(w1, id, userId, abbrevs, time.hour, time.minute, timezone,
                                  ReminderArgs(chatId, text, Null, id, topicId), now);
        }
        assert MessagesKeptOr(w, r, text);
    }
  }
}
