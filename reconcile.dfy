/** The start-up pass over the pending reminders (load_and_reschedule_pending_reminders):
    for each active row, the jobs it should have are looked up in the job store,
    and missing ones are added again. Each row is handled inside its own try, so
    an exception ends that row's handling with the effects made until then and
    the pass goes on with the next row. */
module Reconciliation {
  import opened Common
  import opened ReminderStore
  import opened Scheduling
  import opened Handlers

  /** The pass as the bot's code has it, or with its two defects corrected. */
  datatype Version = AsWritten | Corrected

  /** The row's job_id names a job the store holds (get_job on the raw value). */
  predicate StoredJobLive(w: World, r: Reminder) {
    NonEmpty(r.jobId) && r.jobId.value in w.sched.jobs
  }

  /** Every id of the list names a job the store holds. */
  predicate AllLive(s: Sched, ids: seq<string>) {
    forall i :: 0 <= i < |ids| ==> ids[i] in s.jobs
  }

  /** The weekdays the weekly check expects jobs for: the comma-separated parts,
      the single day, or none when day_of_week is empty. */
  function ExpectedDays(dayOfWeek: Option<string>): (days: seq<string>)
    ensures |days| == 0 <==> !NonEmpty(dayOfWeek)
  {
    if NonEmpty(dayOfWeek) && ',' in dayOfWeek.value then Split(dayOfWeek.value, ',')
    else if NonEmpty(dayOfWeek) then [dayOfWeek.value]
    else []
  }

  /** The weekly skip test: some stored ids, all of them live, and as many as
      the expected days when any day is expected. */
  predicate WeeklyLive(w: World, id: int, r: Reminder) {
    var ids := StoredIds(w, id);
    |ids| > 0 && AllLive(w.sched, ids)
    && (|ExpectedDays(r.dayOfWeek)| > 0 ==> |ids| == |ExpectedDays(r.dayOfWeek)|)
  }

  /** One add_job whose id is written only when the row's job_id was empty or
      different; when add_job raises nothing is written. */
  function ScheduleOneIfChanged(w: World, id: int, userId: int, t: Trigger, args: seq<Arg>,
                                stored: Option<string>, now: int): World {
    var (s, job) := Add(w.sched, t, args);
    if job.None? then w
    else if !NonEmpty(stored) || stored.value != job.value then
      w.(sched := s, rows := Updated(w.rows, id, userId, JobIdPatch(job.value), now).0)
    else w.(sched := s)
  }

  /** The arguments the daily branch passes: the application object first,
      six in all. */
  function DailyArgsAsWritten(r: Reminder, id: int): seq<Arg> {
    [Application, Int(r.chatId), Text(r.message), Null, Int(id), OptionArg(r.topicId)]
  }

  /** The daily branch: skipped when the stored job is live, otherwise one cron
      job every day at the row's hour and minute. */
  function ReconcileDaily(w: World, id: int, r: Reminder, now: int, v: Version): World {
    if StoredJobLive(w, r) then w
    else
      var args := if v == AsWritten then DailyArgsAsWritten(r, id)
                  else ReminderArgs(r.chatId, r.message, Null, id, r.topicId);
      ScheduleOneIfChanged(w, id, r.userId, Cron(None, r.remindTime.hour, r.remindTime.minute, r.timezone),
                           args, r.jobId, now)
  }

  /** The weekly re-add: a fan-out over the comma-separated days, or one cron
      job for a single day; a NULL day_of_week raises before any job is added. */
  function RescheduleWeekly(w: World, id: int, r: Reminder, now: int): World {
    var args := ReminderArgs(r.chatId, r.message, Null, id, r.topicId);
    var t := r.remindTime;
    if r.dayOfWeek.None? then w
    else if ',' in r.dayOfWeek.value then
      ScheduleAll(w, id, r.userId, Split(r.dayOfWeek.value, ','), t.hour, t.minute, r.timezone, args, now)
    else
      ScheduleOneIfChanged(w, id, r.userId, Cron(r.dayOfWeek, t.hour, t.minute, r.timezone), args, r.jobId, now)
  }

  /** The weekly branch: skipped when the stored jobs pass the check; otherwise
      re-added, as written without removing the stored jobs that are still
      live, corrected after removing every stored job. */
  function ReconcileWeekly(w: World, id: int, r: Reminder, now: int, v: Version): World {
    if WeeklyLive(w, id, r) || r.dayOfWeek.None? then w
    else if v == AsWritten then RescheduleWeekly(w, id, r, now)
    else RescheduleWeekly(Unschedule(w, StoredIds(w, id)), id, r, now)
  }

  /** The one-time branch: a reminder still in the future loses its live old job
      and gets a new date job; a past one is skipped. */
  function ReconcileOnce(w: World, id: int, r: Reminder, now: int): World {
    var t := r.remindTime.instant;
    if t > now then
      var w1 := if StoredJobLive(w, r) then Unschedule(w, [r.jobId.value]) else w;
      ScheduleOne(w1, id, r.userId, Date(t), ReminderArgs(r.chatId, r.message, Instant(t), id, r.topicId), now)
    else w
  }

  /** One pending row's handling. */
  function ReconcileRow(w: World, id: int, now: int, v: Version): World {
    if id !in w.rows then w
    else
      var r := w.rows[id];
      if r.isRecurring then
        if r.recurrenceType == Some("daily") then ReconcileDaily(w, id, r, now, v)
        else if r.recurrenceType == Some("weekly") then ReconcileWeekly(w, id, r, now, v)
        else w
      else ReconcileOnce(w, id, r, now)
  }

  /** The rows of the list handled in order. */
  function ReconcileAll(w: World, ids: seq<int>, now: int, v: Version): World
    decreases |ids|
  {
    if |ids| == 0 then w
    else ReconcileRow(ReconcileAll(w, ids[..|ids| - 1], now, v), ids[|ids| - 1], now, v)
  }

  /** Handling one more row of the list. */
  lemma ReconcileAllStep(w: World, ids: seq<int>, i: int, now: int, v: Version)
    requires 0 <= i < |ids|
    ensures ReconcileAll(w, ids[..i + 1], now, v) == ReconcileRow(ReconcileAll(w, ids[..i], now, v), ids[i], now, v)
  {
    assert ids[..i + 1][..i] == ids[..i];
  }

  /** The pass over get_pending_reminders, earliest remind_time first. */
  function Reconcile(w: World, now: int, v: Version): World
    requires IdsBelow(w.rows, w.next)
  {
    ReconcileAll(w, Pending(w.rows, w.next), now, v)
  }

  // ---------------------------------------------------------------------
  // What a step may change

  /** The tables hold the same rows, and a row differs at most in its job_id
      and updated_at. */
  predicate OnlyJobIdsChanged(a: map<int, Reminder>, b: map<int, Reminder>) {
    a.Keys == b.Keys
    && forall k :: k in a ==> b[k] == a[k].(jobId := b[k].jobId, updatedAt := b[k].updatedAt)
  }

  lemma OnlyJobIdsChangedTrans(a: map<int, Reminder>, b: map<int, Reminder>, c: map<int, Reminder>)
    requires OnlyJobIdsChanged(a, b) && OnlyJobIdsChanged(b, c)
    ensures OnlyJobIdsChanged(a, c)
  {
  }

  /** Writing a job id keeps the table consistent in that sense. */
  lemma StampKeeps(rows: map<int, Reminder>, id: int, userId: int, jobId: string, now: int)
    ensures var r := Updated(rows, id, userId, JobIdPatch(jobId), now).0;
            OnlyJobIdsChanged(rows, r) && forall k :: k in rows && k != id ==> r[k] == rows[k]
  {
    if id in rows {
      JobIdStamped(rows[id], jobId, now);
    }
  }

  /** A step made of one add_job and a job_id write. */
  lemma ScheduleOneKeeps(w: World, id: int, userId: int, t: Trigger, args: seq<Arg>, now: int)
    requires Consistent(w)
    ensures var r := ScheduleOne(w, id, userId, t, args, now);
            Consistent(r) && r.next == w.next && OnlyJobIdsChanged(w.rows, r.rows)
            && forall k :: k in w.rows && k != id ==> r.rows[k] == w.rows[k]
  {
    AddIssued(w.sched, t, args);
    var (s, job) := Add(w.sched, t, args);
    if job.Some? {
      StampKeeps(w.rows, id, userId, job.value, now);
    }
  }

  lemma ScheduleOneIfChangedKeeps(w: World, id: int, userId: int, t: Trigger, args: seq<Arg>,
                                  stored: Option<string>, now: int)
    requires Consistent(w)
    ensures var r := ScheduleOneIfChanged(w, id, userId, t, args, stored, now);
            Consistent(r) && r.next == w.next && OnlyJobIdsChanged(w.rows, r.rows)
            && forall k :: k in w.rows && k != id ==> r.rows[k] == w.rows[k]
  {
    AddIssued(w.sched, t, args);
    var (s, job) := Add(w.sched, t, args);
    if job.Some? && (!NonEmpty(stored) || stored.value != job.value) {
      StampKeeps(w.rows, id, userId, job.value, now);
      var rows := Updated(w.rows, id, userId, JobIdPatch(job.value), now).0;
      assert ScheduleOneIfChanged(w, id, userId, t, args, stored, now) == w.(sched := s, rows := rows);
      assert rows.Keys == w.rows.Keys;
    } else {
      assert ScheduleOneIfChanged(w, id, userId, t, args, stored, now).rows == w.rows;
    }
  }

  /** A fan-out followed by a job_id write. */
  lemma ScheduleAllKeeps(w: World, id: int, userId: int, days: seq<string>, hour: int, minute: int,
                         timezone: string, args: seq<Arg>, now: int)
    requires Consistent(w)
    ensures var r := ScheduleAll(w, id, userId, days, hour, minute, timezone, args, now);
            Consistent(r) && r.next == w.next && OnlyJobIdsChanged(w.rows, r.rows)
            && forall k :: k in w.rows && k != id ==> r.rows[k] == w.rows[k]
  {
    FanOutKeeps(w.sched, days, hour, minute, timezone, args);
    var (s, ids) := FanOut(w.sched, days, hour, minute, timezone, args);
    if ids.Some? {
      StampKeeps(w.rows, id, userId, StoredJobIds(ids.value), now);
    }
  }

  lemma RescheduleWeeklyKeeps(w: World, id: int, r: Reminder, now: int)
    requires Consistent(w)
    ensures var x := RescheduleWeekly(w, id, r, now);
            Consistent(x) && x.next == w.next && OnlyJobIdsChanged(w.rows, x.rows)
            && forall k :: k in w.rows && k != id ==> x.rows[k] == w.rows[k]
  {
    var args := ReminderArgs(r.chatId, r.message, Null, id, r.topicId);
    var t := r.remindTime;
    if r.dayOfWeek.Some? {
      if ',' in r.dayOfWeek.value {
        ScheduleAllKeeps(w, id, r.userId, Split(r.dayOfWeek.value, ','), t.hour, t.minute, r.timezone, args, now);
      } else {
        ScheduleOneIfChangedKeeps(w, id, r.userId, Cron(r.dayOfWeek, t.hour, t.minute, r.timezone), args,
                                  r.jobId, now);
      }
    }
  }

  /** Handling one row keeps the tables consistent, leaves every other row
      alone and changes at most the job_id and updated_at of its own row. */
  lemma ReconcileRowKeeps(w: World, id: int, now: int, v: Version)
    requires Consistent(w)
    ensures var r := ReconcileRow(w, id, now, v);
            Consistent(r) && r.next == w.next && OnlyJobIdsChanged(w.rows, r.rows)
            && forall k :: k in w.rows && k != id ==> r.rows[k] == w.rows[k]
  {
    if id in w.rows {
      var r := w.rows[id];
      if r.isRecurring {
        if r.recurrenceType == Some("daily") {
          if !StoredJobLive(w, r) {
            var args := if v == AsWritten then DailyArgsAsWritten(r, id)
                        else ReminderArgs(r.chatId, r.message, Null, id, r.topicId);
            ScheduleOneIfChangedKeeps(w, id, r.userId, Cron(None, r.remindTime.hour, r.remindTime.minute,
                                      r.timezone), args, r.jobId, now);
          }
        } else if r.recurrenceType == Some("weekly") {
          if v == AsWritten {
            RescheduleWeeklyKeeps(w, id, r, now);
          } else {
            RemoveAllIssued(w.sched, StoredIds(w, id));
            RescheduleWeeklyKeeps(Unschedule(w, StoredIds(w, id)), id, r, now);
          }
        }
      } else {
        var t := r.remindTime.instant;
        if StoredJobLive(w, r) {
          RemoveAllIssued(w.sched, [r.jobId.value]);
        }
        var w1 := if StoredJobLive(w, r) then Unschedule(w, [r.jobId.value]) else w;
        ScheduleOneKeeps(w1, id, r.userId, Date(t), ReminderArgs(r.chatId, r.message, Instant(t), id, r.topicId),
                         now);
      }
    }
  }

  /** The whole pass keeps the tables consistent, changes no row outside the
      list, and changes only job_id and updated_at of the rows in it. */
  lemma {:induction false} ReconcileAllKeeps(w: World, ids: seq<int>, now: int, v: Version)
    requires Consistent(w)
    ensures var r := ReconcileAll(w, ids, now, v);
            Consistent(r) && r.next == w.next && OnlyJobIdsChanged(w.rows, r.rows)
            && forall k :: k in w.rows && k !in ids ==> r.rows[k] == w.rows[k]
    decreases |ids|
  {
    if |ids| > 0 {
      var init := ids[..|ids| - 1];
      ReconcileAllKeeps(w, init, now, v);
      var m := ReconcileAll(w, init, now, v);
      ReconcileRowKeeps(m, ids[|ids| - 1], now, v);
      OnlyJobIdsChangedTrans(w.rows, m.rows, ReconcileRow(m, ids[|ids| - 1], now, v).rows);
      assert forall k :: k !in ids ==> k !in init && k != ids[|ids| - 1];
    }
  }

  /** The pass over the pending rows leaves the sent one-time reminders alone. */
  lemma ReconcileKeepsSent(w: World, now: int, v: Version)
    requires Consistent(w)
    ensures var r := Reconcile(w, now, v);
            Consistent(r) && r.next == w.next && OnlyJobIdsChanged(w.rows, r.rows)
            && forall k :: k in w.rows && !IsPending(w.rows[k]) ==> r.rows[k] == w.rows[k]
  {
    ReconcileAllKeeps(w, Pending(w.rows, w.next), now, v);
  }

  // ---------------------------------------------------------------------
  // Skips

  /** A daily reminder whose stored job is live is left as it is. */
  lemma DailyLiveSkipped(w: World, id: int, now: int, v: Version)
    requires id in w.rows && w.rows[id].isRecurring && w.rows[id].recurrenceType == Some("daily")
    requires StoredJobLive(w, w.rows[id])
    ensures ReconcileRow(w, id, now, v) == w
  {
  }

  /** A weekly reminder whose stored ids are all live, and as many as its days,
      is left as it is. */
  lemma WeeklyLiveSkipped(w: World, id: int, now: int, v: Version)
    requires id in w.rows && w.rows[id].isRecurring && w.rows[id].recurrenceType == Some("weekly")
    requires WeeklyLive(w, id, w.rows[id])
    ensures ReconcileRow(w, id, now, v) == w
  {
  }

  /** A one-time reminder whose time has passed is left as it is. */
  lemma PastOnceSkipped(w: World, id: int, now: int, v: Version)
    requires id in w.rows && !w.rows[id].isRecurring && w.rows[id].remindTime.instant <= now
    ensures ReconcileRow(w, id, now, v) == w
  {
  }

  // ---------------------------------------------------------------------
  // One-time reminders in the future

  /** A future one-time reminder ends with exactly one new date job, at its
      instant and carrying its chat, text, topic and id; its old live job is
      removed and no other job changes. */
  lemma FutureOnceRescheduled(w: World, id: int, now: int, v: Version)
    requires Consistent(w) && id in w.rows && !w.rows[id].isRecurring
    requires w.rows[id].remindTime.instant > now
    ensures var r := ReconcileRow(w, id, now, v);
            var row := w.rows[id];
            var t := row.remindTime.instant;
            var s := if StoredJobLive(w, row) then RemoveAll(w.sched, [row.jobId.value]) else w.sched;
            var jid := JobIdAt(w.sched.counter);
            Consistent(r) && jid !in w.sched.jobs
            && r.sched == Sched(s.jobs[jid := Job(Date(t), ReminderArgs(row.chatId, row.message, Instant(t), id,
                                                                       row.topicId))], w.sched.counter + 1)
            && r.rows == w.rows[id := row.(jobId := Some(jid), updatedAt := now)]
            && StoredIds(r, id) == [jid] && InStep(r, id)
            && (StoredJobLive(w, row) ==> row.jobId.value !in r.sched.jobs)
  {
    var row := w.rows[id];
    var t := row.remindTime.instant;
    if StoredJobLive(w, row) {
      RemoveAllIssued(w.sched, [row.jobId.value]);
    }
    var w1 := if StoredJobLive(w, row) then Unschedule(w, [row.jobId.value]) else w;
    FreshId(w.sched);
    ScheduleOneAdds(w1, id, row.userId, Date(t), ReminderArgs(row.chatId, row.message, Instant(t), id, row.topicId), now);
  }

  // ---------------------------------------------------------------------
  // Daily reminders without a live job

  /** As written, a daily reminder whose job is missing is never restored: the
      six arguments do not bind to schedule_reminder, add_job raises, and the
      row and the job store stay as they were. */
  lemma DailyAsWrittenNotRestored(w: World, id: int, now: int)
    requires id in w.rows && w.rows[id].isRecurring && w.rows[id].recurrenceType == Some("daily")
    requires !StoredJobLive(w, w.rows[id])
    ensures var r := ReconcileRow(w, id, now, AsWritten);
            r == w && !StoredJobLive(r, r.rows[id])
  {
  }

  /** Corrected, a daily reminder whose job is missing gets one new cron job
      every day at its hour and minute, carrying its chat, text, topic and id,
      and that job's id ends up as the row's job_id. */
  lemma DailyRestored(w: World, id: int, now: int)
    requires Consistent(w) && id in w.rows && w.rows[id].isRecurring && w.rows[id].recurrenceType == Some("daily")
    requires !StoredJobLive(w, w.rows[id])
    requires 0 <= w.rows[id].remindTime.hour <= 23 && 0 <= w.rows[id].remindTime.minute <= 59
    ensures var r := ReconcileRow(w, id, now, Corrected);
            var row := w.rows[id];
            var jid := JobIdAt(w.sched.counter);
            Consistent(r) && jid !in w.sched.jobs
            && r.sched == Sched(w.sched.jobs[jid := Job(Cron(None, row.remindTime.hour, row.remindTime.minute,
                                                             row.timezone),
                                                        ReminderArgs(row.chatId, row.message, Null, id, row.topicId))],
                                w.sched.counter + 1)
            && r.rows == w.rows[id := row.(jobId := Some(jid), updatedAt := r.rows[id].updatedAt)]
            && StoredIds(r, id) == [jid] && InStep(r, id) && StoredJobLive(r, r.rows[id])
  {
    var row := w.rows[id];
    var t := Cron(None, row.remindTime.hour, row.remindTime.minute, row.timezone);
    var args := ReminderArgs(row.chatId, row.message, Null, id, row.topicId);
    var jid := JobIdAt(w.sched.counter);
    assert ReconcileRow(w, id, now, Corrected) == ScheduleOneIfChanged(w, id, row.userId, t, args, row.jobId, now);
    FreshId(w.sched);
    AddIssued(w.sched, t, args);
    SplitNoSeparator(jid, ',');
    if !NonEmpty(row.jobId) || row.jobId.value != jid {
      UpdatedOwned(w.rows, id, row.userId, JobIdPatch(jid), now);
      JobIdStamped(row, jid, now);
    } else {
      assert row == row.(jobId := Some(jid), updatedAt := row.updatedAt);
    }
  }

  /** A second pass over a restored daily reminder changes nothing. */
  lemma DailyRestoredStable(w: World, id: int, now: int, later: int, v: Version)
    requires Consistent(w) && id in w.rows && w.rows[id].isRecurring && w.rows[id].recurrenceType == Some("daily")
    requires !StoredJobLive(w, w.rows[id])
    requires 0 <= w.rows[id].remindTime.hour <= 23 && 0 <= w.rows[id].remindTime.minute <= 59
    ensures var r := ReconcileRow(w, id, now, Corrected);
            ReconcileRow(r, id, later, v) == r
  {
    DailyRestored(w, id, now);
  }

  // ---------------------------------------------------------------------
  // Weekly reminders whose stored jobs are only partly live

  /** The re-add of a weekly reminder over several accepted days, on a world
      whose row is the given one. */
  lemma WeeklyReadded(w: World, id: int, now: int)
    requires Consistent(w) && id in w.rows
    requires NonEmpty(w.rows[id].dayOfWeek) && ',' in w.rows[id].dayOfWeek.value
    requires var row := w.rows[id];
             AllDaysAccepted(Split(row.dayOfWeek.value, ','), row.remindTime.hour, row.remindTime.minute,
                             row.timezone, ReminderArgs(row.chatId, row.message, Null, id, row.topicId))
    ensures var r := RescheduleWeekly(w, id, w.rows[id], now);
            var row := w.rows[id];
            Consistent(r) && InStep(r, id)
            && r.rows == w.rows[id := row.(jobId := Some(StoredJobIds(StoredIds(r, id))), updatedAt := now)]
            && JobsAdded(w.sched, r.sched, StoredIds(r, id), Split(row.dayOfWeek.value, ','), row.remindTime.hour,
                         row.remindTime.minute, row.timezone, ReminderArgs(row.chatId, row.message, Null, id, row.topicId))
  {
    var row := w.rows[id];
    ScheduleAllAdds(w, id, row.userId, Split(row.dayOfWeek.value, ','), row.remindTime.hour, row.remindTime.minute,
                    row.timezone, ReminderArgs(row.chatId, row.message, Null, id, row.topicId), now);
  }

  /** As written, a weekly reminder whose stored jobs fail the check while one
      of them is still live is re-added beside it: that job stays in the store,
      unchanged, but the row's job_id no longer names it, so nothing removes it
      and the reminder fires twice on its day. */
  lemma WeeklyAsWrittenOrphans(w: World, id: int, now: int, x: string)
    requires Consistent(w) && id in w.rows && w.rows[id].isRecurring && w.rows[id].recurrenceType == Some("weekly")
    requires NonEmpty(w.rows[id].dayOfWeek) && ',' in w.rows[id].dayOfWeek.value
    requires var row := w.rows[id];
             AllDaysAccepted(Split(row.dayOfWeek.value, ','), row.remindTime.hour, row.remindTime.minute,
                             row.timezone, ReminderArgs(row.chatId, row.message, Null, id, row.topicId))
    requires !WeeklyLive(w, id, w.rows[id])
    requires x in StoredIds(w, id) && x in w.sched.jobs
    ensures var r := ReconcileRow(w, id, now, AsWritten);
            x in r.sched.jobs && r.sched.jobs[x] == w.sched.jobs[x] && x !in StoredIds(r, id)
  {
    WeeklyReadded(w, id, now);
  }

  /** Corrected, the stored jobs are removed before the re-add: the row's new
      jobs are one per day, all live, and no stored job survives unless the row
      names it again. */
  lemma WeeklyRestored(w: World, id: int, now: int)
    requires Consistent(w) && id in w.rows && w.rows[id].isRecurring && w.rows[id].recurrenceType == Some("weekly")
    requires NonEmpty(w.rows[id].dayOfWeek) && ',' in w.rows[id].dayOfWeek.value
    requires var row := w.rows[id];
             AllDaysAccepted(Split(row.dayOfWeek.value, ','), row.remindTime.hour, row.remindTime.minute,
                             row.timezone, ReminderArgs(row.chatId, row.message, Null, id, row.topicId))
    requires !WeeklyLive(w, id, w.rows[id])
    ensures var r := ReconcileRow(w, id, now, Corrected);
            var row := w.rows[id];
            var prev := StoredIds(w, id);
            Consistent(r) && InStep(r, id)
            && r.rows == w.rows[id := row.(jobId := Some(StoredJobIds(StoredIds(r, id))), updatedAt := now)]
            && JobsAdded(RemoveAll(w.sched, prev), r.sched, StoredIds(r, id), Split(row.dayOfWeek.value, ','),
                         row.remindTime.hour, row.remindTime.minute, row.timezone,
                         ReminderArgs(row.chatId, row.message, Null, id, row.topicId))
            && forall i :: 0 <= i < |prev| && prev[i] in r.sched.jobs ==> prev[i] in StoredIds(r, id)
  {
    RemoveAllIssued(w.sched, StoredIds(w, id));
    WeeklyReadded(Unschedule(w, StoredIds(w, id)), id, now);
  }

  /** A second pass over a restored weekly reminder changes nothing. */
  lemma WeeklyRestoredStable(w: World, id: int, now: int, later: int, v: Version)
    requires Consistent(w) && id in w.rows && w.rows[id].isRecurring && w.rows[id].recurrenceType == Some("weekly")
    requires NonEmpty(w.rows[id].dayOfWeek) && ',' in w.rows[id].dayOfWeek.value
    requires var row := w.rows[id];
             AllDaysAccepted(Split(row.dayOfWeek.value, ','), row.remindTime.hour, row.remindTime.minute,
                             row.timezone, ReminderArgs(row.chatId, row.message, Null, id, row.topicId))
    requires !WeeklyLive(w, id, w.rows[id])
    ensures var r := ReconcileRow(w, id, now, Corrected);
            ReconcileRow(r, id, later, v) == r
  {
    WeeklyRestored(w, id, now);
    var r := ReconcileRow(w, id, now, Corrected);
    assert r.rows[id].dayOfWeek == w.rows[id].dayOfWeek;
    assert WeeklyLive(r, id, r.rows[id]);
  }
}
