/** The bot's scheduling engine as objects: the database Store and the
    JobScheduler, driven by the handlers' sequences of calls. Each method makes
    the calls its handler makes, in the same order, and is proved to reach the
    state that the matching function of Handlers or Reconciliation computes,
    so every property proved about those functions holds of the objects. */
module Engine {
  import opened Common
  import opened ReminderStore
  import opened Scheduling
  import Handlers
  import Reconciliation

  class Bot {
    const store: Store
    const scheduler: JobScheduler

    predicate Valid()
      reads this, store, scheduler
    {
      store.Valid() && scheduler.Valid()
    }

    /** The reminders table and the job store as one value. */
    function State(): Handlers.World
      reads this, store, scheduler
    {
      Handlers.World(store.reminders, store.nextId, scheduler.State())
    }

    /** The timezone preferences, which no method of the engine touches. */
    function Prefs(): (map<int, Preference>, int)
      reads this, store
    {
      (store.prefs, store.nextPrefId)
    }

    constructor ()
      ensures Valid() && fresh(store) && fresh(scheduler)
      ensures State() == Handlers.World(map[], 1, Sched(map[], 0))
    {
      store := new Store();
      scheduler := new JobScheduler();
    }

    /** A valid engine's state is consistent. */
    lemma StateConsistent()
      requires Valid()
      ensures Handlers.Consistent(State())
    {
    }

    // -------------------------------------------------------------------
    // The shared steps

    /** add_job, and on success update_reminder with the new id. */
    method ScheduleJob(id: int, userId: int, t: Trigger, args: seq<Arg>, now: int)
      requires Valid()
      modifies store, scheduler
      ensures Valid() && Prefs() == old(Prefs())
      ensures State() == Handlers.ScheduleOne(old(State()), id, userId, t, args, now)
    {
      var job := scheduler.AddJob(t, args);
      if job.Some? {
        var _ := store.Update(id, userId, JobIdPatch(job.value), now);
      }
    }

    /** The fan-out loop, and on success update_reminder with the joined ids. */
    method ScheduleDays(id: int, userId: int, days: seq<string>, hour: int, minute: int,
                        timezone: string, args: seq<Arg>, now: int)
      requires Valid()
      modifies store, scheduler
      ensures Valid() && Prefs() == old(Prefs())
      ensures State() == Handlers.ScheduleAll(old(State()), id, userId, days, hour, minute, timezone, args, now)
    {
      var ids := scheduler.FanOutJobs(days, hour, minute, timezone, args);
      if ids.Some? {
        var _ := store.Update(id, userId, JobIdPatch(StoredJobIds(ids.value)), now);
      }
    }

    // -------------------------------------------------------------------
    // Creation

    /** add_reminder followed by one add_job for the new row. */
    method CreateScheduled(userId: int, chatId: int, message: string, time: Stamp, timezone: string,
                           isRecurring: bool, recurrenceType: Option<string>, dayOfWeek: Option<string>,
                           topicId: Option<int>, t: Trigger, timeArg: Arg, now: int)
      returns (id: int)
      requires Valid()
      modifies store, scheduler
      ensures Valid() && Prefs() == old(Prefs())
      ensures (State(), id) == Handlers.CreateScheduled(old(State()),
                 Handlers.NewRow(userId, chatId, message, time, timezone, isRecurring, recurrenceType, dayOfWeek,
                                 topicId, now), t, timeArg, now)
    {
      id := store.AddReminder(userId, chatId, message, time, timezone, isRecurring, recurrenceType, dayOfWeek,
                              topicId, None, now);
      ScheduleJob(id, userId, t, Handlers.ReminderArgs(chatId, message, timeArg, id, topicId), now);
    }

    /** The wizard's weekly branch: the row with the joined abbreviations, then
        one cron job per day. */
    method RemindWeekly(userId: int, chatId: int, message: string, selected: seq<string>, time: Stamp,
                        timezone: string, topicId: Option<int>, now: int)
      returns (id: int)
      requires Valid()
      modifies store, scheduler
      ensures Valid() && Prefs() == old(Prefs())
      ensures (State(), id) == Handlers.RemindWeekly(old(State()), userId, chatId, message, selected, time,
                                                      timezone, topicId, now)
    {
      var abbrevs := BotHelpers.Abbrevs(selected);
      id := store.AddReminder(userId, chatId, message, time, timezone, true, Some("weekly"),
                              Some(Join(abbrevs, ',')), topicId, None, now);
      ScheduleDays(id, userId, abbrevs, time.hour, time.minute, timezone,
                   Handlers.ReminderArgs(chatId, message, Null, id, topicId), now);
    }

    // -------------------------------------------------------------------
    // Editing

    /** The jobs the message edit adds for the updated row. */
    method Reschedule(id: int, userId: int, r: Reminder, text: string, now: int)
      requires Valid()
      modifies store, scheduler
      ensures Valid() && Prefs() == old(Prefs())
      ensures State() == Handlers.Reschedule(old(State()), id, userId, r, text, now)
    {
      var t := r.remindTime;
      var args := Handlers.ReminderArgs(r.chatId, text, Null, id, r.topicId);
      if r.isRecurring {
        if r.recurrenceType == Some("daily") {
          ScheduleJob(id, userId, Cron(None, t.hour, t.minute, r.timezone), args, now);
        } else if r.recurrenceType == Some("weekly") {
          if NonEmpty(r.dayOfWeek) && ',' in r.dayOfWeek.value {
            ScheduleDays(id, userId, Split(r.dayOfWeek.value, ','), t.hour, t.minute, r.timezone, args, now);
          } else {
            ScheduleJob(id, userId, Cron(r.dayOfWeek, t.hour, t.minute, r.timezone), args, now);
          }
        }
      } else {
        ScheduleJob(id, userId, Date(t.instant),
                    Handlers.ReminderArgs(r.chatId, text, Instant(t.instant), id, r.topicId), now);
      }
    }

    /** Editing the message: the stored jobs go first, then the update, then
        the re-add from the row as it reads after the update. */
    method EditMessage(userId: int, id: int, text: string, now: int)
      requires Valid()
      modifies store, scheduler
      ensures Valid() && Prefs() == old(Prefs())
      ensures State() == Handlers.EditMessage(old(State()), userId, id, text, now)
    {
      scheduler.RemoveJobs(ReminderJobIds(store.reminders, id));
      var ok := store.Update(id, userId, Handlers.MessagePatch(text), now);
      if ok {
        Reschedule(id, userId, store.reminders[id], text, now);
      }
    }

    /** Editing a recurring reminder's days and time. */
    method EditRecurringTime(userId: int, id: int, selected: seq<string>, time: Stamp, timezone: string,
                             chatId: int, topicId: Option<int>, message: string, now: int)
      requires Valid()
      modifies store, scheduler
      ensures Valid() && Prefs() == old(Prefs())
      ensures State() == Handlers.EditRecurringTime(old(State()), userId, id, selected, time, timezone, chatId,
                                                     topicId, message, now)
    {
      scheduler.RemoveJobs(ReminderJobIds(store.reminders, id));
      var args := Handlers.ReminderArgs(chatId, message, Null, id, topicId);
      if |selected| == 7 {
        var ok := store.Update(id, userId, Patch(None, Some(time), None, None, Some("daily"), None), now);
        if ok {
          ScheduleJob(id, userId, Cron(None, time.hour, time.minute, timezone), args, now);
        }
      } else {
        var abbrevs := BotHelpers.Abbrevs(selected);
        var ok := store.Update(id, userId, Patch(None, Some(time), None, None, Some("weekly"),
                                                 Some(Join(abbrevs, ','))), now);
        if ok {
          ScheduleDays(id, userId, abbrevs, time.hour, time.minute, timezone, args, now);
        }
      }
    }

    /** Editing a one-time reminder's time: a time before now is refused
        before anything runs; otherwise the update first, then the old jobs go
        and one date job carrying the reminder's topic is added. */
    method EditOnceTime(userId: int, id: int, time: Stamp, chatId: int, message: string, now: int)
      requires Valid()
      modifies store, scheduler
      ensures Valid() && Prefs() == old(Prefs())
      ensures State() == Handlers.EditOnceTime(old(State()), userId, id, time, chatId, message, now)
    {
      if time.instant >= now {
        var ok := store.Update(id, userId, Patch(None, Some(time), None, None, None, None), now);
        if ok {
          scheduler.RemoveJobs(ReminderJobIds(store.reminders, id));
          ScheduleJob(id, userId, Date(time.instant),
                      Handlers.ReminderArgs(chatId, message, Instant(time.instant), id,
                                            store.reminders[id].topicId), now);
        }
      }
    }

    // -------------------------------------------------------------------
    // Deletion

    /** The delete button: ids read, owner-scoped delete, then the jobs. */
    method DeleteButton(userId: int, id: int) returns (ok: bool)
      requires Valid()
      modifies store, scheduler
      ensures Valid() && Prefs() == old(Prefs())
      ensures (State(), ok) == Handlers.DeleteButton(old(State()), userId, id)
    {
      var ids := ReminderJobIds(store.reminders, id);
      ok := store.Delete(id, userId);
      if ok {
        scheduler.RemoveJobs(ids);
      }
    }

    /** /delete <id>: the reminder must be the user's and in this chat. */
    method DeleteCommand(userId: int, chatId: int, id: int) returns (ok: bool)
      requires Valid()
      modifies store, scheduler
      ensures Valid() && Prefs() == old(Prefs())
      ensures (State(), ok) == Handlers.DeleteCommand(old(State()), userId, chatId, id)
    {
      var r := ById(store.reminders, id, userId);
      if r.None? || r.value.chatId != chatId {
        return false;
      }
      ok := DeleteButton(userId, id);
    }

    /** The admin deletes: scoped by chat instead of owner. */
    method AdminDelete(chatId: int, id: int) returns (ok: bool)
      requires Valid()
      modifies store, scheduler
      ensures Valid() && Prefs() == old(Prefs())
      ensures (State(), ok) == Handlers.AdminDelete(old(State()), chatId, id)
    {
      if ByIdAdmin(store.reminders, id, chatId).None? {
        return false;
      }
      var ids := ReminderJobIds(store.reminders, id);
      ok := store.AdminDelete(id, chatId);
      if ok {
        scheduler.RemoveJobs(ids);
      }
    }

    // -------------------------------------------------------------------
    // The start-up pass

    /** add_job, and the id written unless the row already holds it. */
    method ScheduleJobIfChanged(id: int, userId: int, t: Trigger, args: seq<Arg>, stored: Option<string>,
                                now: int)
      requires Valid()
      modifies store, scheduler
      ensures Valid() && Prefs() == old(Prefs())
      ensures State() == Reconciliation.ScheduleOneIfChanged(old(State()), id, userId, t, args, stored, now)
    {
      var job := scheduler.AddJob(t, args);
      if job.Some? && (!NonEmpty(stored) || stored.value != job.value) {
        var _ := store.Update(id, userId, JobIdPatch(job.value), now);
      }
    }

    /** One pending row, corrected. */
    method ReconcileRow(id: int, now: int)
      requires Valid()
      modifies store, scheduler
      ensures Valid() && Prefs() == old(Prefs())
      ensures State() == Reconciliation.ReconcileRow(old(State()), id, now, Reconciliation.Corrected)
    {
      if id !in store.reminders {
        return;
      }
      var r := store.reminders[id];
      var tm := r.remindTime;
      var args := Handlers.ReminderArgs(r.chatId, r.message, Null, id, r.topicId);
      if r.isRecurring {
        if r.recurrenceType == Some("daily") {
          if !(NonEmpty(r.jobId) && scheduler.Live(r.jobId.value)) {
            ScheduleJobIfChanged(id, r.userId, Cron(None, tm.hour, tm.minute, r.timezone), args, r.jobId, now);
          }
        } else if r.recurrenceType == Some("weekly") {
          if !Reconciliation.WeeklyLive(State(), id, r) && r.dayOfWeek.Some? {
            scheduler.RemoveJobs(ReminderJobIds(store.reminders, id));
            if ',' in r.dayOfWeek.value {
              ScheduleDays(id, r.userId, Split(r.dayOfWeek.value, ','), tm.hour, tm.minute, r.timezone, args, now);
            } else {
              ScheduleJobIfChanged(id, r.userId, Cron(r.dayOfWeek, tm.hour, tm.minute, r.timezone), args,
                                   r.jobId, now);
            }
          }
        }
      } else if tm.instant > now {
        if NonEmpty(r.jobId) && scheduler.Live(r.jobId.value) {
          var _ := scheduler.RemoveJob(r.jobId.value);
          assert scheduler.State() == RemoveAll(old(scheduler.State()), [r.jobId.value]);
        }
        ScheduleJob(id, r.userId, Date(tm.instant),
                    Handlers.ReminderArgs(r.chatId, r.message, Instant(tm.instant), id, r.topicId), now);
      }
    }

    /** load_and_reschedule_pending_reminders, corrected: every pending row in
        remind_time order. */
    method Reconcile(now: int)
      requires Valid()
      modifies store, scheduler
      ensures Valid() && Prefs() == old(Prefs())
      ensures State() == Reconciliation.Reconcile(old(State()), now, Reconciliation.Corrected)
    {
      var ids := Pending(store.reminders, store.nextId);
      var i := 0;
      while i < |ids|
        invariant 0 <= i <= |ids|
        invariant Valid() && Prefs() == old(Prefs())
        invariant State() == Reconciliation.ReconcileAll(old(State()), ids[..i], now, Reconciliation.Corrected)
      {
        Reconciliation.ReconcileAllStep(old(State()), ids, i, now, Reconciliation.Corrected);
        ReconcileRow(ids[i], now);
        i := i + 1;
      }
      assert ids[..i] == ids;
    }
  }
}
