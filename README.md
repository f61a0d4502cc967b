# Remindo bot: the reminder scheduling core in Dafny

A model of the Telegram bot Remindo. Users create one-time, daily and weekly
reminders, and they can also save notes inside forum topics. The model covers
the part of the bot that keeps the reminders table and the job scheduler in
step:

- creating reminders and fanning them out into cron or date jobs;
- replacing a reminder's jobs when it is edited;
- removing its jobs when it is deleted;
- startup reconciliation of the pending reminders with the jobs the
  persistent job store still holds;
- the delivery loop with retries and exponential backoff.

Around that core it models:

- the store (reminders, timezone preferences and notes);
- the timezone resolver and its two caches;
- the free-text recurrence parser;
- topic detection and the message-link builder;
- the day picker, calendar navigation and the HH:MM check.

How the model is built:

- **Tables.** A table is a map from its SERIAL id to a row, together with the
  next id the sequence hands out. A query is a function of the table. Its
  result lists the selected ids ordered by the query's ORDER BY, with ties
  broken by ascending id.
- **Job store.** The scheduler is a map from job id to job (trigger and
  callback arguments) plus an id counter, which stands in for `uuid4`.
  `add_job` is modelled with the checks APScheduler makes when a job is
  added: the trigger's fields must be in range, the weekday must be one
  of the three-letter names, which is narrower than APScheduler's
  `day_of_week` grammar and agrees with it on every value the bot passes, and the positional arguments must bind to `schedule_reminder`
  (three to five of them). Otherwise add_job raises.
- **Objects.** The writes are methods on the objects the source mutates:
  - `ReminderStore.Store` and `NotesStore.NoteStore` for the tables;
  - `Scheduling.JobScheduler` for the job store;
  - `Timezones.Resolver` for the two caches;
  - `BotHelpers.DayPicker` for the day selection list;
  - `Engine.Bot`, which holds a store and a scheduler. Its methods make the
    calls of each handler in the handler's order.
- **Digits.** A digit is what Python's `\d`, `str.isdecimal()` and `int()`
  accept: any Unicode decimal digit (general category Nd, Unicode 15.0, 68
  runs of ten). Its value is its place in its run. `str()` writes ASCII
  digits.
- **Specifications.** Every method is proved to reach the state computed by a
  function (Handlers, Reconciliation, Delivery, Timezones). The properties
  are lemmas about those functions.

Modules, one per file: `Common` (Python string, integer and list
primitives), `Ordering`, `ReminderStore`, `NotesStore`, `Scheduling`,
`Timezones`, `Recurrence`, `BotHelpers`, `NotesBot` (links.dfy), `Handlers`,
`Reconciliation`, `Delivery`, `Engine`.

Where the code and its own comments disagree, the model follows the code.

- A group with no saved preference resolves to `Asia/Tashkent`, because that
  is `get_timezone_preference`'s default for every entity type. That value is
  then written to the chat cache. The docstring of `get_user_timezone` says
  the chat default is UTC; in the code, `UTC` is returned only for an empty
  stored value.
- The delete handlers delete the row first and remove the jobs after that,
  and only when the delete succeeded.

## Model

| member | source | states |
|---|---|---|
| ReminderStore.Patched | Remindo_robot/db.py:230-312 | each of message, remind_time, timezone, job_id, recurrence_type and day_of_week takes the given value when passed and keeps its value otherwise; owner, chat, topic, sent/recurring flags and created_at are kept; updated_at is the time of the update |
| ReminderStore.Pending | Remindo_robot/db.py:143-153 | exactly the rows with is_sent false or is_recurring true, each once, in ascending remind_time |
| ReminderStore.UserReminders | Remindo_robot/db.py:166-186 | exactly the user's active rows in the chat; with no topic, rows of every topic; with a topic, only that topic; by remind_time |
| ReminderStore.UserGeneralTopicReminders | Remindo_robot/db.py:188-198 | exactly the user's active rows in the chat whose topic is NULL |
| ReminderStore.ById | Remindo_robot/db.py:200-209 | Some(row) iff the id exists and belongs to the user |
| ReminderStore.ByIdAdmin | Remindo_robot/db.py:400-409 | Some(row) iff the id exists and is in the chat, whoever owns it |
| ReminderStore.JobIdsOf | Remindo_robot/db.py:322-331 | NULL or empty job_id gives [], otherwise the comma split |
| ReminderStore.ReminderJobIds | Remindo_robot/db.py:322-331 | a missing row gives []; otherwise the row's job_id split at commas |
| ReminderStore.JobIdsRoundTrip | Remindo_robot/db.py:322-331 | reading back the comma join of a non-empty list of non-empty comma-free ids gives the list |
| ReminderStore.PreferenceIds | Remindo_robot/db.py:346-355 | the ids of the rows with that entity id and type |
| ReminderStore.AtMostOnePreference | Remindo_robot/db.py:333-344 | with unique (entity_id, entity_type) keys there is at most one row per entity and type |
| ReminderStore.TimezonePreference | Remindo_robot/db.py:346-355 | the stored timezone, or Asia/Tashkent when there is no row |
| ReminderStore.TimezonePreferenceOfRow | Remindo_robot/db.py:346-355 | the lookup of a stored row's entity returns that row's timezone |
| ReminderStore.UpsertValid | Remindo_robot/db.py:333-344 | the upsert keeps the key unique and the ids below the sequence |
| ReminderStore.Upsert | Remindo_robot/db.py:333-344 | the insert or update of save_timezone_preference; UpsertValid, UpsertThenGet and UpsertOther state it |
| ReminderStore.UpsertThenGet | Remindo_robot/db.py:333-355 | after saving, get returns the value saved |
| ReminderStore.UpsertOther | Remindo_robot/db.py:333-355 | saving leaves every other entity's or type's preference as it was |
| ReminderStore.AllPreferences | Remindo_robot/db.py:357-362 | every table row appears and nothing else does |
| ReminderStore.Updated | Remindo_robot/db.py:230-312 | True iff some field was given and the row is the user's; then only that row is patched; otherwise nothing changes |
| ReminderStore.Deleted | Remindo_robot/db.py:219-228 | True iff the row is the user's; exactly that row is removed; afterwards get returns None |
| ReminderStore.AdminDeleted | Remindo_robot/db.py:411-420 | True iff the row is in the chat; exactly that row is removed; afterwards the admin get returns None |
| ReminderStore.MarkedSent | Remindo_robot/db.py:155-164 | mark_reminder_sent on the table; MarkedSentPending states its effect |
| ReminderStore.MarkedSentPending | Remindo_robot/db.py:155-164 | a one-time row becomes sent and leaves the pending list; a recurring row and all other rows are unchanged |
| ReminderStore.UpdatedOwned | Remindo_robot/db.py:230-312 | on the owner's row a non-empty patch is written and True returned |
| ReminderStore.OtherOwnerUntouched | Remindo_robot/db.py:200-228 | another user's reminder is neither updated nor deleted, and False is returned |
| ReminderStore.Store.AddReminder | Remindo_robot/db.py:96-141 | a new unsent row under the next id, with job_id as given |
| ReminderStore.Store.Update | Remindo_robot/db.py:230-312 | the table and result are those of Updated |
| ReminderStore.Store.Delete | Remindo_robot/db.py:219-228 | the table and result are those of Deleted |
| ReminderStore.Store.AdminDelete | Remindo_robot/db.py:411-420 | the table and result are those of AdminDeleted |
| ReminderStore.Store.MarkSent | Remindo_robot/db.py:155-164 | the table is MarkedSent of the old table |
| ReminderStore.Store.SaveTimezonePreference | Remindo_robot/db.py:333-344 | the preferences are the upsert of the old ones; returns True |
| Ordering.Query | Remindo_robot/db.py:143-153 | the selected ids, each once, all of them, sorted by rank |
| NotesStore.UserNotes | Remindo_robot/notes_db.py:98-125 | exactly the user's notes in the chat whose topic equals the one given (NULL when none is given), newest created_at first |
| NotesStore.ForumGeneralNotes | Remindo_robot/notes_db.py:127-158 | exactly the user's notes in the chat with topic NULL, 0 or 1, newest first |
| NotesStore.NoteById | Remindo_robot/notes_db.py:173-182 | Some(row) iff the note exists and belongs to the user |
| NotesStore.NoteCount | Remindo_robot/notes_db.py:246-260 | get_note_count; CountIsListingLength ties it to the listing |
| NotesStore.CountIsListingLength | Remindo_robot/notes_db.py:246-260 | get_note_count equals the length of get_user_notes for the same user, chat and topic |
| NotesStore.NoTopicIsNullOnly | Remindo_robot/notes_db.py:112-120 | with no topic only NULL-topic notes are listed; they are in the forum general listing, which also holds topics 0 and 1 |
| NotesStore.SearchNotes | Remindo_robot/notes_db.py:222-244 | exactly the scoped notes whose text, title or description matches '%term%' under ILIKE, newest first |
| NotesStore.PlainSearch | Remindo_robot/notes_db.py:224 | for a term without %, _ or backslash, '%term%' matches exactly the strings containing the term, ignoring case |
| NotesStore.PlainPrefix | Remindo_robot/notes_db.py:224 | a plain term at the head of a pattern matches its own length of characters, ignoring case |
| NotesStore.PercentPrefix | Remindo_robot/notes_db.py:224 | a leading % lets the rest match any suffix |
| NotesStore.ILike | Remindo_robot/notes_db.py:222-244 | ILIKE with % and _ wildcards and backslash escapes; PercentMatchesAll, PlainSearch and SearchFindsPlainTerm state what it matches |
| NotesStore.PercentMatchesAll | Remindo_robot/notes_db.py:224 | % alone matches every string |
| NotesStore.SearchFindsPlainTerm | Remindo_robot/notes_db.py:222-244 | a plain term finds a note iff it is in scope and its text, non-NULL title or non-NULL description contains the term, ignoring case |
| NotesStore.SearchWithinListing | Remindo_robot/notes_db.py:222-244 | every search hit is in the listing of the same scope |
| NotesStore.NoteUpdated | Remindo_robot/notes_db.py:195-220 | True iff a title or description was given and the note is the user's; no other row changes; on False nothing changes |
| NotesStore.UpdateChangesOnlyGiven | Remindo_robot/notes_db.py:195-220 | an update that went through changes only the given columns and updated_at |
| NotesStore.NoteDeleted | Remindo_robot/notes_db.py:184-193 | True iff the note is the user's; exactly that row is removed; afterwards get_note_by_id returns None |
| NotesStore.AddedNoteReadsBack | Remindo_robot/notes_db.py:85-96 | a note added under the fresh id reads back with its owner; every other read is as before |
| NotesStore.AddedNoteListed | Remindo_robot/notes_db.py:85-125 | a new note appears in its own topic's listing only, and the other ids of every listing stay |
| NotesStore.NoteStore.AddNote | Remindo_robot/notes_db.py:85-96 | a new row under the next id, which is returned |
| NotesStore.NoteStore.DeleteNote | Remindo_robot/notes_db.py:184-193 | the table and result are those of NoteDeleted |
| NotesStore.NoteStore.UpdateNote | Remindo_robot/notes_db.py:195-220 | the table and result are those of NoteUpdated |
| Scheduling.Bind | Remindo_robot/bot.py:2346 | three to five positional arguments bind to schedule_reminder, the missing ones None; any other count fails |
| Scheduling.Add | Remindo_robot/bot.py:597-602 | add_job: a fresh id for a job the scheduler accepts, otherwise the raised error; AddIssued states it |
| Scheduling.AddIssued | Remindo_robot/bot.py:597-602 | add_job keeps every existing job, and a returned id is new |
| Scheduling.RemoveAll | Remindo_robot/bot.py:745-751 | removing a list of ids drops exactly those that were present |
| Scheduling.FanOutKeeps | Remindo_robot/bot.py:1554-1563 | a fan-out keeps every job that was there |
| Scheduling.FanOut | Remindo_robot/bot.py:1554-1563 | the per-day add_job loop, stopping at the first rejected day; FanOutSucceedsIff, FanOutIds, FanOutJobsAdded and FanOutStopsAt state it |
| Scheduling.FanOutSucceedsIff | Remindo_robot/bot.py:1554-1563 | the fan-out succeeds iff every day is accepted |
| Scheduling.FanOutIds | Remindo_robot/bot.py:1554-1563 | a successful fan-out returns the next k fresh ids in order |
| Scheduling.FanOutJobsAdded | Remindo_robot/bot.py:1554-1563 | the i-th day's cron job is stored under the i-th id |
| Scheduling.FanOutAccepted | Remindo_robot/bot.py:1554-1563 | for accepted days the fan-out adds exactly one job per day |
| Scheduling.FanOutDistinct | Remindo_robot/bot.py:1554-1563 | the ids of a fan-out are distinct |
| Scheduling.FanOutIdsFresh | Remindo_robot/bot.py:1554-1563 | none of the fan-out's ids was in the store before |
| Scheduling.FanOutStopsAt | Remindo_robot/bot.py:1554-1563 | once a day is rejected, the rest of the loop changes nothing more |
| Scheduling.JobScheduler.AddJob | Remindo_robot/bot.py:597-602 | the store and result are those of Add |
| Scheduling.JobScheduler.RemoveJob | Remindo_robot/bot.py:746-751 | removes the job if present; False if it was missing |
| Scheduling.JobScheduler.RemoveJobs | Remindo_robot/bot.py:745-751 | the store becomes RemoveAll of the ids |
| Scheduling.JobScheduler.FanOutJobs | Remindo_robot/bot.py:1554-1563 | the store and ids are those of FanOut |
| Recurrence.ParseRecurrence | Remindo_robot/bot.py:245-254 | parse_recurrence: the daily pattern first, then the weekly one with its day in WEEKDAYS, else None; its result on every text is stated by ParseDailyIff, ParseWeeklyIff and ParseNoneIff |
| Recurrence.TimeTokenIff | Remindo_robot/bot.py:247 | a time token is found iff one or two decimal digits of any script, a colon and two digits occur followed by whitespace or the end, and it is that text |
| Recurrence.PrefixesExclusive | Remindo_robot/bot.py:245-254 | no text starts with both prefixes |
| Recurrence.ParseDailyIff | Remindo_robot/bot.py:247-249 | a daily rule with a time iff the daily pattern matches with that time |
| Recurrence.DailyArabicIndic | Remindo_robot/bot.py:246-248 | "every day at ١٢:٣٠ call" is a daily rule at "١٢:٣٠", as \d matches those digits |
| Recurrence.ParseWeeklySound | Remindo_robot/bot.py:251-253 | a weekly rule comes from a weekly match whose lowered word is a weekday |
| Recurrence.ParseWeeklyComplete | Remindo_robot/bot.py:251-253 | a weekly match with a weekday word gives the weekly rule |
| Recurrence.ParseWeeklyIff | Remindo_robot/bot.py:251-253 | both directions of the weekly case |
| Recurrence.ParseNoneIff | Remindo_robot/bot.py:245-254 | None iff neither pattern matches with a weekday word |
| BotHelpers.TopicOf | Remindo_robot/bot.py:86-110 | get_topic_info; exactly when it finds a topic, and its name, is stated by TopicOfIff |
| BotHelpers.TopicOfIff | Remindo_robot/bot.py:86-110 | a topic iff the message has a truthy thread id in a forum with negative id and the thread is not 1; its name is "Topic #id" |
| BotHelpers.TopicNameInjective | Remindo_robot/bot.py:106 | different topic ids have different names |
| BotHelpers.AbbrevFullNameInverse | Remindo_robot/bot.py:1519-1527 | the two weekday maps are inverse on the seven days |
| BotHelpers.DaysStringRoundTrip | Remindo_robot/bot.py:1549-1550 | the stored days string reads back, when editing starts, as the same weekday selection |
| BotHelpers.ToggledMembers | Remindo_robot/bot.py:1678-1684 | a toggle flips the day's membership and leaves the other days alone |
| BotHelpers.ToggleTwice | Remindo_robot/bot.py:1678-1684 | pressing an unselected day twice restores the list |
| BotHelpers.AllDaysSelected | Remindo_robot/bot.py:1533 | a duplicate-free weekday selection has seven entries iff all days are selected |
| BotHelpers.DayPicker.Toggle | Remindo_robot/bot.py:1669-1684 | the selection becomes Toggled of the old one |
| BotHelpers.DayPicker.SelectAll | Remindo_robot/bot.py:1644-1653 | the selection becomes the seven days in order |
| BotHelpers.PrevMonth | Remindo_robot/bot.py:288-294 | the month index goes down by one, month in 1..12 |
| BotHelpers.NextMonth | Remindo_robot/bot.py:298-304 | the month index goes up by one, month in 1..12 |
| BotHelpers.PrevNextInverse | Remindo_robot/bot.py:288-305 | back then forward is the same month |
| BotHelpers.CalendarRoundTrip | Remindo_robot/bot.py:295-305 | the navigation handler reads back the month the button encodes |
| BotHelpers.CheckTime | Remindo_robot/bot.py:1294-1337 | the one-time wizard's time check: a text with a colon and no am/pm word goes to the HH:MM branch, an am/pm text is classified as such, anything else is invalid; CheckTimeSound, CheckTimeOfDigits and CheckTimeOfValues state what it accepts |
| BotHelpers.CheckTimeSound | Remindo_robot/bot.py:1297-1305 | an accepted time is HH:MM with hour 0..23 and minute 0..59 |
| BotHelpers.CheckTimeComplete | Remindo_robot/bot.py:1297-1305 | every hour and minute typed as H:M is accepted and normalised |
| BotHelpers.CheckTimeOfValues | Remindo_robot/bot.py:1297-1305 | decimal digits of any script, a colon and digits whose values are an hour 0..23 and a minute 0..59 are accepted as that HH:MM, the converse of CheckTimeSound |
| BotHelpers.CheckTimeOfDigits | Remindo_robot/bot.py:1297-1305 | decimal digits, a colon and decimal digits are read as int() of each side, accepted exactly when both are in range and rejected otherwise |
| BotHelpers.CheckTimeArabicIndic | Remindo_robot/bot.py:1297-1305 | "١٢:٣٠", twelve thirty in Arabic-Indic digits, is accepted as 12:30, as int() reads those digits |
| BotHelpers.CheckTimeIdempotent | Remindo_robot/bot.py:1297-1305 | an accepted normalised time is accepted again as itself |
| NotesBot.CleanChatIdIs | Remindo_robot/notes_bot.py:26 | removing "-100" from str(chat_id) strips only a supergroup id's prefix |
| NotesBot.MessageLink | Remindo_robot/notes_bot.py:17-30 | the message link builder; every form it returns is stated by MessageLinkShape |
| NotesBot.MessageLinkShape | Remindo_robot/notes_bot.py:17-30 | the username form, the /c/ form, and "?thread=" appended exactly for a truthy topic |
| NotesBot.NoteTopicOf | Remindo_robot/notes_bot.py:71-94 | the notes bot's topic detection; exactly when it finds a topic is stated by NoteTopicOfIff |
| NotesBot.NoteTopicOfIff | Remindo_robot/notes_bot.py:71-94 | a topic iff thread attribute, forum with negative id, is_topic_message, thread not in {None,0,1} and not the message id |
| NotesBot.NoteTopicRefinesReminderTopic | Remindo_robot/notes_bot.py:71-94 | whenever the notes rule finds a topic, the reminders rule finds the same |
| NotesBot.TopicRulesDiffer | Remindo_robot/bot.py:86-110 | a concrete message is a topic for reminders and not for notes |
| Timezones.Resolve | Remindo_robot/bot.py:56-84 | get_user_timezone over the two caches and the store; PersonalTimezoneWins, WithoutOverride and CachedIgnoresStore state its result |
| Timezones.PersonalTimezoneWins | Remindo_robot/bot.py:63-72 | a personal timezone other than Asia/Tashkent wins in every chat type |
| Timezones.WithoutOverride | Remindo_robot/bot.py:74-84 | without an override, a group gets its chat timezone (Asia/Tashkent by the store default, UTC only if empty) and a private chat gets Asia/Tashkent |
| Timezones.CachesGrowWithoutDefaults | Remindo_robot/bot.py:64-80 | the caches only grow and never gain Asia/Tashkent as a user's or UTC as a chat's value |
| Timezones.CachedIgnoresStore | Remindo_robot/bot.py:64-80 | once cached, the store is not consulted and the caches stay |
| Timezones.LoadedUntouched | Remindo_robot/bot.py:46-54 | an entity without a row of that type keeps its cache entry |
| Timezones.LoadedAgrees | Remindo_robot/bot.py:46-54 | an entity whose rows all carry t ends with t |
| Timezones.LoadMatchesStore | Remindo_robot/bot.py:46-54 | after loading, each stored entity is cached with what get_timezone_preference returns |
| Timezones.Resolver.LookupUser | Remindo_robot/bot.py:64-68 | result and user cache as UserLookup and UserCacheAfter |
| Timezones.Resolver.LookupChat | Remindo_robot/bot.py:76-80 | result and chat cache as ChatLookup and ChatCacheAfter |
| Timezones.Resolver.GetUserTimezone | Remindo_robot/bot.py:56-84 | the result is Resolve and the caches are the lookups' caches |
| Timezones.Resolver.LoadTimezonePreferences | Remindo_robot/bot.py:46-54 | each cache is the old one with every row of its type written in order |
| Handlers.AfterFirst | Remindo_robot/bot.py:594 | rest.split(t, 1)[1]: the text after the first occurrence of a non-empty separator, with no occurrence before it; None exactly when the separator is empty or absent, where Python raises |
| Handlers.AbbrevAccepted | Remindo_robot/bot.py:1549 | a weekday's abbreviation is a day_of_week the cron trigger accepts |
| Handlers.FullNameRejected | Remindo_robot/bot.py:615 | a full weekday name is not accepted |
| Handlers.SelectionAccepted | Remindo_robot/bot.py:1549-1563 | a selection's abbreviations all pass the fan-out |
| Handlers.WeekdayReadsBack | Remindo_robot/bot.py:889-898 | an abbreviation is accepted and maps back to its weekday |
| Handlers.ScheduleOneAdds | Remindo_robot/bot.py:597-604 | an accepted add_job stores the job and writes its id to the row, which reads back as that id |
| Handlers.ScheduleOneRejected | Remindo_robot/bot.py:597-604 | a rejected add_job changes nothing |
| Handlers.ScheduleAllAdds | Remindo_robot/bot.py:1554-1566 | a fan-out over accepted days adds one job per day and writes the joined ids, which read back as those ids |
| Handlers.JobIdStamped | Remindo_robot/bot.py:604 | writing a job id changes only job_id and updated_at |
| Handlers.CreateScheduledAdds | Remindo_robot/bot.py:1481-1484 | a created row with an accepted trigger gets exactly one new job, whose id is its job_id |
| Handlers.CreateScheduledRejected | Remindo_robot/bot.py:1481-1484 | with a rejected trigger the row keeps a NULL job_id and no job is added |
| Handlers.RemindDaily | Remindo_robot/bot.py:591-604 | the daily branch of /remind and of the wizard; RemindDailySchedules states its row and job |
| Handlers.RemindCommand | Remindo_robot/bot.py:590-621 | the recurring branch of /remind (weekly form corrected); RemindCommandDaily states the daily form |
| Handlers.RemindDailySchedules | Remindo_robot/bot.py:591-604 | a daily reminder gets one row and, in range, one every-day cron job named by its job_id |
| Handlers.RemindOnce | Remindo_robot/bot.py:672-686 | a one-time reminder, refused when its instant is before now; RemindOnceSchedules and PastTimeChangesNothing state it |
| Handlers.PastTimeChangesNothing | Remindo_robot/bot.py:672-675 | an instant before now changes nothing: /remind, the wizard's message step (lines 1471-1475) and the one-time time edit (lines 988-992) write no row and add or remove no job |
| Handlers.RemindOnceSchedules | Remindo_robot/bot.py:672-686 | a one-time reminder is refused exactly when its instant is before now; otherwise it gets one date job at its instant with its text, id and topic, named by its job_id |
| Handlers.RemindWeeklyDayAsWrittenRejected | Remindo_robot/bot.py:606-621 | as written, /remind's weekly form never schedules a job |
| Handlers.AfterFirstAt | Remindo_robot/bot.py:594 | where the separator first occurs at k, the result is the text from k plus its length |
| Handlers.DailyMessageAfterTime | Remindo_robot/bot.py:594 | the matched daily time has no earlier occurrence in the text, so the message is what follows the match |
| Handlers.ClockFieldsOfTime | Remindo_robot/bot.py:595 | the matched H:MM or HH:MM text is read as int() of the digits on each side of the colon |
| Handlers.RemindCommandDaily | Remindo_robot/bot.py:590-604 | "every day at H:MM text" makes a daily reminder with the stripped text after the time |
| Handlers.OnDaySchedules | Remindo_robot/bot.py:606-621 | a weekly reminder on an accepted day gets one cron job on that day named by its job_id |
| Handlers.RemindWeekly | Remindo_robot/bot.py:1546-1566 | the wizard with fewer than seven days; RemindWeeklyRows and RemindWeeklyJobs state its row and jobs |
| Handlers.RemindRecurring | Remindo_robot/bot.py:1497-1579 | the recurring wizard's message step: daily for seven days, weekly otherwise; TextInputWithinLimit and the RemindDaily and RemindWeekly lemmas state it |
| Handlers.RemindWeeklyRows | Remindo_robot/bot.py:1546-1566 | the row stores the joined abbreviations and the joined job ids |
| Handlers.RemindWeeklyJobs | Remindo_robot/bot.py:1546-1566 | the new jobs are one cron job per selected day's abbreviation, under exactly the ids stored on the row |
| Handlers.EditMessage | Remindo_robot/bot.py:740-842 | the message edit; EditMessageOwned, EditMessageDaily, EditMessageFansOut, EditMessageOnce and EditByOtherUser state it |
| Handlers.Reschedule | Remindo_robot/bot.py:762-842 | the jobs the message edit re-adds from the updated row; RescheduleSameMessages and the EditMessage lemmas state them |
| Handlers.EditMessageOwned | Remindo_robot/bot.py:745-758 | the stored jobs go, the text is written, and jobs are re-added from the updated row |
| Handlers.EditMessageDaily | Remindo_robot/bot.py:782-791 | a daily message edit leaves one cron job with the new text, named by the row |
| Handlers.EditMessageWeeklyOne | Remindo_robot/bot.py:808-817 | a single-day weekly edit leaves one cron job on that day with the new text |
| Handlers.EditMessageFansOut | Remindo_robot/bot.py:794-806 | a multi-day weekly edit is the fan-out over the re-split days |
| Handlers.EditMessageWeeklyManyRows | Remindo_robot/bot.py:794-806 | the row gets the new text and the joined ids of the new jobs |
| Handlers.EditMessageWeeklyManyJobs | Remindo_robot/bot.py:794-806 | one cron job per re-split day with the new text, all live and named by the row |
| Handlers.EditMessageOnce | Remindo_robot/bot.py:822-838 | a one-time message edit leaves one date job at the stored instant with the new text and the topic |
| Handlers.WizardDaysResplit | Remindo_robot/bot.py:795-796 | a wizard days string re-splits into the days' abbreviations |
| Handlers.EditByOtherUser | Remindo_robot/bot.py:745-758 | another user's edit writes nothing to the row; the stored jobs are already gone |
| Handlers.EditRecurringTime | Remindo_robot/bot.py:867-953 | the recurring days-and-time edit; EditRecurringDailyOwned, EditRecurringTimeDaily and EditRecurringWeeklyOwned state it |
| Handlers.EditRecurringDailyOwned | Remindo_robot/bot.py:867-912 | seven days: jobs removed, time and type written, one cron job added |
| Handlers.EditRecurringTimeDaily | Remindo_robot/bot.py:900-912 | seven days make the reminder daily with one job; the old day_of_week stays |
| Handlers.EditRecurringWeeklyOwned | Remindo_robot/bot.py:921-940 | fewer days: jobs removed, type and days written, fan-out over the abbreviations |
| Handlers.EditRecurringTimeWeeklyRows | Remindo_robot/bot.py:921-940 | the row stores the joined abbreviations and the new jobs' ids |
| Handlers.EditOnceTime | Remindo_robot/bot.py:988-1015 | the one-time time edit, corrected to keep the topic; EditOnceOwned, EditOnceTimeSchedules and PastTimeChangesNothing state it |
| Handlers.EditOnceTimeAsWritten | Remindo_robot/bot.py:988-1012 | the one-time time edit as written; EditOnceTimeAsWrittenDropsTopic states what it does |
| Handlers.EditOnceOwned | Remindo_robot/bot.py:988-1015 | a time before now changes nothing; otherwise the new time is written, the stored jobs go, one date job is added |
| Handlers.EditOnceTimeSchedules | Remindo_robot/bot.py:988-1015 | corrected: a time before now changes nothing; otherwise one date job at the new instant delivered to the reminder's topic, named by the row |
| Handlers.EditOnceTimeAsWrittenDropsTopic | Remindo_robot/bot.py:988-1012 | as written: a time before now changes nothing; otherwise the new date job is delivered with topic None |
| Handlers.DeleteButton | Remindo_robot/bot.py:1840-1858 | the delete button; DeleteButtonEffect states its effect |
| Handlers.DeleteButtonEffect | Remindo_robot/bot.py:1840-1859 | the row and its jobs go iff the row is the user's; every other job stays |
| Handlers.DeleteCommand | Remindo_robot/bot.py:2646-2676 | /delete; DeleteCommandEffect states its effect |
| Handlers.DeleteCommandEffect | Remindo_robot/bot.py:2650-2674 | deletes iff the reminder is the user's and in the current chat |
| Handlers.TextInput | Remindo_robot/bot.py:698-712 | handle_reminder_text_input's limit and its three text steps; TextInputWithinLimit and PastTimeChangesNothing state it |
| Handlers.TextInputWithinLimit | Remindo_robot/bot.py:698-712 | typed text over 4000 characters changes nothing, not even a message edit's job removal; any message the handler writes is the typed text, within the limit |
| Handlers.AdminDelete | Remindo_robot/bot.py:2250-2267 | the admin delete; AdminDeleteEffect states its effect |
| Handlers.AdminDeleteEffect | Remindo_robot/bot.py:2250-2267 | the row and its jobs go iff the reminder is in the admin's chat |
| Reconciliation.ExpectedDays | Remindo_robot/bot.py:2388 | no expected days iff day_of_week is empty |
| Reconciliation.ReconcileRow | Remindo_robot/bot.py:2367-2490 | one pending row's handling; ReconcileRowKeeps states what it may change |
| Reconciliation.ReconcileRowKeeps | Remindo_robot/bot.py:2369-2490 | one row keeps the tables consistent and changes at most its own job_id and updated_at |
| Reconciliation.ReconcileAll | Remindo_robot/bot.py:2367-2490 | the pending rows handled in order; ReconcileAllStep and ReconcileAllKeeps state it |
| Reconciliation.ReconcileAllStep | Remindo_robot/bot.py:2367-2490 | handling one more pending row is ReconcileRow on the state the earlier rows left |
| Reconciliation.ReconcileAllKeeps | Remindo_robot/bot.py:2369-2490 | the pass changes no row outside the list and only job ids inside it |
| Reconciliation.ReconcileKeepsSent | Remindo_robot/bot.py:2368 | sent one-time reminders are untouched |
| Reconciliation.ReconcileDaily | Remindo_robot/bot.py:2415-2425 | the daily branch (as written and corrected); DailyLiveSkipped, DailyAsWrittenNotRestored and DailyRestored state it |
| Reconciliation.DailyLiveSkipped | Remindo_robot/bot.py:2382-2385 | a daily reminder with a live stored job is untouched |
| Reconciliation.ReconcileWeekly | Remindo_robot/bot.py:2426-2452 | the weekly branch (as written and corrected); WeeklyLiveSkipped, WeeklyAsWrittenOrphans and WeeklyRestored state it |
| Reconciliation.WeeklyLiveSkipped | Remindo_robot/bot.py:2386-2394 | a weekly reminder whose ids are all live and as many as its days is untouched |
| Reconciliation.ReconcileOnce | Remindo_robot/bot.py:2455-2487 | the one-time branch; PastOnceSkipped and FutureOnceRescheduled state it |
| Reconciliation.PastOnceSkipped | Remindo_robot/bot.py:2455-2487 | a past one-time reminder is untouched |
| Reconciliation.FutureOnceRescheduled | Remindo_robot/bot.py:2463-2484 | a future one-time reminder ends with exactly one new date job and its old live job removed |
| Reconciliation.DailyAsWrittenNotRestored | Remindo_robot/bot.py:2417-2425 | as written a missing daily job is never restored |
| Reconciliation.DailyRestored | Remindo_robot/bot.py:2417-2425 | corrected, one every-day cron job is added and named by the row |
| Reconciliation.DailyRestoredStable | Remindo_robot/bot.py:2382-2385 | a second pass changes nothing |
| Reconciliation.WeeklyAsWrittenOrphans | Remindo_robot/bot.py:2386-2441 | as written a still-live stored job survives unnamed by the row |
| Reconciliation.WeeklyRestored | Remindo_robot/bot.py:2426-2452 | corrected, one live job per day and no old job survives unnamed |
| Reconciliation.WeeklyRestoredStable | Remindo_robot/bot.py:2386-2394 | a second pass changes nothing |
| Delivery.Backoff | Remindo_robot/bot.py:2322-2324 | count delays, the i-th being base^(from+i) |
| Delivery.DecidedAt | Remindo_robot/bot.py:2299-2340 | the first decisive attempt k: k+1 sends, sleeps base^j for j < k, True iff it delivered |
| Delivery.NeverDecided | Remindo_robot/bot.py:2330-2340 | all-transient: every attempt made, no sleep after the last, False |
| Delivery.Attempts | Remindo_robot/bot.py:2299-2344 | the retry loop from one attempt on; DecidedAt and NeverDecided state its attempts, sleeps and result |
| Delivery.Delivery | Remindo_robot/bot.py:2290-2344 | send_reminder's result, attempt count and sleeps; DeliveryBounds and TopicClosedFirst state them |
| Delivery.DeliveryBounds | Remindo_robot/bot.py:2299-2344 | at most max_retries sends, one sleep fewer than sends, True iff some attempt delivers after only transient failures |
| Delivery.TopicClosedFirst | Remindo_robot/bot.py:2315-2319 | a closed topic on the first attempt: False, one send, no sleep |
| Delivery.SendReminder | Remindo_robot/bot.py:2290-2344 | result, sends and sleeps are Delivery's; the row is marked sent only after a delivery with an id |
| Engine.Bot.ScheduleJob | Remindo_robot/bot.py:597-604 | the state becomes Handlers.ScheduleOne of the old state |
| Engine.Bot.ScheduleDays | Remindo_robot/bot.py:1554-1566 | the state becomes Handlers.ScheduleAll |
| Engine.Bot.CreateScheduled | Remindo_robot/bot.py:1481-1484 | the state and id are those of Handlers.CreateScheduled |
| Engine.Bot.RemindWeekly | Remindo_robot/bot.py:1546-1566 | the state and id are those of Handlers.RemindWeekly |
| Engine.Bot.Reschedule | Remindo_robot/bot.py:762-842 | the state becomes Handlers.Reschedule |
| Engine.Bot.EditMessage | Remindo_robot/bot.py:745-842 | the state becomes Handlers.EditMessage |
| Engine.Bot.EditRecurringTime | Remindo_robot/bot.py:867-940 | the state becomes Handlers.EditRecurringTime |
| Engine.Bot.EditOnceTime | Remindo_robot/bot.py:988-1015 | the state becomes Handlers.EditOnceTime: nothing for a time before now |
| Engine.Bot.DeleteButton | Remindo_robot/bot.py:1840-1859 | the state and result are those of Handlers.DeleteButton |
| Engine.Bot.DeleteCommand | Remindo_robot/bot.py:2650-2674 | the state and result are those of Handlers.DeleteCommand |
| Engine.Bot.AdminDelete | Remindo_robot/bot.py:2250-2267 | the state and result are those of Handlers.AdminDelete |
| Engine.Bot.ScheduleJobIfChanged | Remindo_robot/bot.py:2417-2452 | the state becomes Reconciliation.ScheduleOneIfChanged: add_job, and the new id written unless the row already holds it |
| Engine.Bot.ReconcileRow | Remindo_robot/bot.py:2369-2490 | the state becomes Reconciliation.ReconcileRow (corrected) |
| Engine.Bot.Reconcile | Remindo_robot/bot.py:2367-2490 | the state becomes Reconciliation.Reconcile (corrected) |
| Common.SplitJoin | Remindo_robot/db.py:322-331 | splitting a join of comma-free parts gives the parts |
| Common.JoinSplit | Remindo_robot/bot.py:1566 | joining a split gives the string back |
| Common.PyIntRoundTrip | Remindo_robot/bot.py:1836-1837 | int(str(n)) == n |

## Left out

- Telegram I/O: keyboards, reply texts, `/start`, `/help`, list rendering and
  the admin permission check. These are user interface and network calls.
- The hand-off over the event loop (`schedule_reminder`, bot.py:2346-2365,
  `asyncio.run_coroutine_threadsafe`) is concurrency. A fired job is
  modelled as a direct call to the delivery loop.
- Clocks are parameters (`now`, and an instant for every `remind_time`). The
  sleeps of the delivery loop are recorded, not slept.
- `REMINDER_MAX_RETRIES` and `REMINDER_RETRY_DELAY_BASE` come from `config`,
  which is not part of this model. They are parameters of the delivery loop.
- pytz / dateparser / dateutil:
  - the timezone string is passed to the trigger as it is, with no fallback
    to UTC for an unknown name;
  - the am/pm form of a typed time is only classified as such;
  - `add_reminder`'s HH:MM-to-today conversion (db.py:101-132) is not
    modelled;
  - nor is `update_reminder`'s conversion of a recurring reminder's HH:MM
    remind_time to today's timestamp in the row's timezone (db.py:243-283).
    An update stores the given Stamp unchanged;
  - reconciliation's parsing of `remind_time` and its "skip on a parse
    failure" branch (bot.py:2396-2413) are not modelled, because a Stamp
    always carries an hour and a minute.
  - the one-time time text of `/remind` is resolved by dateparser, and a
    bare H:MM that is already past is rolled on to today or tomorrow
    (bot.py:640-671). The model takes the resolved instant as the Stamp, so
    the past check of bot.py:672-675 compares that instant with `now`.
- APScheduler: only the checks it makes when a job is added are modelled.
  Job ids come from a counter instead of `uuid4`. Trigger evaluation and job
  persistence are not modelled.
- SQL: connections and DDL are not modelled. The order of rows with equal
  rank, which SQL leaves open, is fixed by ascending id.
- Case folding is ASCII only, in ILIKE and in the recurrence prefixes.
- The regex class `\w` is modelled with ASCII letters and Unicode digits.
  For the weekday rule this gives the same result as Python's Unicode
  letters, as the doc of `Recurrence.IsWordChar` argues.
- BotHelpers.CheckTime: checks the text only. The wizard's time step also
  refuses a date and time before now (bot.py:1306-1325). That needs the
  picked date in the user's timezone, which pytz supplies. The past check
  that decides whether a row is written is the message step's
  (bot.py:1471-1475), and `Handlers.RemindOnce` models it.
- A LIKE pattern ending in a lone backslash is an error in PostgreSQL. In
  `NotesStore.ILike` it matches nothing. `search_notes` never builds such a
  pattern, because its pattern always ends in `%`.
- Operations the core does not use: `get_all_user_notes_in_chat`, the note
  category tables and `get_topic_name`.
- Handlers that are never registered, and the unreachable duplicate of the
  recurring-time edit branch (bot.py:1030-1271).
- Reconciliation reads each row from the current table rather than from the
  `get_pending_reminders` snapshot. The two agree, because each id is
  handled once and a row is changed only while it is being handled.
- The Engine methods run the corrected versions of the four
  findings below. The as-written versions are functions, and lemmas state
  what they do.
- Handlers.EditRecurringTimeWeeklyRows: states the new row only. The new
  jobs follow from Handlers.ScheduleAllAdds, applied through
  Handlers.EditRecurringWeeklyOwned.
- NotesStore.NoteCount counts over the whole table. The listings only look
  at ids below the sequence. The two agree on every table whose ids were
  handed out by the sequence, the only case CountIsListingLength states.

## Findings

| source | as written | input that shows it | evidently intended | confidence | as-written member | corrected member |
|---|---|---|---|---|---|---|
| Remindo_robot/bot.py:2417-2422 | the daily reconciliation job gets `[application, chat_id, message, None, reminder_id, topic_id]`, six arguments for a five-parameter callback, so add_job raises and the exception handler skips the row | a daily reminder whose stored job is no longer in the job store | the five arguments the other branches pass, so the job is restored | not executed | Reconciliation.ReconcileDaily, Reconciliation.DailyAsWrittenNotRestored | Reconciliation.DailyRestored, Reconciliation.DailyRestoredStable |
| Remindo_robot/bot.py:2386-2441 | a multi-day weekly reminder that fails the skip check is re-added without removing its stored jobs | a weekly reminder on mon,wed whose stored ids are [a, b] with only a still live | remove the stored ids first, so that every live job is named by the row | not executed | Reconciliation.ReconcileWeekly, Reconciliation.WeeklyAsWrittenOrphans | Reconciliation.WeeklyRestored, Reconciliation.WeeklyRestoredStable |
| Remindo_robot/bot.py:1007-1012 | the one-time time edit schedules the date job with four arguments, without topic_id | a one-time reminder created in forum topic 5, whose time is then edited | the reminder's topic as fifth argument, as at creation | not executed | Handlers.EditOnceTimeAsWritten, Handlers.EditOnceTimeAsWrittenDropsTopic | Handlers.EditOnceTime, Handlers.EditOnceTimeSchedules |
| Remindo_robot/bot.py:606-621 | `/remind every week on monday at 9:00 x` hands the full name "monday" to the cron trigger, which accepts no full weekday name, so add_job raises after the row was written | `every week on monday at 9:00 call mom` | the abbreviation, as the wizard passes | not executed | Handlers.RemindWeeklyDayAsWritten, Handlers.RemindWeeklyDayAsWrittenRejected | Handlers.RemindWeeklyDay, Handlers.WeekdayReadsBack, Handlers.OnDaySchedules |
