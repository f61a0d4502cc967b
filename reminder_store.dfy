/** The reminders and timezone_preferences tables of the bot's database. A table
    is a map from the SERIAL id to the row, with the next id the sequence will
    hand out; the writes are methods on one Store object, the reads are functions
    of the table they read. */
module ReminderStore {
  import opened Common
  import Ordering

  /** A remind_time value: the instant it denotes (seconds) and the hour and
      minute the bot reads back from its text. */
  datatype Stamp = Stamp(instant: int, hour: int, minute: int)

  /** A row of the reminders table; its id is its key in the table. */
  datatype Reminder = Reminder(
    userId: int, chatId: int, topicId: Option<int>, message: string,
    remindTime: Stamp, timezone: string, isSent: bool, isRecurring: bool,
    recurrenceType: Option<string>, dayOfWeek: Option<string>, jobId: Option<string>,
    createdAt: int, updatedAt: int)

  /** A row of the timezone_preferences table. */
  datatype Preference = Preference(entityId: int, entityType: string, timezone: string, createdAt: int)

  /** The value get_timezone_preference falls back to, for every entity type. */
  const DefaultTimezone: string := "Asia/Tashkent"

  /** Every key of the table is an id the sequence has already handed out. */
  predicate IdsBelow<T>(m: map<int, T>, next: int) {
    1 <= next && forall id :: id in m ==> 1 <= id < next
  }

  // ---------------------------------------------------------------------
  // update_reminder: the optional arguments and their effect on a row

  /** The optional arguments of update_reminder; None leaves the column alone. */
  datatype Patch = Patch(message: Option<string>, remindTime: Option<Stamp>,
                         timezone: Option<string>, jobId: Option<string>,
                         recurrenceType: Option<string>, dayOfWeek: Option<string>)
  {
    predicate IsEmpty() {
      message.None? && remindTime.None? && timezone.None? && jobId.None?
      && recurrenceType.None? && dayOfWeek.None?
    }
  }

  /** A patch that sets only job_id. */
  function JobIdPatch(jobId: string): Patch {
    Patch(None, None, None, Some(jobId), None, None)
  }

  function Override<T>(current: T, given: Option<T>): T {
    if given.Some? then given.value else current
  }

  /** The row after update_reminder: every field that was passed replaced, every
      other field kept, updated_at set to the time of the update. */
  function Patched(r: Reminder, p: Patch, now: int): (s: Reminder)
    ensures p.message.None? ==> s.message == r.message
    ensures p.message.Some? ==> s.message == p.message.value
    ensures p.remindTime.None? ==> s.remindTime == r.remindTime
    ensures p.remindTime.Some? ==> s.remindTime == p.remindTime.value
    ensures p.timezone.None? ==> s.timezone == r.timezone
    ensures p.timezone.Some? ==> s.timezone == p.timezone.value
    ensures p.jobId.None? ==> s.jobId == r.jobId
    ensures p.jobId.Some? ==> s.jobId == Some(p.jobId.value)
    ensures p.recurrenceType.None? ==> s.recurrenceType == r.recurrenceType
    ensures p.recurrenceType.Some? ==> s.recurrenceType == Some(p.recurrenceType.value)
    ensures p.dayOfWeek.None? ==> s.dayOfWeek == r.dayOfWeek
    ensures p.dayOfWeek.Some? ==> s.dayOfWeek == Some(p.dayOfWeek.value)
    ensures s.userId == r.userId && s.chatId == r.chatId && s.topicId == r.topicId
    ensures s.isSent == r.isSent && s.isRecurring == r.isRecurring && s.createdAt == r.createdAt
    ensures s.updatedAt == now
  {
    r.(message := Override(r.message, p.message),
       remindTime := Override(r.remindTime, p.remindTime),
       timezone := Override(r.timezone, p.timezone),
       jobId := if p.jobId.Some? then p.jobId else r.jobId,
       recurrenceType := if p.recurrenceType.Some? then p.recurrenceType else r.recurrenceType,
       dayOfWeek := if p.dayOfWeek.Some? then p.dayOfWeek else r.dayOfWeek,
       updatedAt := now)
  }

  // ---------------------------------------------------------------------
  // Reads of the reminders table

  /** The "active" condition: is_sent = FALSE OR is_recurring = TRUE. */
  predicate IsPending(r: Reminder) { !r.isSent || r.isRecurring }

  /** The ORDER BY remind_time key. */
  function RemindRank(r: Reminder): int { r.remindTime.instant }

  /** get_pending_reminders: the ids of the active rows, earliest remind_time first. */
  function Pending(rows: map<int, Reminder>, next: int): (s: seq<int>)
    requires IdsBelow(rows, next)
    ensures Ordering.InTable(rows, s) && Ordering.SortedByRank(rows, RemindRank, s)
    ensures forall k :: k in s <==> k in rows && IsPending(rows[k])
    ensures NoDuplicates(s)
  {
    Ordering.Query(rows, IsPending, RemindRank, next)
  }

  /** The WHERE clause of get_user_reminders: the user's active rows in the
      chat, restricted to one topic when a topic is given. */
  predicate InUserListing(r: Reminder, userId: int, chatId: int, topicId: Option<int>) {
    r.userId == userId && r.chatId == chatId
    && (topicId.Some? ==> r.topicId == topicId) && IsPending(r)
  }

  /** get_user_reminders: with no topic every active row of the user in the
      chat, whatever its topic; with a topic only the rows of that topic. */
  function UserReminders(rows: map<int, Reminder>, next: int, userId: int, chatId: int,
                         topicId: Option<int>): (s: seq<int>)
    requires IdsBelow(rows, next)
    ensures Ordering.InTable(rows, s) && Ordering.SortedByRank(rows, RemindRank, s)
    ensures forall k :: k in s <==> k in rows && InUserListing(rows[k], userId, chatId, topicId)
    ensures NoDuplicates(s)
  {
    Ordering.Query(rows, (r: Reminder) => InUserListing(r, userId, chatId, topicId), RemindRank, next)
  }

  /** get_user_general_topic_reminders: the user's active rows in the chat
      whose topic is NULL. */
  function UserGeneralTopicReminders(rows: map<int, Reminder>, next: int, userId: int,
                                     chatId: int): (s: seq<int>)
    requires IdsBelow(rows, next)
    ensures Ordering.InTable(rows, s) && Ordering.SortedByRank(rows, RemindRank, s)
    ensures forall k :: k in s <==>
              k in rows && InUserListing(rows[k], userId, chatId, None) && rows[k].topicId.None?
    ensures NoDuplicates(s)
  {
    Ordering.Query(rows, (r: Reminder) => InUserListing(r, userId, chatId, None) && r.topicId.None?,
                   RemindRank, next)
  }

  /** get_reminder_by_id: the row, if it exists and belongs to the user. */
  function ById(rows: map<int, Reminder>, id: int, userId: int): (r: Option<Reminder>)
    ensures r.Some? <==> id in rows && rows[id].userId == userId
    ensures r.Some? ==> r.value == rows[id]
  {
    if id in rows && rows[id].userId == userId then Some(rows[id]) else None
  }

  /** get_reminder_by_id_admin: the row, if it exists and is in the chat. */
  function ByIdAdmin(rows: map<int, Reminder>, id: int, chatId: int): (r: Option<Reminder>)
    ensures r.Some? <==> id in rows && rows[id].chatId == chatId
    ensures r.Some? ==> r.value == rows[id]
  {
    if id in rows && rows[id].chatId == chatId then Some(rows[id]) else None
  }

  /** The job ids a job_id value stands for: none for NULL or "", otherwise the
      comma-separated parts. */
  function JobIdsOf(jobId: Option<string>): (ids: seq<string>)
    ensures jobId.None? || jobId == Some("") ==> ids == []
    ensures forall i :: 0 <= i < |ids| ==> ',' !in ids[i]
  {
    if jobId.Some? && jobId.value != "" then Split(jobId.value, ',') else []
  }

  /** get_reminder_job_ids: looked up by id alone, with no owner check. */
  function ReminderJobIds(rows: map<int, Reminder>, id: int): (ids: seq<string>)
    ensures id !in rows ==> ids == []
    ensures id in rows ==> ids == JobIdsOf(rows[id].jobId)
  {
    if id in rows then JobIdsOf(rows[id].jobId) else []
  }

  /** The job_id the bot stores for a list of fresh job ids: ','.join(ids). */
  function StoredJobIds(ids: seq<string>): string { Join(ids, ',') }

  /** Storing ','.join(ids) and reading it back with get_reminder_job_ids gives
      the list back, for ids that are non-empty and free of commas (the empty
      list included: "" reads back as []). */
  lemma {:induction false} JobIdsRoundTrip(ids: seq<string>)
    requires forall i :: 0 <= i < |ids| ==> |ids[i]| >= 1 && ',' !in ids[i]
    ensures JobIdsOf(Some(StoredJobIds(ids))) == ids
  {
    JoinEmpty(ids, ',');
    if |ids| >= 1 {
      SplitJoin(ids, ',');
    }
  }

  // ---------------------------------------------------------------------
  // Reads of the timezone_preferences table

  /** The rows with the given (entity_id, entity_type), by ascending id. */
  function PreferenceIds(prefs: map<int, Preference>, next: int, entityId: int,
                         entityType: string): (s: seq<int>)
    ensures forall i :: 0 <= i < |s| ==>
              s[i] in prefs && 1 <= s[i] < next
              && prefs[s[i]].entityId == entityId && prefs[s[i]].entityType == entityType
    ensures forall k ::
              (1 <= k < next && k in prefs && prefs[k].entityId == entityId
               && prefs[k].entityType == entityType) ==> k in s
    ensures forall i, j :: 0 <= i < j < |s| ==> s[i] < s[j]
  {
    Ordering.Select(prefs, (p: Preference) => p.entityId == entityId && p.entityType == entityType,
                    1, next)
  }

  /** The UNIQUE (entity_id, entity_type) constraint. */
  predicate UniqueKeys(prefs: map<int, Preference>) {
    forall a, b ::
      (a in prefs && b in prefs && prefs[a].entityId == prefs[b].entityId
       && prefs[a].entityType == prefs[b].entityType) ==> a == b
  }

  /** Under the constraint at most one row matches a key. */
  lemma AtMostOnePreference(prefs: map<int, Preference>, next: int, entityId: int, entityType: string)
    requires UniqueKeys(prefs)
    ensures |PreferenceIds(prefs, next, entityId, entityType)| <= 1
  {
    var s := PreferenceIds(prefs, next, entityId, entityType);
    assert forall i :: 0 <= i < |s| ==> s[i] == s[0];
    FirstTwoDiffer(s);
  }

  lemma FirstTwoDiffer(s: seq<int>)
    requires forall i, j :: 0 <= i < j < |s| ==> s[i] < s[j]
    ensures |s| >= 2 ==> s[0] != s[1]
  {
  }

  /** get_timezone_preference: the saved timezone, or Asia/Tashkent. */
  function TimezonePreference(prefs: map<int, Preference>, next: int, entityId: int,
                              entityType: string): (tz: string)
    ensures (forall k :: k in prefs && 1 <= k < next ==>
               !(prefs[k].entityId == entityId && prefs[k].entityType == entityType))
            ==> tz == DefaultTimezone
  {
    var ids := PreferenceIds(prefs, next, entityId, entityType);
    if |ids| == 0 then DefaultTimezone else prefs[ids[0]].timezone
  }

  /** With the constraint, the preference found is the one row of that key. */
  lemma TimezonePreferenceOfRow(prefs: map<int, Preference>, next: int, k: int)
    requires UniqueKeys(prefs) && IdsBelow(prefs, next) && k in prefs
    ensures TimezonePreference(prefs, next, prefs[k].entityId, prefs[k].entityType) == prefs[k].timezone
  {
    var ids := PreferenceIds(prefs, next, prefs[k].entityId, prefs[k].entityType);
    assert k in ids;
  }

  /** The table after save_timezone_preference: the row of the key updated in
      place, or a new row under the next id. The sequence advances in both
      cases, since INSERT ... ON CONFLICT draws its id before the conflict is
      found. */
  function Upsert(prefs: map<int, Preference>, next: int, entityId: int, entityType: string,
                  timezone: string, now: int): (r: (map<int, Preference>, int))
  {
    var ids := PreferenceIds(prefs, next, entityId, entityType);
    var row := Preference(entityId, entityType, timezone, now);
    if |ids| > 0 then (prefs[ids[0] := row], next + 1) else (prefs[next := row], next + 1)
  }

  /** The id of the row a save writes: the existing row of the key, or a new one. */
  function UpsertTarget(prefs: map<int, Preference>, next: int, entityId: int, entityType: string): int {
    var ids := PreferenceIds(prefs, next, entityId, entityType);
    if |ids| > 0 then ids[0] else next
  }

  /** Saving keeps the key constraint and the id bound. */
  lemma UpsertValid(prefs: map<int, Preference>, next: int, entityId: int, entityType: string,
                    timezone: string, now: int)
    requires UniqueKeys(prefs) && IdsBelow(prefs, next)
    ensures UniqueKeys(Upsert(prefs, next, entityId, entityType, timezone, now).0)
    ensures IdsBelow(Upsert(prefs, next, entityId, entityType, timezone, now).0,
                     Upsert(prefs, next, entityId, entityType, timezone, now).1)
  {
    var p2 := Upsert(prefs, next, entityId, entityType, timezone, now).0;
    var ids := PreferenceIds(prefs, next, entityId, entityType);
    var k := UpsertTarget(prefs, next, entityId, entityType);
    assert p2 == prefs[k := Preference(entityId, entityType, timezone, now)];
    forall j | j in p2 && p2[j].entityId == entityId && p2[j].entityType == entityType
      ensures j == k
    {
      AtMostOnePreference(prefs, next, entityId, entityType);
    }
    forall a, b | a in p2 && b in p2 && p2[a].entityId == p2[b].entityId
                  && p2[a].entityType == p2[b].entityType
      ensures a == b
    {
      if !(p2[a].entityId == entityId && p2[a].entityType == entityType) {
        assert a != k && b != k;
        assert prefs[a] == p2[a] && prefs[b] == p2[b];
      }
    }
  }

  /** After a save, the key reads back as the saved timezone. */
  lemma UpsertThenGet(prefs: map<int, Preference>, next: int, entityId: int, entityType: string,
                      timezone: string, now: int)
    requires UniqueKeys(prefs) && IdsBelow(prefs, next)
    ensures var (p2, n2) := Upsert(prefs, next, entityId, entityType, timezone, now);
            TimezonePreference(p2, n2, entityId, entityType) == timezone
  {
    var (p2, n2) := Upsert(prefs, next, entityId, entityType, timezone, now);
    UpsertValid(prefs, next, entityId, entityType, timezone, now);
    var k := UpsertTarget(prefs, next, entityId, entityType);
    assert k in p2 && p2[k] == Preference(entityId, entityType, timezone, now);
    TimezonePreferenceOfRow(p2, n2, k);
  }

  /** A save leaves every other key reading as before. */
  lemma UpsertOther(prefs: map<int, Preference>, next: int, entityId: int, entityType: string,
                    timezone: string, now: int, otherId: int, otherType: string)
    requires UniqueKeys(prefs) && IdsBelow(prefs, next)
    requires (otherId, otherType) != (entityId, entityType)
    ensures var (p2, n2) := Upsert(prefs, next, entityId, entityType, timezone, now);
            TimezonePreference(p2, n2, otherId, otherType)
            == TimezonePreference(prefs, next, otherId, otherType)
  {
    var (p2, n2) := Upsert(prefs, next, entityId, entityType, timezone, now);
    UpsertValid(prefs, next, entityId, entityType, timezone, now);
    var k := UpsertTarget(prefs, next, entityId, entityType);
    assert p2 == prefs[k := Preference(entityId, entityType, timezone, now)];
    var before := PreferenceIds(prefs, next, otherId, otherType);
    var after := PreferenceIds(p2, n2, otherId, otherType);
    if |before| > 0 {
      var j := before[0];
      assert j != k;
      assert j in p2 && p2[j] == prefs[j];
      TimezonePreferenceOfRow(p2, n2, j);
    } else {
      forall j | j in p2 && 1 <= j < n2
        ensures !(p2[j].entityId == otherId && p2[j].entityType == otherType)
      {
        if j != k {
          assert j in prefs && p2[j] == prefs[j];
        }
      }
    }
  }

  /** load_all_timezone_preferences: every row, here in id order (the query
      has no ORDER BY). */
  function AllPreferences(prefs: map<int, Preference>, next: int): (rows: seq<Preference>)
    ensures forall i :: 0 <= i < |rows| ==> rows[i] in prefs.Values
    ensures forall k :: k in prefs && 1 <= k < next ==> prefs[k] in rows
  {
    var ids := Ordering.Select(prefs, (p: Preference) => true, 1, next);
    assert forall k :: k in prefs && 1 <= k < next ==> k in ids;
    RowsOf(prefs, ids)
  }

  /** The rows of a listing of ids, in the listing's order. */
  function RowsOf<T>(m: map<int, T>, ids: seq<int>): (rows: seq<T>)
    requires forall i :: 0 <= i < |ids| ==> ids[i] in m
    ensures |rows| == |ids|
    ensures forall i :: 0 <= i < |ids| ==> rows[i] == m[ids[i]]
  {
    if |ids| == 0 then [] else [m[ids[0]]] + RowsOf(m, ids[1..])
  }

  // ---------------------------------------------------------------------
  // The writes on the reminders table as functions of the table

  /** update_reminder's effect: with at least one field given and a row with that
      id and owner, that row is patched and True returned; otherwise the table is
      left as it was and False returned. No other row changes. */
  function Updated(rows: map<int, Reminder>, id: int, userId: int, p: Patch, now: int)
    : (r: (map<int, Reminder>, bool))
    ensures r.1 <==> !p.IsEmpty() && ById(rows, id, userId).Some?
    ensures r.0.Keys == rows.Keys
    ensures forall k :: k in rows && k != id ==> r.0[k] == rows[k]
    ensures id in rows ==> r.0[id] == if r.1 then Patched(rows[id], p, now) else rows[id]
  {
    if !p.IsEmpty() && id in rows && rows[id].userId == userId
    then (rows[id := Patched(rows[id], p, now)], true)
    else (rows, false)
  }

  /** delete_reminder's effect: the row with that id and owner is removed and True
      returned; any other request removes nothing and returns False. */
  function Deleted(rows: map<int, Reminder>, id: int, userId: int): (r: (map<int, Reminder>, bool))
    ensures r.1 <==> ById(rows, id, userId).Some?
    ensures r.0.Keys == if r.1 then rows.Keys - {id} else rows.Keys
    ensures forall k :: k in r.0 ==> r.0[k] == rows[k]
    ensures ById(r.0, id, userId).None?
  {
    if id in rows && rows[id].userId == userId then (rows - {id}, true) else (rows, false)
  }

  /** admin_delete_reminder's effect: as Deleted, but scoped by chat. */
  function AdminDeleted(rows: map<int, Reminder>, id: int, chatId: int): (r: (map<int, Reminder>, bool))
    ensures r.1 <==> ByIdAdmin(rows, id, chatId).Some?
    ensures r.0.Keys == if r.1 then rows.Keys - {id} else rows.Keys
    ensures forall k :: k in r.0 ==> r.0[k] == rows[k]
    ensures ByIdAdmin(r.0, id, chatId).None?
  {
    if id in rows && rows[id].chatId == chatId then (rows - {id}, true) else (rows, false)
  }

  /** mark_reminder_sent's effect: is_sent set on a one-time row only. */
  function MarkedSent(rows: map<int, Reminder>, id: int, now: int): map<int, Reminder> {
    if id in rows && !rows[id].isRecurring then rows[id := rows[id].(isSent := true, updatedAt := now)]
    else rows
  }

  /** Marking a row sent takes a one-time reminder off the pending list and
      leaves a recurring one, and every other row, exactly as it was. */
  lemma MarkedSentPending(rows: map<int, Reminder>, id: int, now: int)
    ensures var r := MarkedSent(rows, id, now);
            r.Keys == rows.Keys && (forall k :: k in rows && k != id ==> r[k] == rows[k])
            && (id in rows && rows[id].isRecurring ==> r == rows)
            && (id in rows && !rows[id].isRecurring ==>
                  r[id].isSent && !IsPending(r[id]) && r[id] == rows[id].(isSent := true, updatedAt := now))
  {
  }

  /** On the owner's own row, a non-empty patch is written and True returned. */
  lemma UpdatedOwned(rows: map<int, Reminder>, id: int, userId: int, p: Patch, now: int)
    requires id in rows && rows[id].userId == userId && !p.IsEmpty()
    ensures Updated(rows, id, userId, p, now) == (rows[id := Patched(rows[id], p, now)], true)
  {
  }

  /** Another user's reminder is never changed by update_reminder or delete_reminder. */
  lemma OtherOwnerUntouched(rows: map<int, Reminder>, id: int, userId: int, p: Patch, now: int)
    requires id in rows && rows[id].userId != userId
    ensures Updated(rows, id, userId, p, now) == (rows, false)
    ensures Deleted(rows, id, userId) == (rows, false)
  {
  }

  // ---------------------------------------------------------------------
  // The writes

  class Store {
    var reminders: map<int, Reminder>
    var nextId: int
    var prefs: map<int, Preference>
    var nextPrefId: int

    predicate Valid()
      reads this
    {
      IdsBelow(reminders, nextId) && IdsBelow(prefs, nextPrefId) && UniqueKeys(prefs)
    }

    constructor ()
      ensures Valid()
      ensures reminders == map[] && nextId == 1 && prefs == map[] && nextPrefId == 1
    {
      reminders := map[];
      nextId := 1;
      prefs := map[];
      nextPrefId := 1;
    }

    /** add_reminder: a new unsent row under the next id, which is returned. */
    method AddReminder(userId: int, chatId: int, message: string, remindTime: Stamp,
                       timezone: string, isRecurring: bool, recurrenceType: Option<string>,
                       dayOfWeek: Option<string>, topicId: Option<int>, jobId: Option<string>,
                       now: int)
      returns (id: int)
      requires Valid()
      modifies this
      ensures Valid()
      ensures id == old(nextId) && id !in old(reminders) && nextId == id + 1
      ensures reminders == old(reminders)[id := Reminder(userId, chatId, topicId, message, remindTime,
                                 timezone, false, isRecurring, recurrenceType, dayOfWeek, jobId, now, now)]
      ensures prefs == old(prefs) && nextPrefId == old(nextPrefId)
    {
      id := nextId;
      reminders := reminders[id := Reminder(userId, chatId, topicId, message, remindTime,
                              timezone, false, isRecurring, recurrenceType, dayOfWeek, jobId, now, now)];
      nextId := nextId + 1;
    }

    /** update_reminder: builds the SET list (column names) from the arguments
        that are not None; with none of them it writes nothing and returns
        False; otherwise it sets those columns and updated_at on the row with
        that id and owner, and returns whether there was one. */
    method Update(id: int, userId: int, p: Patch, now: int) returns (ok: bool)
      requires Valid()
      modifies this
      ensures Valid()
      ensures (reminders, ok) == Updated(old(reminders), id, userId, p, now)
      ensures nextId == old(nextId) && prefs == old(prefs) && nextPrefId == old(nextPrefId)
    {
      var updates: seq<string> := [];
      if p.message.Some? { updates := updates + ["message"]; }
      if p.remindTime.Some? { updates := updates + ["remind_time"]; }
      if p.timezone.Some? { updates := updates + ["timezone"]; }
      if p.jobId.Some? { updates := updates + ["job_id"]; }
      if p.recurrenceType.Some? { updates := updates + ["recurrence_type"]; }
      if p.dayOfWeek.Some? { updates := updates + ["day_of_week"]; }
      if |updates| == 0 {
        return false;
      }
      updates := updates + ["updated_at"];
      if id in reminders && reminders[id].userId == userId {
        reminders := reminders[id := Patched(reminders[id], p, now)];
        ok := true;
      } else {
        ok := false;
      }
    }

    /** delete_reminder: removes the row with that id and owner; True iff one was removed. */
    method Delete(id: int, userId: int) returns (ok: bool)
      requires Valid()
      modifies this
      ensures Valid()
      ensures (reminders, ok) == Deleted(old(reminders), id, userId)
      ensures nextId == old(nextId) && prefs == old(prefs) && nextPrefId == old(nextPrefId)
    {
      ok := id in reminders && reminders[id].userId == userId;
      if ok {
        reminders := reminders - {id};
      }
    }

    /** admin_delete_reminder: removes the row with that id in that chat,
        whoever owns it; True iff one was removed. */
    method AdminDelete(id: int, chatId: int) returns (ok: bool)
      requires Valid()
      modifies this
      ensures Valid()
      ensures (reminders, ok) == AdminDeleted(old(reminders), id, chatId)
      ensures nextId == old(nextId) && prefs == old(prefs) && nextPrefId == old(nextPrefId)
    {
      ok := id in reminders && reminders[id].chatId == chatId;
      if ok {
        reminders := reminders - {id};
      }
    }

    /** mark_reminder_sent: sets is_sent (and updated_at) on a one-time row;
        a recurring row and a missing id leave the table as it was. */
    method MarkSent(id: int, now: int)
      requires Valid()
      modifies this
      ensures Valid()
      ensures reminders == MarkedSent(old(reminders), id, now)
      ensures nextId == old(nextId) && prefs == old(prefs) && nextPrefId == old(nextPrefId)
    {
      if id in reminders && !reminders[id].isRecurring {
        reminders := reminders[id := reminders[id].(isSent := true, updatedAt := now)];
      }
    }

    /** save_timezone_preference: the upsert on (entity_id, entity_type). */
    method SaveTimezonePreference(entityId: int, entityType: string, timezone: string, now: int)
      returns (ok: bool)
      requires Valid()
      modifies this
      ensures Valid() && ok
      ensures (prefs, nextPrefId) == Upsert(old(prefs), old(nextPrefId), entityId, entityType, timezone, now)
      ensures TimezonePreference(prefs, nextPrefId, entityId, entityType) == timezone
      ensures reminders == old(reminders) && nextId == old(nextId)
    {
      UpsertValid(prefs, nextPrefId, entityId, entityType, timezone, now);
      UpsertThenGet(prefs, nextPrefId, entityId, entityType, timezone, now);
      var ids := PreferenceIds(prefs, nextPrefId, entityId, entityType);
      var row := Preference(entityId, entityType, timezone, now);
      if |ids| > 0 {
        prefs := prefs[ids[0] := row];
      } else {
        prefs := prefs[nextPrefId := row];
      }
      nextPrefId := nextPrefId + 1;
      ok := true;
    }
  }
}
