/** The job scheduler as the bot uses it: a persistent store of jobs by id, each
    a trigger and the positional arguments schedule_reminder is called with.
    Job ids are handed out from a counter (standing for uuid4 ids); add_job
    validates the job the way the scheduler library does before storing it. */
module Scheduling {
  import opened Common
  import BotHelpers

  /** A cron trigger (day_of_week, hour, minute, timezone) or a one-off date. */
  datatype Trigger =
    | Cron(dayOfWeek: Option<string>, hour: int, minute: int, timezone: string)
    | Date(runAt: int)

  /** A positional argument of a job. */
  datatype Arg = Application | Int(i: int) | Text(s: string) | Instant(t: int) | Null

  datatype Job = Job(trigger: Trigger, args: seq<Arg>)

  /** An optional integer as an argument: the integer or None. */
  function OptionArg(o: Option<int>): Arg {
    if o.Some? then Int(o.value) else Null
  }

  // ---------------------------------------------------------------------
  // The callback's signature and the checks add_job makes

  /** A call schedule_reminder(chat_id, message, reminder_time, reminder_id=None,
      topic_id=None) with every parameter bound. */
  datatype Call = Call(chatId: Arg, message: Arg, reminderTime: Arg, reminderId: Arg, topicId: Arg)

  /** Binding positional arguments to schedule_reminder: three to five of them,
      the missing optional ones being None. */
  function Bind(args: seq<Arg>): (c: Option<Call>)
    ensures c.Some? <==> 3 <= |args| <= 5
    ensures c.Some? ==> c.value.chatId == args[0] && c.value.message == args[1]
                        && c.value.reminderTime == args[2]
    ensures c.Some? ==> c.value.reminderId == (if |args| >= 4 then args[3] else Null)
    ensures c.Some? ==> c.value.topicId == (if |args| == 5 then args[4] else Null)
  {
    if 3 <= |args| <= 5 then
      Some(Call(args[0], args[1], args[2],
                if |args| >= 4 then args[3] else Null,
                if |args| == 5 then args[4] else Null))
    else None
  }

  /** A day_of_week value the bot passes is accepted when it is a weekday
      abbreviation, in any case. APScheduler also takes the numbers 0-6,
      ranges, `*` and comma lists; the bot passes none of those, and no full
      weekday name is accepted. */
  predicate DayAccepted(day: string) {
    Lower(day) in BotHelpers.Abbreviations
  }

  /** The trigger's fields are in range. */
  predicate TriggerAccepted(t: Trigger) {
    match t
    case Cron(day, hour, minute, _) =>
      0 <= hour <= 23 && 0 <= minute <= 59 && (day.Some? ==> DayAccepted(day.value))
    case Date(_) => true
  }

  /** add_job raises ValueError unless the trigger is valid and the arguments
      bind to the callback. */
  predicate Accepts(t: Trigger, args: seq<Arg>) {
    TriggerAccepted(t) && Bind(args).Some?
  }

  // ---------------------------------------------------------------------
  // The job store as a value

  datatype Sched = Sched(jobs: map<string, Job>, counter: nat)

  /** The id the n-th added job gets. */
  function JobIdAt(n: nat): (id: string)
    ensures |id| >= 1 && ',' !in id
  {
    NatToString(n)
  }

  /** Every stored id was handed out before the counter. */
  predicate Issued(s: Sched) {
    forall id :: id in s.jobs ==> exists n: nat :: n < s.counter && id == JobIdAt(n)
  }

  /** The next id has never been handed out. */
  lemma FreshId(s: Sched)
    requires Issued(s)
    ensures JobIdAt(s.counter) !in s.jobs
  {
    forall n: nat | n < s.counter ensures JobIdAt(n) != JobIdAt(s.counter) {
      JobIdAtInjective(n, s.counter);
    }
  }

  /** Distinct counters give distinct ids. */
  lemma JobIdAtInjective(a: nat, b: nat)
    requires a != b
    ensures JobIdAt(a) != JobIdAt(b)
  {
    if JobIdAt(a) == JobIdAt(b) {
      NatToStringInjective(a, b);
    }
  }

  /** add_job: a valid job is stored under a fresh id, which is returned;
      otherwise nothing changes and None stands for the raised error. */
  function Add(s: Sched, t: Trigger, args: seq<Arg>): (r: (Sched, Option<string>))
  {
    if Accepts(t, args) then
      (Sched(s.jobs[JobIdAt(s.counter) := Job(t, args)], s.counter + 1), Some(JobIdAt(s.counter)))
    else (s, None)
  }

  /** Adding keeps every id issued, and a returned id is new. */
  lemma {:induction false} AddIssued(s: Sched, t: Trigger, args: seq<Arg>)
    requires Issued(s)
    ensures Issued(Add(s, t, args).0)
    ensures Add(s, t, args).1.Some? ==> Add(s, t, args).1.value !in s.jobs
    ensures Add(s, t, args).0.counter >= s.counter
    ensures forall id :: id in s.jobs ==> id in Add(s, t, args).0.jobs && Add(s, t, args).0.jobs[id] == s.jobs[id]
  {
    if Accepts(t, args) {
      FreshId(s);
    }
  }

  /** remove_job attempted for every id; a missing id raises and is skipped. */
  function RemoveAll(s: Sched, ids: seq<string>): (r: Sched)
    ensures r.counter == s.counter
    ensures forall id :: id in r.jobs <==> id in s.jobs && id !in ids
    ensures forall id :: id in r.jobs ==> r.jobs[id] == s.jobs[id]
  {
    s.(jobs := s.jobs - set id | id in ids)
  }

  /** Removing a list and then one more id is removing the longer list. */
  lemma RemoveAllSnoc(s: Sched, ids: seq<string>, id: string)
    ensures RemoveAll(s, ids + [id]) == RemoveAll(s, ids).(jobs := RemoveAll(s, ids).jobs - {id})
  {
    assert (set x | x in ids + [id]) == (set x | x in ids) + {id};
  }

  /** Removing keeps every id issued. */
  lemma RemoveAllIssued(s: Sched, ids: seq<string>)
    requires Issued(s)
    ensures Issued(RemoveAll(s, ids))
  {
  }

  /** The cron trigger of one day of a fan-out. */
  function DayTrigger(day: string, hour: int, minute: int, timezone: string): Trigger {
    Cron(Some(day), hour, minute, timezone)
  }

  /** The fan-out loop: one cron job per day, in order, their ids collected;
      the first rejected day raises, leaving the jobs added before it. */
  function FanOut(s: Sched, days: seq<string>, hour: int, minute: int, timezone: string,
                  args: seq<Arg>): (r: (Sched, Option<seq<string>>))
    decreases |days|
  {
    if |days| == 0 then (s, Some([]))
    else
      var (s1, ids) := FanOut(s, days[..|days| - 1], hour, minute, timezone, args);
      if ids.None? then (s1, None)
      else
        var (s2, id) := Add(s1, DayTrigger(days[|days| - 1], hour, minute, timezone), args);
        if id.None? then (s2, None) else (s2, Some(ids.value + [id.value]))
  }

  /** All days of the fan-out are accepted. */
  predicate AllDaysAccepted(days: seq<string>, hour: int, minute: int, timezone: string, args: seq<Arg>) {
    forall i :: 0 <= i < |days| ==> Accepts(DayTrigger(days[i], hour, minute, timezone), args)
  }

  /** A fan-out keeps every id issued and every job that was there. */
  lemma {:induction false} FanOutKeeps(s: Sched, days: seq<string>, hour: int, minute: int,
                                       timezone: string, args: seq<Arg>)
    requires Issued(s)
    ensures var r := FanOut(s, days, hour, minute, timezone, args).0;
            Issued(r) && r.counter >= s.counter
            && forall id :: id in s.jobs ==> id in r.jobs && r.jobs[id] == s.jobs[id]
    decreases |days|
  {
    if |days| > 0 {
      var init := days[..|days| - 1];
      FanOutKeeps(s, init, hour, minute, timezone, args);
      var (s1, ids) := FanOut(s, init, hour, minute, timezone, args);
      if ids.Some? {
        var t := DayTrigger(days[|days| - 1], hour, minute, timezone);
        AddIssued(s1, t, args);
        assert FanOut(s, days, hour, minute, timezone, args).0 == Add(s1, t, args).0;
      }
    }
  }

  /** The fan-out succeeds exactly when every day is accepted. */
  lemma {:induction false} FanOutSucceedsIff(s: Sched, days: seq<string>, hour: int, minute: int,
                                             timezone: string, args: seq<Arg>)
    ensures FanOut(s, days, hour, minute, timezone, args).1.Some?
            <==> AllDaysAccepted(days, hour, minute, timezone, args)
    decreases |days|
  {
    if |days| > 0 {
      var init := days[..|days| - 1];
      FanOutSucceedsIff(s, init, hour, minute, timezone, args);
      assert forall i :: 0 <= i < |init| ==> init[i] == days[i];
    }
  }

  /** A successful fan-out returns the next |days| fresh ids in order and
      advances the counter past them. */
  lemma {:induction false} FanOutIds(s: Sched, days: seq<string>, hour: int, minute: int,
                                     timezone: string, args: seq<Arg>)
    requires FanOut(s, days, hour, minute, timezone, args).1.Some?
    ensures var (r, ids) := FanOut(s, days, hour, minute, timezone, args);
            |ids.value| == |days| && r.counter == s.counter + |days|
            && forall i :: 0 <= i < |days| ==> ids.value[i] == JobIdAt(s.counter + i)
    decreases |days|
  {
    if |days| > 0 {
      FanOutIds(s, days[..|days| - 1], hour, minute, timezone, args);
    }
  }

  /** An id from the counter onwards has not been handed out yet. */
  lemma NotIssuedYet(s: Sched, n: nat)
    requires Issued(s) && n >= s.counter
    ensures JobIdAt(n) !in s.jobs
  {
    forall k: nat | k < s.counter ensures JobIdAt(k) != JobIdAt(n) {
      JobIdAtInjective(k, n);
    }
  }

  /** A successful fan-out holds the i-th day's cron job under the i-th id, and
      adds no job under any other new id. */
  lemma {:induction false} FanOutJobsAdded(s: Sched, days: seq<string>, hour: int, minute: int,
                                           timezone: string, args: seq<Arg>)
    requires FanOut(s, days, hour, minute, timezone, args).1.Some?
    ensures var (r, ids) := FanOut(s, days, hour, minute, timezone, args);
            |ids.value| == |days|
            && (forall i :: 0 <= i < |days| ==>
                  ids.value[i] in r.jobs
                  && r.jobs[ids.value[i]] == Job(DayTrigger(days[i], hour, minute, timezone), args))
            && (forall id :: id in r.jobs ==> id in s.jobs || id in ids.value)
    decreases |days|
  {
    FanOutIds(s, days, hour, minute, timezone, args);
    if |days| > 0 {
      var init := days[..|days| - 1];
      FanOutSnoc(s, days, hour, minute, timezone, args);
      FanOutJobsAdded(s, init, hour, minute, timezone, args);
      FanOutIds(s, init, hour, minute, timezone, args);
      var (s1, ids) := FanOut(s, init, hour, minute, timezone, args);
      var id := JobIdAt(s1.counter);
      var job := Job(DayTrigger(days[|days| - 1], hour, minute, timezone), args);
      LaterIdDiffers(s.counter, ids.value, s1.counter);
      FanOutLastStep(s.jobs, s1.jobs, ids.value, id, job, init, days, hour, minute, timezone, args);
    }
  }

  /** A successful fan-out over one more day is the shorter one with that
      day's job added under the next id. */
  lemma FanOutSnoc(s: Sched, days: seq<string>, hour: int, minute: int, timezone: string, args: seq<Arg>)
    requires |days| > 0 && FanOut(s, days, hour, minute, timezone, args).1.Some?
    ensures var (s1, ids) := FanOut(s, days[..|days| - 1], hour, minute, timezone, args);
            var (r, all) := FanOut(s, days, hour, minute, timezone, args);
            var id := JobIdAt(s1.counter);
            ids.Some? && all.value == ids.value + [id]
            && r.jobs == s1.jobs[id := Job(DayTrigger(days[|days| - 1], hour, minute, timezone), args)]
  {
  }

  /** Ids handed out from counter c on differ from one handed out later. */
  lemma LaterIdDiffers(c: nat, ids: seq<string>, n: nat)
    requires n >= c + |ids|
    requires forall i :: 0 <= i < |ids| ==> ids[i] == JobIdAt(c + i)
    ensures forall i :: 0 <= i < |ids| ==> ids[i] != JobIdAt(n)
  {
    forall i | 0 <= i < |ids| ensures ids[i] != JobIdAt(n) {
      JobIdAtInjective(c + i, n);
    }
  }

  /** One more day's job added under a new id keeps the earlier days' jobs
      under their ids, and every stored id is an old one or one of the ids. */
  lemma FanOutLastStep(old0: map<string, Job>, jobs: map<string, Job>, ids: seq<string>, id: string, job: Job,
                       init: seq<string>, days: seq<string>, hour: int, minute: int,
                       timezone: string, args: seq<Arg>)
    requires |days| > 0 && init == days[..|days| - 1] && |ids| == |init|
    requires job == Job(DayTrigger(days[|days| - 1], hour, minute, timezone), args)
    requires forall i :: 0 <= i < |init| ==> ids[i] != id
    requires forall i :: 0 <= i < |init| ==>
               ids[i] in jobs && jobs[ids[i]] == Job(DayTrigger(init[i], hour, minute, timezone), args)
    requires forall k :: k in jobs ==> k in old0 || k in ids
    ensures forall i :: 0 <= i < |days| ==>
              (ids + [id])[i] in jobs[id := job]
              && jobs[id := job][(ids + [id])[i]] == Job(DayTrigger(days[i], hour, minute, timezone), args)
    ensures forall k :: k in jobs[id := job] ==> k in old0 || k in ids + [id]
  {
    forall i | 0 <= i < |days|
      ensures (ids + [id])[i] in jobs[id := job]
      ensures jobs[id := job][(ids + [id])[i]] == Job(DayTrigger(days[i], hour, minute, timezone), args)
    {
      if i < |init| {
        assert (ids + [id])[i] == ids[i];
        assert init[i] == days[i];
      }
    }
    assert forall k :: k in ids ==> k in ids + [id];
  }

  /** After is before with one job per day added under the fresh, distinct
      ids, the i-th holding the i-th day's cron job, and no job lost. */
  predicate JobsAdded(before: Sched, after: Sched, ids: seq<string>, days: seq<string>, hour: int,
                      minute: int, timezone: string, args: seq<Arg>) {
    |ids| == |days| && NoDuplicates(ids) && after.counter == before.counter + |days|
    && (forall i :: 0 <= i < |days| ==>
          ids[i] !in before.jobs && ids[i] in after.jobs
          && after.jobs[ids[i]] == Job(DayTrigger(days[i], hour, minute, timezone), args))
    && (forall id :: id in before.jobs ==> id in after.jobs && after.jobs[id] == before.jobs[id])
    && (forall id :: id in after.jobs ==> id in before.jobs || id in ids)
  }

  /** A fan-out over accepted days succeeds and adds exactly its jobs, under
      the next |days| ids in order. */
  lemma FanOutAccepted(s: Sched, days: seq<string>, hour: int, minute: int, timezone: string,
                       args: seq<Arg>)
    requires Issued(s) && AllDaysAccepted(days, hour, minute, timezone, args)
    ensures var (r, ids) := FanOut(s, days, hour, minute, timezone, args);
            ids.Some? && Issued(r) && JobsAdded(s, r, ids.value, days, hour, minute, timezone, args)
            && (forall i :: 0 <= i < |days| ==> ids.value[i] == JobIdAt(s.counter + i))
  {
    FanOutSucceedsIff(s, days, hour, minute, timezone, args);
    FanOutIds(s, days, hour, minute, timezone, args);
    FanOutJobsAdded(s, days, hour, minute, timezone, args);
    FanOutIdsFresh(s, days, hour, minute, timezone, args);
    FanOutDistinct(s, days, hour, minute, timezone, args);
    FanOutKeeps(s, days, hour, minute, timezone, args);
  }

  /** The ids of a successful fan-out were not in the store before it. */
  lemma FanOutIdsFresh(s: Sched, days: seq<string>, hour: int, minute: int,
                       timezone: string, args: seq<Arg>)
    requires Issued(s)
    requires FanOut(s, days, hour, minute, timezone, args).1.Some?
    ensures var ids := FanOut(s, days, hour, minute, timezone, args).1.value;
            forall i :: 0 <= i < |ids| ==> ids[i] !in s.jobs
  {
    FanOutIds(s, days, hour, minute, timezone, args);
    IdsFromCounterFresh(s, FanOut(s, days, hour, minute, timezone, args).1.value);
  }

  /** Ids handed out from the counter on are not in the store. */
  lemma IdsFromCounterFresh(s: Sched, ids: seq<string>)
    requires Issued(s)
    requires forall i :: 0 <= i < |ids| ==> ids[i] == JobIdAt(s.counter + i)
    ensures forall i :: 0 <= i < |ids| ==> ids[i] !in s.jobs
  {
    forall i | 0 <= i < |ids| ensures ids[i] !in s.jobs {
      NotIssuedYet(s, s.counter + i);
    }
  }

  /** A fan-out whose every day is accepted leaves a store in which exactly the
      returned ids are new, and they are all distinct. */
  lemma FanOutDistinct(s: Sched, days: seq<string>, hour: int, minute: int, timezone: string,
                       args: seq<Arg>)
    requires Issued(s)
    requires FanOut(s, days, hour, minute, timezone, args).1.Some?
    ensures NoDuplicates(FanOut(s, days, hour, minute, timezone, args).1.value)
  {
    FanOutIds(s, days, hour, minute, timezone, args);
    var ids := FanOut(s, days, hour, minute, timezone, args).1.value;
    forall i, j | 0 <= i < j < |ids| ensures ids[i] != ids[j] {
      JobIdAtInjective(s.counter + i, s.counter + j);
    }
  }

  // ---------------------------------------------------------------------
  // The scheduler object

  class JobScheduler {
    var jobs: map<string, Job>
    var counter: nat

    function State(): Sched
      reads this
    {
      Sched(jobs, counter)
    }

    predicate Valid()
      reads this
    {
      Issued(State())
    }

    constructor ()
      ensures Valid() && jobs == map[] && counter == 0
    {
      jobs := map[];
      counter := 0;
    }

    /** get_job(id) is not None. */
    predicate Live(id: string)
      reads this
    {
      id in jobs
    }

    /** add_job: the new id, or None where the library raises. */
    method AddJob(t: Trigger, args: seq<Arg>) returns (id: Option<string>)
      requires Valid()
      modifies this
      ensures Valid()
      ensures (State(), id) == Add(old(State()), t, args)
      ensures id.Some? ==> id.value !in old(jobs)
    {
      AddIssued(State(), t, args);
      if Accepts(t, args) {
        id := Some(JobIdAt(counter));
        jobs := jobs[id.value := Job(t, args)];
        counter := counter + 1;
      } else {
        id := None;
      }
    }

    /** remove_job: False where the library raises JobLookupError. */
    method RemoveJob(id: string) returns (removed: bool)
      requires Valid()
      modifies this
      ensures Valid()
      ensures removed <==> id in old(jobs)
      ensures jobs == old(jobs) - {id} && counter == old(counter)
    {
      removed := id in jobs;
      jobs := jobs - {id};
    }

    /** The loop `for job_id in ids: try: remove_job(job_id) except: pass`. */
    method RemoveJobs(ids: seq<string>)
      requires Valid()
      modifies this
      ensures Valid()
      ensures State() == RemoveAll(old(State()), ids)
    {
      var i := 0;
      while i < |ids|
        invariant 0 <= i <= |ids|
        invariant Valid()
        invariant State() == RemoveAll(old(State()), ids[..i])
      {
        var _ := RemoveJob(ids[i]);
        assert ids[..i + 1] == ids[..i] + [ids[i]];
        RemoveAllSnoc(old(State()), ids[..i], ids[i]);
        i := i + 1;
      }
      assert ids[..i] == ids;
    }

    /** The fan-out loop: one cron job per day, ids appended in order; the
        first rejected day ends it with None. */
    method FanOutJobs(days: seq<string>, hour: int, minute: int, timezone: string, args: seq<Arg>)
      returns (ids: Option<seq<string>>)
      requires Valid()
      modifies this
      ensures Valid()
      ensures (State(), ids) == FanOut(old(State()), days, hour, minute, timezone, args)
    {
      var jobIds: seq<string> := [];
      var i := 0;
      while i < |days|
        invariant 0 <= i <= |days|
        invariant Valid()
        invariant (State(), Some(jobIds)) == FanOut(old(State()), days[..i], hour, minute, timezone, args)
      {
        assert days[..i + 1][..i] == days[..i];
        var id := AddJob(DayTrigger(days[i], hour, minute, timezone), args);
        if id.None? {
          FanOutStopsAt(old(State()), days, hour, minute, timezone, args, i + 1);
          return None;
        }
        jobIds := jobIds + [id.value];
        i := i + 1;
      }
      assert days[..i] == days;
      ids := Some(jobIds);
    }
  }

  /** Once a prefix of the days fails, every longer prefix ends in the same
      state with the same failure. */
  lemma {:induction false} FanOutStopsAt(s: Sched, days: seq<string>, hour: int, minute: int,
                                         timezone: string, args: seq<Arg>, k: nat)
    requires k <= |days|
    requires FanOut(s, days[..k], hour, minute, timezone, args).1.None?
    ensures FanOut(s, days, hour, minute, timezone, args) == FanOut(s, days[..k], hour, minute, timezone, args)
    decreases |days| - k
  {
    if k < |days| {
      assert days[..k + 1][..k] == days[..k];
      FanOutStopsAt(s, days, hour, minute, timezone, args, k + 1);
    } else {
      assert days[..k] == days;
    }
  }
}
