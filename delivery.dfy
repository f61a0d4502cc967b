/** The delivery worker (send_reminder): up to max_retries send attempts with
    exponential backoff between them, no retry once the forum topic is closed,
    and the row marked sent after a successful send. The chat API is a list of
    outcomes, one per attempt; the sleeps are recorded as their delays. */
module Delivery {
  import opened Common
  import opened ReminderStore

  /** What one send_message call does: it delivers, it raises a BadRequest
      naming Topic_closed, or it raises any other error (another BadRequest or
      any other exception), which is retried. */
  datatype Outcome = Sent | TopicClosed | Transient

  /** One send_message call: the chat, the text and the message_thread_id,
      which is passed only when the topic is not None. */
  datatype Send = Send(chatId: int, text: string, threadId: Option<int>)

  /** The outcome of the attempt with that index; attempts beyond the list fail
      transiently. */
  function OutcomeAt(outcomes: seq<Outcome>, i: nat): Outcome {
    if i < |outcomes| then outcomes[i] else Transient
  }

  /** base ** e. */
  function Pow(base: int, e: nat): int {
    if e == 0 then 1 else base * Pow(base, e - 1)
  }

  /** The delays base**from, base**(from+1), ..., count of them. */
  function Backoff(base: int, from: nat, count: nat): (s: seq<int>)
    ensures |s| == count
    ensures forall i :: 0 <= i < count ==> s[i] == Pow(base, from + i)
    decreases count
  {
    if count == 0 then [] else [Pow(base, from)] + Backoff(base, from + 1, count - 1)
  }

  /** The loop from attempt a on: the result, the number of attempts made and
      the delays slept. */
  function Attempts(outcomes: seq<Outcome>, maxRetries: nat, base: int, a: nat): (bool, nat, seq<int>)
    decreases maxRetries - a
  {
    if a >= maxRetries then (false, 0, [])
    else match OutcomeAt(outcomes, a)
      case Sent => (true, 1, [])
      case TopicClosed => (false, 1, [])
      case Transient =>
        if a < maxRetries - 1 then
          var (ok, n, sleeps) := Attempts(outcomes, maxRetries, base, a + 1);
          (ok, n + 1, [Pow(base, a)] + sleeps)
        else (false, 1, [])
  }

  /** send_reminder's result, attempts and sleeps. */
  function Delivery(outcomes: seq<Outcome>, maxRetries: nat, base: int): (bool, nat, seq<int>) {
    Attempts(outcomes, maxRetries, base, 0)
  }

  /** No decisive outcome among the attempts from a to before k. */
  predicate TransientUntil(outcomes: seq<Outcome>, a: nat, k: nat) {
    forall j :: a <= j < k ==> OutcomeAt(outcomes, j) == Transient
  }

  /** When attempt k is the first one from a on to deliver or to hit a closed
      topic, the loop makes exactly the attempts a..k, sleeps base**j after
      each attempt j before k and never after k, and returns True exactly
      when attempt k delivered. */
  lemma {:induction false} DecidedAt(outcomes: seq<Outcome>, maxRetries: nat, base: int, a: nat, k: nat)
    requires a <= k < maxRetries && OutcomeAt(outcomes, k) != Transient
    requires TransientUntil(outcomes, a, k)
    ensures Attempts(outcomes, maxRetries, base, a)
            == (OutcomeAt(outcomes, k) == Sent, k - a + 1, Backoff(base, a, k - a))
    decreases k - a
  {
    if a < k {
      DecidedAt(outcomes, maxRetries, base, a + 1, k);
      assert OutcomeAt(outcomes, a) == Transient;
    }
  }

  /** When every attempt from a on fails transiently, the loop makes all the
      remaining attempts, sleeps between them but not after the last, and
      returns False. */
  lemma {:induction false} NeverDecided(outcomes: seq<Outcome>, maxRetries: nat, base: int, a: nat)
    requires a <= maxRetries && TransientUntil(outcomes, a, maxRetries)
    ensures Attempts(outcomes, maxRetries, base, a)
            == (false, maxRetries - a, Backoff(base, a, if a < maxRetries then maxRetries - a - 1 else 0))
    decreases maxRetries - a
  {
    if a < maxRetries - 1 {
      NeverDecided(outcomes, maxRetries, base, a + 1);
      assert OutcomeAt(outcomes, a) == Transient;
    }
  }

  /** Over every outcome list: at most max_retries attempts, one sleep fewer
      than attempts (none without attempts), and True exactly when some attempt
      delivers with every earlier one failing transiently. */
  lemma {:induction false} DeliveryBounds(outcomes: seq<Outcome>, maxRetries: nat, base: int)
    ensures var (ok, n, sleeps) := Delivery(outcomes, maxRetries, base);
            n <= maxRetries && |sleeps| == (if n == 0 then 0 else n - 1)
            && (forall i :: 0 <= i < |sleeps| ==> sleeps[i] == Pow(base, i))
            && (n == 0 <==> maxRetries == 0)
            && (ok <==> exists k :: 0 <= k < maxRetries && OutcomeAt(outcomes, k) == Sent
                                    && TransientUntil(outcomes, 0, k))
  {
    var (ok, n, sleeps) := Delivery(outcomes, maxRetries, base);
    if k :| 0 <= k < maxRetries && OutcomeAt(outcomes, k) != Transient && TransientUntil(outcomes, 0, k) {
      DecidedAt(outcomes, maxRetries, base, 0, k);
      if ok {
        assert OutcomeAt(outcomes, k) == Sent;
      } else {
        forall k' | k < k' < maxRetries
          ensures !TransientUntil(outcomes, 0, k')
        {
          assert OutcomeAt(outcomes, k) != Transient;
        }
      }
    } else {
      FirstDecisiveOrNone(outcomes, maxRetries);
      NeverDecided(outcomes, maxRetries, base, 0);
    }
  }

  /** Either some attempt is the first decisive one, or none is decisive. */
  lemma {:induction false} FirstDecisiveOrNone(outcomes: seq<Outcome>, maxRetries: nat)
    requires !exists k :: 0 <= k < maxRetries && OutcomeAt(outcomes, k) != Transient && TransientUntil(outcomes, 0, k)
    ensures TransientUntil(outcomes, 0, maxRetries)
    decreases maxRetries
  {
    if maxRetries > 0 {
      FirstDecisiveOrNone(outcomes, maxRetries - 1);
      if OutcomeAt(outcomes, maxRetries - 1) != Transient {
        assert TransientUntil(outcomes, 0, maxRetries - 1);
      }
    }
  }

  /** A closed topic on the first attempt: False after exactly one attempt and
      no sleep. */
  lemma TopicClosedFirst(outcomes: seq<Outcome>, maxRetries: nat, base: int)
    requires maxRetries >= 1 && OutcomeAt(outcomes, 0) == TopicClosed
    ensures Delivery(outcomes, maxRetries, base) == (false, 1, [])
  {
  }

  /** send_reminder: the loop over the attempts. Each attempt sends one
      message; a successful send marks the row sent (when an id was given) and
      returns True; a closed topic returns False at once; any other failure
      sleeps base**attempt and retries, except after the last attempt, which
      returns False. */
  method SendReminder(store: Store, chatId: int, message: string, reminderId: Option<int>,
                      topicId: Option<int>, maxRetries: nat, base: int, outcomes: seq<Outcome>, now: int)
    returns (ok: bool, sends: seq<Send>, sleeps: seq<int>)
    requires store.Valid()
    modifies store
    ensures store.Valid()
    ensures (ok, |sends|, sleeps) == Delivery(outcomes, maxRetries, base)
    ensures forall i :: 0 <= i < |sends| ==> sends[i] == Send(chatId, message, topicId)
    ensures store.reminders == if ok && reminderId.Some? then MarkedSent(old(store.reminders), reminderId.value, now)
                               else old(store.reminders)
    ensures store.nextId == old(store.nextId) && store.prefs == old(store.prefs)
            && store.nextPrefId == old(store.nextPrefId)
  {
    sends := [];
    sleeps := [];
    var attempt: nat := 0;
    assert sleeps + Attempts(outcomes, maxRetries, base, 0).2 == Attempts(outcomes, maxRetries, base, 0).2;
    while attempt < maxRetries
      invariant attempt <= maxRetries && |sends| == attempt
      invariant forall i :: 0 <= i < |sends| ==> sends[i] == Send(chatId, message, topicId)
      invariant Delivery(outcomes, maxRetries, base).0 == Attempts(outcomes, maxRetries, base, attempt).0
      invariant Delivery(outcomes, maxRetries, base).1 == Attempts(outcomes, maxRetries, base, attempt).1 + attempt
      invariant Delivery(outcomes, maxRetries, base).2 == sleeps + Attempts(outcomes, maxRetries, base, attempt).2
      invariant store.Valid() && store.reminders == old(store.reminders)
      invariant store.nextId == old(store.nextId) && store.prefs == old(store.prefs)
                && store.nextPrefId == old(store.nextPrefId)
      decreases maxRetries - attempt
    {
      assert sleeps + [] == sleeps;
      sends := sends + [Send(chatId, message, topicId)];
      var outcome := OutcomeAt(outcomes, attempt);
      if outcome == Sent {
        if reminderId.Some? {
          store.MarkSent(reminderId.value, now);
        }
        return true, sends, sleeps;
      } else if outcome == TopicClosed {
        return false, sends, sleeps;
      } else if attempt < maxRetries - 1 {
        ghost var rest := Attempts(outcomes, maxRetries, base, attempt + 1).2;
        assert sleeps + ([Pow(base, attempt)] + rest) == (sleeps + [Pow(base, attempt)]) + rest;
        sleeps := sleeps + [Pow(base, attempt)];
        attempt := attempt + 1;
      } else {
        return false, sends, sleeps;
      }
    }
    assert sleeps + [] == sleeps;
    ok := false;
  }
}
