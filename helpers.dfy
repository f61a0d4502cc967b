/** The reminder bot's small rules: which forum topic a message belongs to, the
    weekday picker of the recurring-reminder wizard and the mapping of its day
    names to the scheduler's three-letter names, the calendar's month
    navigation, the HH:MM check of typed times and the message length limit. */
module BotHelpers {
  import opened Common
  import Recurrence

  // ---------------------------------------------------------------------
  // Messages and forum topics

  /** The parts of a Telegram chat the bot looks at. */
  datatype Chat = Chat(id: int, isForum: bool, username: Option<string>)

  /** The parts of a Telegram message the bot looks at: whether it has a
      message_thread_id attribute and its value, its message_id, whether
      is_topic_message is True, and its chat. */
  datatype Message = Message(hasThread: bool, threadId: Option<int>, messageId: Option<int>,
                             isTopicMessage: bool, chat: Chat)

  /** Python truthiness of an optional integer. */
  predicate Truthy(o: Option<int>) { o.Some? && o.value != 0 }

  /** The display name of a forum topic. */
  function TopicName(id: int): string { "Topic #" + IntToString(id) }

  /** get_topic_info_from_message of the reminder bot: thread 1 of a forum is its
      General topic, and the thread of a non-forum chat is ignored. */
  function TopicOf(m: Message): (Option<int>, string)
  {
    if m.hasThread && Truthy(m.threadId) then
      if m.chat.id < 0 && m.chat.isForum then
        if m.threadId.value == 1 then (None, "") else (m.threadId, TopicName(m.threadId.value))
      else (None, "")
    else (None, "")
  }

  /** A message is placed in a topic exactly when it carries a thread id other
      than 0 and 1 in a forum (a chat with a negative id); the name then shows
      that id, and otherwise the name is empty. */
  lemma TopicOfIff(m: Message)
    ensures TopicOf(m).0.Some? <==>
            (m.hasThread && m.threadId.Some? && m.threadId.value !in {0, 1}
             && m.chat.id < 0 && m.chat.isForum)
    ensures TopicOf(m).0.Some? ==> TopicOf(m).0 == m.threadId && TopicOf(m).1 == TopicName(m.threadId.value)
    ensures TopicOf(m).0.None? ==> TopicOf(m).1 == ""
  {
  }

  /** Different topics have different names. */
  lemma TopicNameInjective(a: int, b: int)
    requires TopicName(a) == TopicName(b)
    ensures a == b
  {
    var p := "Topic #";
    assert IntToString(a) == TopicName(a)[|p|..];
    assert IntToString(b) == TopicName(b)[|p|..];
    IntToStringInjective(a, b);
  }

  // ---------------------------------------------------------------------
  // The 4000-character limit on typed text

  const MaxMessageLength: nat := 4000

  /** Typed text the bot accepts: at most 4000 characters. */
  predicate WithinLimit(text: string) { |text| <= MaxMessageLength }

  // ---------------------------------------------------------------------
  // Weekday names

  /** The wizard's full weekday names, Monday first. */
  const AllDays: seq<string> := Recurrence.Weekdays

  /** Full weekday name to the scheduler's day_of_week name. */
  const DayMapping: map<string, string> :=
    map["monday" := "mon", "tuesday" := "tue", "wednesday" := "wed", "thursday" := "thu",
        "friday" := "fri", "saturday" := "sat", "sunday" := "sun"]

  /** The scheduler's day_of_week name back to the full weekday name. */
  const DayMappingReverse: map<string, string> :=
    map["mon" := "monday", "tue" := "tuesday", "wed" := "wednesday", "thu" := "thursday",
        "fri" := "friday", "sat" := "saturday", "sun" := "sunday"]

  /** The seven day_of_week names, Monday first. */
  const Abbreviations: seq<string> := ["mon", "tue", "wed", "thu", "fri", "sat", "sun"]

  /** day_mapping.get(day, day). */
  function Abbrev(day: string): string {
    if day in DayMapping then DayMapping[day] else day
  }

  /** day_mapping_reverse.get(abbr, abbr). */
  function FullName(abbr: string): string {
    if abbr in DayMappingReverse then DayMappingReverse[abbr] else abbr
  }

  /** The two mappings are inverse bijections between the seven full names and
      the seven three-letter names, each full name mapping to its first three
      letters. */
  lemma AbbrevFullNameInverse(i: nat)
    requires i < 7
    ensures Abbrev(AllDays[i]) == Abbreviations[i] == AllDays[i][..3]
    ensures FullName(Abbreviations[i]) == AllDays[i]
  {
  }

  /** [day_mapping.get(d, d) for d in days]. */
  function Abbrevs(days: seq<string>): (r: seq<string>)
    ensures |r| == |days|
    ensures forall i :: 0 <= i < |days| ==> r[i] == Abbrev(days[i])
  {
    if |days| == 0 then [] else [Abbrev(days[0])] + Abbrevs(days[1..])
  }

  /** [day_mapping_reverse.get(d, d) for d in abbrs]. */
  function FullNames(abbrs: seq<string>): (r: seq<string>)
    ensures |r| == |abbrs|
    ensures forall i :: 0 <= i < |abbrs| ==> r[i] == FullName(abbrs[i])
  {
    if |abbrs| == 0 then [] else [FullName(abbrs[0])] + FullNames(abbrs[1..])
  }

  /** The days_string the edit stores for a set of full names: their three-letter
      names, comma-joined. */
  function DaysString(selected: seq<string>): string {
    Join(Abbrevs(selected), ',')
  }

  /** The days an edit starts from: every day for a daily reminder, else the
      stored day_of_week split at commas and mapped back to full names; None
      where the source fails (a weekly reminder without day_of_week). */
  function DaysForEdit(recurrenceType: Option<string>, dayOfWeek: Option<string>): Option<seq<string>> {
    if recurrenceType == Some("daily") then Some(AllDays)
    else if dayOfWeek.None? then None
    else Some(FullNames(Split(dayOfWeek.value, ',')))
  }

  /** Mapping weekdays to their three-letter names and back gives the weekdays. */
  lemma {:induction false} AbbrevsInverse(selected: seq<string>)
    requires forall i :: 0 <= i < |selected| ==> selected[i] in AllDays
    ensures FullNames(Abbrevs(selected)) == selected
  {
    if |selected| > 0 {
      var k :| 0 <= k < 7 && selected[0] == AllDays[k];
      AbbrevFullNameInverse(k);
      AbbrevsInverse(selected[1..]);
      var a := Abbrevs(selected);
      assert a[0] == Abbreviations[k];
      assert a[1..] == Abbrevs(selected[1..]);
      assert FullNames(a) == [FullName(a[0])] + FullNames(a[1..]);
      assert selected == [selected[0]] + selected[1..];
    }
  }

  /** No weekday's three-letter name holds a comma. */
  lemma {:induction false} AbbrevsNoComma(selected: seq<string>)
    requires forall i :: 0 <= i < |selected| ==> selected[i] in AllDays
    ensures forall i :: 0 <= i < |selected| ==> ',' !in Abbrevs(selected)[i]
  {
    if |selected| > 0 {
      var k :| 0 <= k < 7 && selected[0] == AllDays[k];
      AbbrevFullNameInverse(k);
      AbbrevsNoComma(selected[1..]);
      assert Abbrevs(selected)[1..] == Abbrevs(selected[1..]);
    }
  }

  /** Storing a non-empty selection of weekdays as a days_string and reading it
      back for an edit gives the same selection, in the same order. */
  lemma DaysStringRoundTrip(selected: seq<string>)
    requires |selected| >= 1 && forall i :: 0 <= i < |selected| ==> selected[i] in AllDays
    ensures DaysForEdit(Some("weekly"), Some(DaysString(selected))) == Some(selected)
  {
    AbbrevsInverse(selected);
    AbbrevsNoComma(selected);
    SplitJoin(Abbrevs(selected), ',');
  }

  // ---------------------------------------------------------------------
  // The weekday picker

  /** list.remove(day): the first occurrence of day taken out. */
  function RemoveFirst(s: seq<string>, day: string): (r: seq<string>)
    requires day in s
    ensures |r| == |s| - 1
  {
    if s[0] == day then s[1..] else [s[0]] + RemoveFirst(s[1..], day)
  }

  /** The selection after a day's button is pressed: removed if present,
      appended if not. */
  function Toggled(s: seq<string>, day: string): seq<string> {
    if day in s then RemoveFirst(s, day) else s + [day]
  }

  /** The first occurrence of day, at index i, is the one removed. */
  lemma {:induction false} RemoveFirstAt(s: seq<string>, day: string, i: nat)
    requires i < |s| && s[i] == day && day !in s[..i]
    ensures RemoveFirst(s, day) == s[..i] + s[i + 1..]
  {
    if i > 0 {
      assert s[0] in s[..i];
      assert s[1..][..i - 1] == s[1..i];
      RemoveFirstAt(s[1..], day, i - 1);
      assert s[..i] == [s[0]] + s[1..i];
    }
  }

  /** Removing the first occurrence keeps every other value and, without
      duplicates, drops the day itself. */
  lemma {:induction false} RemoveFirstMembers(s: seq<string>, day: string)
    requires day in s && NoDuplicates(s)
    ensures forall x :: x in RemoveFirst(s, day) <==> x in s && x != day
    ensures NoDuplicates(RemoveFirst(s, day))
  {
    if s[0] != day {
      assert NoDuplicates(s[1..]);
      RemoveFirstMembers(s[1..], day);
      assert s == [s[0]] + s[1..];
      assert s[0] !in s[1..];
    } else {
      assert s == [s[0]] + s[1..];
      assert forall i :: 0 <= i < |s[1..]| ==> s[1..][i] != day;
    }
  }

  /** Toggling flips the day's membership, leaves the other days alone and
      keeps the selection free of duplicates. */
  lemma ToggledMembers(s: seq<string>, day: string)
    requires NoDuplicates(s)
    ensures (day in Toggled(s, day)) <==> (day !in s)
    ensures forall x :: x != day ==> (x in Toggled(s, day) <==> x in s)
    ensures NoDuplicates(Toggled(s, day))
  {
    if day in s {
      RemoveFirstMembers(s, day);
    }
  }

  /** Pressing a day that was not selected twice restores the selection. */
  lemma {:induction false} ToggleTwice(s: seq<string>, day: string)
    requires day !in s
    ensures Toggled(Toggled(s, day), day) == s
  {
    RemoveLast(s, day);
  }

  lemma {:induction false} RemoveLast(s: seq<string>, day: string)
    requires day !in s
    ensures RemoveFirst(s + [day], day) == s
  {
    if |s| > 0 {
      assert (s + [day])[1..] == s[1..] + [day];
      RemoveLast(s[1..], day);
    }
  }

  /** A duplicate-free selection of weekday names has seven entries exactly
      when every weekday is selected, so the wizard's len(...) == 7 test means
      "all days". */
  lemma AllDaysSelected(s: seq<string>)
    requires NoDuplicates(s) && forall i :: 0 <= i < |s| ==> s[i] in AllDays
    ensures |s| == 7 <==> forall d :: d in AllDays ==> d in s
  {
    var all := set d | d in AllDays;
    var sel := set x | x in s;
    DistinctCardinality(s);
    assert NoDuplicates(AllDays);
    DistinctCardinality(AllDays);
    assert sel <= all;
    assert |sel| == |s| && |all| == 7;
    if |s| == 7 {
      SubsetSameSize(sel, all);
      assert forall d :: d in AllDays ==> d in sel;
    }
    if forall d :: d in AllDays ==> d in s {
      assert all <= sel;
      assert sel == all;
    }
  }

  /** A subset as large as its superset is the superset. */
  lemma SubsetSameSize(a: set<string>, b: set<string>)
    requires a <= b && |a| == |b|
    ensures a == b
  {
    assert b == a + (b - a);
    assert |b - a| == 0;
  }

  /** The per-user state of the weekday picker (user_reminder_context's
      selected_days, and user_edit_context's for the edit wizard). */
  class DayPicker {
    var selected: seq<string>

    /** A fresh context: nothing selected. */
    constructor ()
      ensures selected == []
    {
      selected := [];
    }

    /** The picker of an edit, started from the reminder's stored days. */
    constructor ForEdit(days: seq<string>)
      ensures selected == days
    {
      selected := days;
    }

    /** toggle_day:<day> and edit_toggle_day:<day>. */
    method Toggle(day: string)
      modifies this
      ensures selected == Toggled(old(selected), day)
    {
      var i := 0;
      while i < |selected| && selected[i] != day
        invariant 0 <= i <= |selected|
        invariant day !in selected[..i]
      {
        assert selected[..i + 1] == selected[..i] + [selected[i]];
        i := i + 1;
      }
      if i < |selected| {
        RemoveFirstAt(selected, day, i);
        selected := selected[..i] + selected[i + 1..];
      } else {
        selected := selected + [day];
      }
    }

    /** select_all_days and edit_select_all_days. */
    method SelectAll()
      modifies this
      ensures selected == AllDays
    {
      selected := AllDays;
    }

    /** set_recurring_time goes on to the time step only with a selection. */
    function CanSetTime(): (ok: bool)
      reads this
    {
      |selected| > 0
    }
  }

  // ---------------------------------------------------------------------
  // Calendar navigation

  /** Months counted from year 0, January: the calendar's position. */
  function MonthIndex(year: int, month: int): int { 12 * year + month - 1 }

  /** The month before (year, month). */
  function PrevMonth(year: int, month: int): (r: (int, int))
    requires 1 <= month <= 12
    ensures 1 <= r.1 <= 12
    ensures MonthIndex(r.0, r.1) == MonthIndex(year, month) - 1
  {
    if month > 1 then (year, month - 1) else (year - 1, 12)
  }

  /** The month after (year, month). */
  function NextMonth(year: int, month: int): (r: (int, int))
    requires 1 <= month <= 12
    ensures 1 <= r.1 <= 12
    ensures MonthIndex(r.0, r.1) == MonthIndex(year, month) + 1
  {
    if month < 12 then (year, month + 1) else (year + 1, 1)
  }

  /** Going back a month and forward again returns to the same month. */
  lemma PrevNextInverse(year: int, month: int)
    requires 1 <= month <= 12
    ensures NextMonth(PrevMonth(year, month).0, PrevMonth(year, month).1) == (year, month)
    ensures PrevMonth(NextMonth(year, month).0, NextMonth(year, month).1) == (year, month)
  {
  }

  /** The callback data of a navigation button. */
  function CalendarData(year: nat, month: nat): string {
    "calendar:" + NatToString(year) + "-" + Pad2(month)
  }

  /** The handler of calendar:<year>-<month>: None where the source raises. */
  function ParseCalendarData(data: string): Option<(int, int)> {
    if !StartsWith(data, "calendar:") then None
    else
      var parts := Split(data[|"calendar:"|..], '-');
      if |parts| == 2 && PyInt(parts[0]).Some? && PyInt(parts[1]).Some?
      then Some((PyInt(parts[0]).value, PyInt(parts[1]).value))
      else None
  }

  /** The handler reads back the month the button was made for. */
  lemma CalendarRoundTrip(year: nat, month: nat)
    requires 1 <= month <= 12
    ensures ParseCalendarData(CalendarData(year, month)) == Some((year, month))
  {
    var y, mm := NatToString(year), Pad2(month);
    var data := CalendarData(year, month);
    assert StartsWith(data, "calendar:");
    assert data[|"calendar:"|..] == y + ['-'] + mm;
    SplitDash(y, mm);
    PyIntRoundTrip(year);
    PyIntRoundTrip(month);
  }

  /** Splitting two ASCII digit strings joined by a dash at the dash. */
  lemma SplitDash(y: string, mm: string)
    requires AsciiDigits(y) && AsciiDigits(mm)
    ensures Split(y + ['-'] + mm, '-') == [y, mm]
  {
    assert '-' !in y && '-' !in mm;
    SplitAfterWord(y, mm, '-');
    SplitNoSeparator(mm, '-');
  }

  // ---------------------------------------------------------------------
  // Typed times

  /** How a typed time is taken: an HH:MM clock time (normalised), a form with
      am/pm left to the date parser, or rejected. */
  datatype TimeInput = Clock(time: string) | Meridiem | Invalid

  predicate HasMeridiemWord(s: string) {
    Contains(s, "am") || Contains(s, "pm") || Contains(s, "a.m.") || Contains(s, "p.m.")
  }

  /** The clock time text for hour h and minute m. */
  function ClockText(h: nat, m: nat): string { Pad2(h) + ":" + Pad2(m) }

  /** The HH:MM branch: exactly one colon, two integers, an hour of the day and
      a minute of the hour. */
  function ClockParts(text: string): TimeInput
  {
    var parts := Split(text, ':');
    if |parts| == 2 then ClockOf(PyInt(parts[0]), PyInt(parts[1])) else Invalid
  }

  /** The hour and minute read by int(), when both are in range. */
  function ClockOf(hour: Option<int>, minute: Option<int>): TimeInput {
    if hour.Some? && minute.Some? && 0 <= hour.value <= 23 && 0 <= minute.value <= 59
    then Clock(ClockText(hour.value, minute.value))
    else Invalid
  }

  /** The HH:MM check of the one-time and recurring time steps. */
  function CheckTime(text: string): TimeInput
  {
    var clean := Lower(Strip(text));
    if ':' in text && !HasMeridiemWord(clean) then ClockParts(text)
    else if HasMeridiemWord(clean) then Meridiem
    else Invalid
  }

  /** HH:MM for an hour and a minute below 100 is five characters d d : d d. */
  lemma ClockTextShape(h: nat, m: nat)
    requires h < 100 && m < 100
    ensures Recurrence.IsTimeText(ClockText(h, m)) && |ClockText(h, m)| == 5
  {
    var t := ClockText(h, m);
    assert t[0] == Pad2(h)[0] && t[1] == Pad2(h)[1] && t[2] == ':';
    assert t[3] == Pad2(m)[0] && t[4] == Pad2(m)[1];
  }

  /** An accepted clock time is HH:MM for an hour of the day and a minute of
      the hour, and the pattern \d{1,2}:\d{2} matches it. */
  lemma CheckTimeSound(text: string)
    requires CheckTime(text).Clock?
    ensures exists h: nat, m: nat :: h <= 23 && m <= 59 && CheckTime(text).time == ClockText(h, m)
    ensures Recurrence.IsTimeText(CheckTime(text).time)
  {
    assert ClockParts(text).Clock?;
    var parts := Split(text, ':');
    var c := ClockOf(PyInt(parts[0]), PyInt(parts[1]));
    assert c.Clock?;
    var h: nat := PyInt(parts[0]).value;
    var m: nat := PyInt(parts[1]).value;
    assert c.time == ClockText(h, m);
    ClockTextShape(h, m);
  }

  /** A digit-and-colon text holds no am/pm word. */
  lemma NoMeridiem(s: string)
    requires forall i :: 0 <= i < |s| ==> IsDigit(s[i]) || s[i] == ':'
    ensures !HasMeridiemWord(s)
  {
    forall k | 0 <= k <= |s| ensures !StartsWith(s[k..], "am") && !StartsWith(s[k..], "pm")
      && !StartsWith(s[k..], "a.m.") && !StartsWith(s[k..], "p.m.")
    {
      if k < |s| {
        assert s[k..][0] == s[k];
      }
    }
  }

  /** A text of digits and colons goes to the HH:MM branch. */
  lemma CheckTimeDigits(text: string)
    requires ':' in text
    requires forall i :: 0 <= i < |text| ==> IsDigit(text[i]) || text[i] == ':'
    ensures CheckTime(text) == ClockParts(text)
  {
    forall i | 0 <= i < |text| ensures !IsSpace(text[i]) && LowerChar(text[i]) == text[i] {
      if text[i] != ':' {
        DigitIsPlain(text[i]);
      }
    }
    assert Strip(text) == text by {
      StripNoSpace(text);
    }
    assert Lower(text) == text;
    NoMeridiem(text);
  }

  /** Text with one colon is read as the two sides of the colon. */
  lemma ClockPartsSplit(hs: string, ms: string)
    requires ':' !in hs && ':' !in ms
    ensures ClockParts(hs + ":" + ms) == ClockOf(PyInt(hs), PyInt(ms))
  {
    assert hs + ":" + ms == hs + [':'] + ms;
    SplitAfterWord(hs, ms, ':');
    SplitNoSeparator(ms, ':');
  }

  /** Digits, a colon and digits are read as the two numbers. */
  lemma CheckTimeOfDigits(hs: string, ms: string)
    requires AllDigits(hs) && AllDigits(ms)
    ensures CheckTime(hs + ":" + ms) == ClockOf(PyInt(hs), PyInt(ms))
  {
    var text := hs + ":" + ms;
    assert text[|hs|] == ':';
    assert forall i :: 0 <= i < |text| ==> IsDigit(text[i]) || text[i] == ':';
    CheckTimeDigits(text);
    assert ':' !in hs && ':' !in ms;
    ClockPartsSplit(hs, ms);
  }

  /** Every hour of the day and minute of the hour, typed as str(h):str(m), is
      accepted and normalised to HH:MM. */
  lemma CheckTimeComplete(h: nat, m: nat)
    requires h <= 23 && m <= 59
    ensures CheckTime(NatToString(h) + ":" + NatToString(m)) == Clock(ClockText(h, m))
  {
    PyIntRoundTrip(h);
    PyIntRoundTrip(m);
    AsciiAllDigits(NatToString(h));
    AsciiAllDigits(NatToString(m));
    CheckTimeOfValues(NatToString(h), NatToString(m), h, m);
  }

  /** Digits, a colon and digits whose values are an hour of the day and a
      minute of the hour are accepted as that time. */
  lemma CheckTimeOfValues(hs: string, ms: string, h: nat, m: nat)
    requires AllDigits(hs) && AllDigits(ms) && PyInt(hs) == Some(h) && PyInt(ms) == Some(m)
    requires h <= 23 && m <= 59
    ensures CheckTime(hs + ":" + ms) == Clock(ClockText(h, m))
  {
    CheckTimeOfDigits(hs, ms);
  }

  /** Digits of another script count as int() reads them: twelve thirty in
      Arabic-Indic digits is accepted as 12:30. */
  lemma CheckTimeArabicIndic()
    ensures CheckTime("\U{661}\U{662}:\U{663}\U{660}") == Clock("12:30")
  {
    var hs, ms := "\U{661}\U{662}", "\U{663}\U{660}";
    assert hs + ":" + ms == "\U{661}\U{662}:\U{663}\U{660}";
    ArabicIndicValues();
    ClockText1230();
    CheckTimeOfValues(hs, ms, 12, 30);
  }

  lemma ArabicIndicValues()
    ensures AllDigits("\U{661}\U{662}") && PyInt("\U{661}\U{662}") == Some(12)
    ensures AllDigits("\U{663}\U{660}") && PyInt("\U{663}\U{660}") == Some(30)
  {
    var hs, ms := "\U{661}\U{662}", "\U{663}\U{660}";
    assert StringToNat(hs) == 12 by {
      assert hs[..1] == "\U{661}" && hs[..1][..0] == [];
      assert DigitValue(hs[0]) == 1 && DigitValue(hs[1]) == 2;
    }
    assert StringToNat(ms) == 30 by {
      assert ms[..1] == "\U{663}" && ms[..1][..0] == [];
      assert DigitValue(ms[0]) == 3 && DigitValue(ms[1]) == 0;
    }
    PyIntDigits(hs);
    PyIntDigits(ms);
  }

  lemma ClockText1230()
    ensures ClockText(12, 30) == "12:30"
  {
    assert NatToString(1) == "1" && NatToString(3) == "3";
    assert NatToString(12) == "12" && NatToString(30) == "30";
  }

  /** Normalising is idempotent: an HH:MM time the check produced is accepted
      again unchanged. */
  lemma CheckTimeIdempotent(h: nat, m: nat)
    requires h <= 23 && m <= 59
    ensures CheckTime(ClockText(h, m)) == Clock(ClockText(h, m))
  {
    CheckTimeOfDigits(Pad2(h), Pad2(m));
    PyIntRoundTrip(h);
    PyIntRoundTrip(m);
  }
}
