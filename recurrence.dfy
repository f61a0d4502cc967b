/** The free-text recurrence rule of the /remind command: "every day at H:MM" and
    "every week on <day> at H:MM", matched case-insensitively at the start of the
    text and followed by whitespace or the end of the text. */
module Recurrence {
  import opened Common

  /** The parsed rule: the time is the matched "H:MM" / "HH:MM" text. */
  datatype Rule = Daily(time: string) | Weekly(day: string, time: string)

  /** The seven full weekday names, lower case, Monday first. */
  const Weekdays: seq<string> :=
    ["monday", "tuesday", "wednesday", "thursday", "friday", "saturday", "sunday"]

  const DailyPrefix: string := "every day at "
  const WeeklyPrefix: string := "every week on "
  const AtWord: string := " at "

  /** s begins with the lower-case literal p, letters compared without case. */
  predicate StartsWithCI(s: string, p: string) {
    |p| <= |s| && Lower(s[..|p|]) == p
  }

  /** The regex class \w with its letters restricted to ASCII. The weekday
      group is always a whole run of word characters, because " at " must
      follow it, so a run holding any other letter fails the rule either way:
      Python's run is then not a weekday, and this run ends at that letter,
      where no " at " follows. Digits are Unicode decimal digits, as in \w. */
  predicate IsWordChar(c: char) {
    ('a' <= c <= 'z') || ('A' <= c <= 'Z') || IsDigit(c) || c == '_'
  }

  /** The lookahead (?:\s|$): the end of the text or a whitespace character. */
  predicate Boundary(s: string) {
    |s| == 0 || IsSpace(s[0])
  }

  /** The text of a \d{1,2}:\d{2} match. */
  predicate IsTimeText(t: string) {
    (|t| == 4 && IsDigit(t[0]) && t[1] == ':' && IsDigit(t[2]) && IsDigit(t[3]))
    || (|t| == 5 && IsDigit(t[0]) && IsDigit(t[1]) && t[2] == ':' && IsDigit(t[3]) && IsDigit(t[4]))
  }

  // ---------------------------------------------------------------------
  // The matcher

  /** The \d{1,2}:\d{2}(?:\s|$) match at the start of s, if any. */
  function TimeToken(s: string): (r: Option<string>)
  {
    if |s| >= 5 && IsDigit(s[0]) && IsDigit(s[1]) && s[2] == ':' && IsDigit(s[3]) && IsDigit(s[4])
    then (if Boundary(s[5..]) then Some(s[..5]) else None)
    else if |s| >= 4 && IsDigit(s[0]) && s[1] == ':' && IsDigit(s[2]) && IsDigit(s[3]) && Boundary(s[4..])
    then Some(s[..4])
    else None
  }

  /** The length of the longest run of word characters at the start of s. */
  function WordRun(s: string): (n: nat)
    ensures n <= |s|
    ensures forall i :: 0 <= i < n ==> IsWordChar(s[i])
    ensures n < |s| ==> !IsWordChar(s[n])
  {
    if |s| == 0 || !IsWordChar(s[0]) then 0 else 1 + WordRun(s[1..])
  }

  /** parse_recurrence: the daily form first, then the weekly form. */
  function ParseRecurrence(text: string): Option<Rule>
  {
    if StartsWithCI(text, DailyPrefix) && TimeToken(text[|DailyPrefix|..]).Some? then
      Some(Daily(TimeToken(text[|DailyPrefix|..]).value))
    else if StartsWithCI(text, WeeklyPrefix) then
      var rest := text[|WeeklyPrefix|..];
      var n := WordRun(rest);
      if n >= 1 && StartsWithCI(rest[n..], AtWord) && TimeToken(rest[n + |AtWord|..]).Some?
         && Lower(rest[..n]) in Weekdays
      then Some(Weekly(Lower(rest[..n]), TimeToken(rest[n + |AtWord|..]).value))
      else None
    else None
  }

  // ---------------------------------------------------------------------
  // The patterns as relations between a text and the groups they capture

  /** \d{1,2}:\d{2}(?:\s|$) matches at the start of s with text time. */
  predicate TimeMatch(s: string, time: string) {
    IsTimeText(time) && StartsWith(s, time) && Boundary(s[|time|..])
  }

  /** The daily pattern matches text with group 1 = time. */
  predicate DailyMatch(text: string, time: string) {
    StartsWithCI(text, DailyPrefix) && TimeMatch(text[|DailyPrefix|..], time)
  }

  /** " at " then the time, at the start of s. */
  predicate AtTimeMatch(s: string, time: string) {
    StartsWithCI(s, AtWord) && TimeMatch(s[|AtWord|..], time)
  }

  /** (\w+) at (\d{1,2}:\d{2})(?:\s|$) at the start of s, with the two groups. */
  predicate WordAtTimeMatch(s: string, word: string, time: string) {
    |word| >= 1 && (forall i :: 0 <= i < |word| ==> IsWordChar(word[i]))
    && StartsWith(s, word) && AtTimeMatch(s[|word|..], time)
  }

  /** The weekly pattern matches text with group 1 = word and group 2 = time. */
  predicate WeeklyMatch(text: string, word: string, time: string) {
    StartsWithCI(text, WeeklyPrefix) && WordAtTimeMatch(text[|WeeklyPrefix|..], word, time)
  }

  // ---------------------------------------------------------------------
  // The matcher agrees with the patterns

  /** The time token found is exactly the one time text the pattern allows. */
  lemma TimeTokenIff(s: string, time: string)
    ensures TimeToken(s) == Some(time) <==> TimeMatch(s, time)
  {
    if TimeMatch(s, time) {
      if |time| == 5 {
        assert s[..5] == time;
      } else {
        assert s[..4] == time;
        assert s[1] == ':';
      }
    }
  }

  /** No text starts with both the daily and the weekly prefix. */
  lemma PrefixesExclusive(text: string)
    ensures !(StartsWithCI(text, DailyPrefix) && StartsWithCI(text, WeeklyPrefix))
  {
    if StartsWithCI(text, WeeklyPrefix) {
      assert LowerChar(text[6]) == 'w' by {
        assert Lower(text[..|WeeklyPrefix|])[6] == 'w';
      }
    }
  }

  /** A run of word characters followed by " at " is the longest run. */
  lemma WordRunOfWord(s: string, word: string, time: string)
    requires WordAtTimeMatch(s, word, time)
    ensures WordRun(s) == |word|
  {
    assert s[|word|] == ' ' by {
      assert Lower(s[|word|..][..|AtWord|])[0] == ' ';
      assert s[|word|..][..|AtWord|][0] == s[|word|];
    }
    assert forall i :: 0 <= i < |word| ==> s[i] == word[i] by {
      assert s[..|word|] == word;
    }
  }

  /** The word/at/time part of the matcher agrees with its pattern. */
  lemma WordAtTimeIff(s: string, time: string)
    ensures (WordRun(s) >= 1 && StartsWithCI(s[WordRun(s)..], AtWord)
             && TimeToken(s[WordRun(s) + |AtWord|..]) == Some(time))
            <==> WordAtTimeMatch(s, s[..WordRun(s)], time)
  {
    var n := WordRun(s);
    if n >= 1 && StartsWithCI(s[n..], AtWord) {
      assert s[n..][|AtWord|..] == s[n + |AtWord|..];
      TimeTokenIff(s[n + |AtWord|..], time);
    }
  }

  /** The daily rule reads a time in Arabic-Indic digits as \d does. */
  lemma DailyArabicIndic()
    ensures ParseRecurrence("every day at \U{661}\U{662}:\U{663}\U{660} call")
            == Some(Daily("\U{661}\U{662}:\U{663}\U{660}"))
  {
    var text := "every day at \U{661}\U{662}:\U{663}\U{660} call";
    var time := "\U{661}\U{662}:\U{663}\U{660}";
    assert Lower(text[..|DailyPrefix|]) == DailyPrefix;
    assert text[|DailyPrefix|..] == time + " call";
    assert TimeMatch(text[|DailyPrefix|..], time) by {
      assert (time + " call")[..|time|] == time;
      assert (time + " call")[|time|..] == " call";
    }
    ParseDailyIff(text, time);
  }

  /** The parser returns a daily rule exactly when the daily pattern matches. */
  lemma ParseDailyIff(text: string, time: string)
    ensures ParseRecurrence(text) == Some(Daily(time)) <==> DailyMatch(text, time)
  {
    if StartsWithCI(text, DailyPrefix) {
      TimeTokenIff(text[|DailyPrefix|..], time);
    }
  }

  /** A weekly rule comes from a match of the weekly pattern with a weekday word. */
  lemma ParseWeeklySound(text: string, day: string, time: string)
    requires ParseRecurrence(text) == Some(Weekly(day, time))
    ensures exists word :: WeeklyMatch(text, word, time) && Lower(word) == day && day in Weekdays
  {
    PrefixesExclusive(text);
    var rest := text[|WeeklyPrefix|..];
    WordAtTimeIff(rest, time);
    assert WeeklyMatch(text, rest[..WordRun(rest)], time);
  }

  /** A match of the weekly pattern with a weekday word gives that weekly rule. */
  lemma ParseWeeklyComplete(text: string, word: string, time: string)
    requires WeeklyMatch(text, word, time) && Lower(word) in Weekdays
    ensures ParseRecurrence(text) == Some(Weekly(Lower(word), time))
  {
    PrefixesExclusive(text);
    var rest := text[|WeeklyPrefix|..];
    WordRunOfWord(rest, word, time);
    assert rest[..|word|] == word;
    WordAtTimeIff(rest, time);
  }

  /** The parser returns a weekly rule for text exactly when the weekly pattern
      matches with a word whose lower-case form is a weekday name, that form
      being the rule's day. */
  lemma ParseWeeklyIff(text: string, day: string, time: string)
    ensures ParseRecurrence(text) == Some(Weekly(day, time)) <==>
            (exists word :: WeeklyMatch(text, word, time) && Lower(word) == day && day in Weekdays)
  {
    if ParseRecurrence(text) == Some(Weekly(day, time)) {
      ParseWeeklySound(text, day, time);
    }
    if word :| WeeklyMatch(text, word, time) && Lower(word) == day && day in Weekdays {
      ParseWeeklyComplete(text, word, time);
    }
  }

  /** The parser returns None exactly when neither pattern matches with an
      acceptable day. */
  lemma ParseNoneIff(text: string)
    ensures ParseRecurrence(text) == None <==>
            ((forall time :: !DailyMatch(text, time))
             && (forall word, time :: WeeklyMatch(text, word, time) ==> Lower(word) !in Weekdays))
  {
    match ParseRecurrence(text)
    case Some(Daily(t)) =>
      ParseDailyIff(text, t);
    case Some(Weekly(d, t)) =>
      ParseWeeklyIff(text, d, t);
    case None =>
      forall time ensures !DailyMatch(text, time) {
        ParseDailyIff(text, time);
      }
      forall word, time | WeeklyMatch(text, word, time) ensures Lower(word) !in Weekdays {
        if Lower(word) in Weekdays {
          ParseWeeklyComplete(text, word, time);
        }
      }
  }
}
