/** The notes bot's pure rules: the t.me link to a saved message, and the forum
    topic a note belongs to. */
module NotesBot {
  import opened Common
  import opened BotHelpers

  // ---------------------------------------------------------------------
  // str.replace(pat, '') : every occurrence removed, left to right

  /** s.replace(p, ''): occurrences found left to right, not overlapping. */
  function RemoveAll(s: string, p: string): string
    requires |p| > 0
    decreases |s|
  {
    if |s| < |p| then s
    else if s[..|p|] == p then RemoveAll(s[|p|..], p)
    else [s[0]] + RemoveAll(s[1..], p)
  }

  /** A string without the pattern's first character is left unchanged. */
  lemma {:induction false} RemoveAllAbsent(s: string, p: string)
    requires |p| > 0 && p[0] !in s
    ensures RemoveAll(s, p) == s
  {
    if |s| >= |p| {
      assert s[..|p|][0] == s[0];
      RemoveAllAbsent(s[1..], p);
      assert [s[0]] + s[1..] == s;
    }
  }

  /** str(chat_id) with every "-100" removed. */
  function CleanChatId(chatId: int): string {
    RemoveAll(IntToString(chatId), "-100")
  }

  /** Only the "-100" prefix of a supergroup's id is removed: the id of a chat
      whose negated value starts with 100 loses the sign and the 100, and every
      other id is rendered unchanged. */
  lemma CleanChatIdIs(chatId: int)
    ensures CleanChatId(chatId) ==
            if chatId < 0 && StartsWith(NatToString(-chatId), "100")
            then NatToString(-chatId)[3..]
            else IntToString(chatId)
  {
    var s := IntToString(chatId);
    if chatId >= 0 {
      assert forall i :: 0 <= i < |s| ==> IsDigit(s[i]);
      RemoveAllAbsent(s, "-100");
    } else {
      var d := NatToString(-chatId);
      assert s == "-" + d;
      assert '-' !in d by {
        assert forall i :: 0 <= i < |d| ==> IsDigit(d[i]);
      }
      if StartsWith(d, "100") {
        assert s[..4] == "-100";
        assert s[4..] == d[3..];
        assert '-' !in d[3..];
        RemoveAllAbsent(d[3..], "-100");
      } else if |s| >= 4 {
        assert s[..4] != "-100" by {
          assert s[..4][1..] == d[..3];
        }
        assert s[1..] == d;
        RemoveAllAbsent(d, "-100");
      } else {
        assert RemoveAll(s, "-100") == s;
      }
    }
  }

  // ---------------------------------------------------------------------
  // The link builder

  /** The link without the thread part. */
  function BaseLink(chatId: int, messageId: int, username: Option<string>): string {
    if username.Some? && username.value != "" then
      "https://t.me/" + username.value + "/" + IntToString(messageId)
    else
      "https://t.me/c/" + CleanChatId(chatId) + "/" + IntToString(messageId)
  }

  /** create_shareable_message_link. */
  function MessageLink(chatId: int, messageId: int, username: Option<string>, topicId: Option<int>): string {
    var link := BaseLink(chatId, messageId, username);
    if Truthy(topicId) then link + "?thread=" + IntToString(topicId.value) else link
  }

  /** A public chat's link uses its username; a private supergroup's link uses
      its id without the -100 prefix; a topic other than None and 0 adds
      ?thread=<topic>, and no other topic changes the link. */
  lemma MessageLinkShape(chatId: int, messageId: int, username: Option<string>, topicId: Option<int>)
    ensures username.Some? && username.value != "" ==>
            StartsWith(MessageLink(chatId, messageId, username, topicId),
                       "https://t.me/" + username.value + "/" + IntToString(messageId))
    ensures (username.None? || username == Some("")) && chatId < 0 && StartsWith(NatToString(-chatId), "100") ==>
            StartsWith(MessageLink(chatId, messageId, username, topicId),
                       "https://t.me/c/" + NatToString(-chatId)[3..] + "/" + IntToString(messageId))
    ensures Truthy(topicId) ==>
            MessageLink(chatId, messageId, username, topicId)
            == BaseLink(chatId, messageId, username) + "?thread=" + IntToString(topicId.value)
    ensures !Truthy(topicId) ==>
            MessageLink(chatId, messageId, username, topicId) == BaseLink(chatId, messageId, username)
  {
    CleanChatIdIs(chatId);
    var link := MessageLink(chatId, messageId, username, topicId);
    var base := BaseLink(chatId, messageId, username);
    assert link[..|base|] == base;
  }

  // ---------------------------------------------------------------------
  // Forum topics of notes

  /** The thread is a forum's General topic or the top of a thread: None, 0, 1,
      or the message's own id. */
  predicate GeneralLike(m: Message) {
    m.threadId.None? || m.threadId.value == 0 || m.threadId.value == 1
    || (m.messageId.Some? && m.threadId == m.messageId)
  }

  /** get_topic_info_from_message of the notes bot. */
  function NoteTopicOf(m: Message): (Option<int>, string)
  {
    if m.hasThread then
      if m.chat.id < 0 && m.chat.isForum then
        if !m.isTopicMessage || GeneralLike(m) then (None, "")
        else (m.threadId, TopicName(m.threadId.value))
      else (None, "")
    else (None, "")
  }

  /** A note is placed in a topic exactly when the message has a thread id,
      belongs to a forum, is a topic message, and its thread is none of None, 0,
      1 and its own message id. */
  lemma NoteTopicOfIff(m: Message)
    ensures NoteTopicOf(m).0.Some? <==>
            (m.hasThread && m.chat.id < 0 && m.chat.isForum && m.isTopicMessage
             && m.threadId.Some? && m.threadId.value !in {0, 1}
             && (m.messageId.Some? ==> m.threadId.value != m.messageId.value))
    ensures NoteTopicOf(m).0.Some? ==> NoteTopicOf(m) == (m.threadId, TopicName(m.threadId.value))
    ensures NoteTopicOf(m).0.None? ==> NoteTopicOf(m).1 == ""
  {
  }

  /** The notes rule is stricter than the reminders rule: whenever it finds a
      topic, the reminder bot finds the same topic with the same name. */
  lemma NoteTopicRefinesReminderTopic(m: Message)
    requires NoteTopicOf(m).0.Some?
    ensures TopicOf(m) == NoteTopicOf(m)
  {
    NoteTopicOfIff(m);
    TopicOfIff(m);
  }

  /** The two rules differ: a reply inside a forum thread that is not flagged as
      a topic message is a topic for reminders but not for notes. */
  lemma TopicRulesDiffer()
    ensures var m := Message(true, Some(5), Some(9), false, Chat(-1005, true, None));
            TopicOf(m) == (Some(5), "Topic #5") && NoteTopicOf(m) == (None, "")
  {
    assert DigitChar(5) == '5';
    assert IntToString(5) == "5";
    assert TopicName(5) == "Topic #5";
  }
}
