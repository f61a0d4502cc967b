/** The notes table of the notes database. As for the reminders, the table is a
    map from the SERIAL id to the row with the next id the sequence hands out;
    add, delete and update are methods on a NoteStore object, the listings,
    the search and the count are functions of the table. */
module NotesStore {
  import opened Common
  import Ordering

  /** A row of the notes table. The title and description columns are
      nullable; created_at and updated_at default to the time of the insert. */
  datatype Note = Note(
    userId: int, chatId: int, topicId: Option<int>, messageId: int,
    messageText: string, messageLink: string, title: Option<string>,
    description: Option<string>, createdAt: int, updatedAt: int)

  /** Every key of the table is an id the sequence has already handed out. */
  predicate IdsBelow(m: map<int, Note>, next: int) {
    1 <= next && forall id :: id in m ==> 1 <= id < next
  }

  /** The ORDER BY created_at DESC key. */
  function NoteRank(n: Note): int { -n.createdAt }

  // ---------------------------------------------------------------------
  // Listings

  /** The WHERE clause of get_user_notes and get_note_count: the user's rows
      in the chat, with topic_id equal to the topic given, or NULL when none
      is given. */
  predicate InTopic(n: Note, userId: int, chatId: int, topicId: Option<int>) {
    n.userId == userId && n.chatId == chatId && n.topicId == topicId
  }

  /** The general chat of a forum: topic_id NULL, 0 or 1. */
  predicate IsForumGeneral(t: Option<int>) {
    t.None? || t == Some(0) || t == Some(1)
  }

  /** A listing is newest created_at first. */
  predicate NewestFirst(rows: map<int, Note>, s: seq<int>)
    requires Ordering.InTable(rows, s)
  {
    forall i, j :: 0 <= i < j < |s| ==> rows[s[i]].createdAt >= rows[s[j]].createdAt
  }

  /** A listing sorted by NoteRank is newest first. */
  lemma RankedNewestFirst(rows: map<int, Note>, s: seq<int>)
    requires Ordering.InTable(rows, s) && Ordering.SortedByRank(rows, NoteRank, s)
    ensures NewestFirst(rows, s)
  {
    forall i, j | 0 <= i < j < |s|
      ensures rows[s[i]].createdAt >= rows[s[j]].createdAt
    {
      assert Ordering.Precedes(NoteRank(rows[s[i]]), s[i], NoteRank(rows[s[j]]), s[j]);
    }
  }

  /** get_user_notes: the user's notes in the chat and topic, newest first;
      without a topic, only the notes whose topic is NULL. */
  function UserNotes(rows: map<int, Note>, next: int, userId: int, chatId: int,
                     topicId: Option<int>): (s: seq<int>)
    requires IdsBelow(rows, next)
    ensures Ordering.InTable(rows, s) && NewestFirst(rows, s)
    ensures forall k :: k in s <==> k in rows && InTopic(rows[k], userId, chatId, topicId)
    ensures NoDuplicates(s)
  {
    var s := Ordering.Query(rows, (n: Note) => InTopic(n, userId, chatId, topicId), NoteRank, next);
    RankedNewestFirst(rows, s);
    s
  }

  /** get_user_notes_forum_general: the user's notes in the chat whose topic
      is NULL, 0 or 1, newest first. */
  function ForumGeneralNotes(rows: map<int, Note>, next: int, userId: int, chatId: int): (s: seq<int>)
    requires IdsBelow(rows, next)
    ensures Ordering.InTable(rows, s) && NewestFirst(rows, s)
    ensures forall k :: k in s <==>
              k in rows && rows[k].userId == userId && rows[k].chatId == chatId
              && IsForumGeneral(rows[k].topicId)
    ensures NoDuplicates(s)
  {
    var s := Ordering.Query(rows, (n: Note) => n.userId == userId && n.chatId == chatId
                                               && IsForumGeneral(n.topicId), NoteRank, next);
    RankedNewestFirst(rows, s);
    s
  }

  /** get_note_by_id: the row, if it exists and belongs to the user. */
  function NoteById(rows: map<int, Note>, id: int, userId: int): (r: Option<Note>)
    ensures r.Some? <==> id in rows && rows[id].userId == userId
    ensures r.Some? ==> r.value == rows[id]
  {
    if id in rows && rows[id].userId == userId then Some(rows[id]) else None
  }

  /** get_note_count: COUNT(*) under the WHERE clause of get_user_notes. */
  function NoteCount(rows: map<int, Note>, userId: int, chatId: int, topicId: Option<int>): nat {
    var matching := set k | k in rows && InTopic(rows[k], userId, chatId, topicId);
    |matching|
  }

  /** The count is the length of the listing for the same user, chat and topic. */
  lemma {:induction false} CountIsListingLength(rows: map<int, Note>, next: int, userId: int, chatId: int,
                                                topicId: Option<int>)
    requires IdsBelow(rows, next)
    ensures NoteCount(rows, userId, chatId, topicId) == |UserNotes(rows, next, userId, chatId, topicId)|
  {
    var s := UserNotes(rows, next, userId, chatId, topicId);
    DistinctCardinality(s);
    assert (set x | x in s) == (set k | k in rows && InTopic(rows[k], userId, chatId, topicId));
  }

  /** Without a topic the listing holds exactly the NULL-topic notes, a subset
      of the forum general listing, which also holds the topics 0 and 1. */
  lemma NoTopicIsNullOnly(rows: map<int, Note>, next: int, userId: int, chatId: int, k: int)
    requires IdsBelow(rows, next) && k in rows && rows[k].userId == userId && rows[k].chatId == chatId
    ensures k in UserNotes(rows, next, userId, chatId, None) <==> rows[k].topicId.None?
    ensures k in UserNotes(rows, next, userId, chatId, None) ==> k in ForumGeneralNotes(rows, next, userId, chatId)
    ensures rows[k].topicId in {Some(0), Some(1)} ==>
              k !in UserNotes(rows, next, userId, chatId, None) && k in ForumGeneralNotes(rows, next, userId, chatId)
  {
  }

  // ---------------------------------------------------------------------
  // search_notes: ILIKE '%term%' on the text, the title or the description

  /** s ILIKE p: '%' matches any run of characters, '_' any one character,
      a backslash makes the next character literal, and every other character
      matches itself regardless of (ASCII) case. A pattern ending in a lone
      backslash is an error in PostgreSQL; here it matches nothing. */
  function ILike(s: string, p: string): bool
    decreases |s| + |p|
  {
    if |p| == 0 then |s| == 0
    else if p[0] == '%' then ILike(s, p[1..]) || (|s| > 0 && ILike(s[1..], p))
    else if p[0] == '_' then |s| > 0 && ILike(s[1..], p[1..])
    else if p[0] == '\\' then
      |p| >= 2 && |s| > 0 && LowerChar(s[0]) == LowerChar(p[1]) && ILike(s[1..], p[2..])
    else |s| > 0 && LowerChar(s[0]) == LowerChar(p[0]) && ILike(s[1..], p[1..])
  }

  /** A term with none of the pattern's special characters. */
  predicate PlainTerm(t: string) {
    forall i :: 0 <= i < |t| ==> t[i] != '%' && t[i] != '_' && t[i] != '\\'
  }

  /** Case-insensitive substring test. */
  predicate ContainsIgnoringCase(s: string, t: string) {
    Contains(Lower(s), Lower(t))
  }

  /** The pattern search_notes builds from the term. */
  function SearchPattern(term: string): (p: string)
    ensures |p| == |term| + 2 && p[0] == '%' && p[|p| - 1] == '%'
  {
    "%" + term + "%"
  }

  /** A NULL column never matches. */
  predicate MatchesColumn(column: Option<string>, pattern: string) {
    column.Some? && ILike(column.value, pattern)
  }

  /** The search's text condition on one row. */
  predicate Matches(n: Note, term: string) {
    var p := SearchPattern(term);
    ILike(n.messageText, p) || MatchesColumn(n.title, p) || MatchesColumn(n.description, p)
  }

  /** search_notes: the notes of the listing whose text, title or description
      matches, newest first. */
  function SearchNotes(rows: map<int, Note>, next: int, userId: int, chatId: int, term: string,
                       topicId: Option<int>): (s: seq<int>)
    requires IdsBelow(rows, next)
    ensures Ordering.InTable(rows, s) && NewestFirst(rows, s)
    ensures forall k :: k in s <==> k in rows && InTopic(rows[k], userId, chatId, topicId)
                                     && Matches(rows[k], term)
    ensures NoDuplicates(s)
  {
    var s := Ordering.Query(rows, (n: Note) => InTopic(n, userId, chatId, topicId) && Matches(n, term),
                            NoteRank, next);
    RankedNewestFirst(rows, s);
    s
  }

  /** '%' alone matches every string. */
  lemma {:induction false} PercentMatchesAll(s: string)
    ensures ILike(s, "%")
    decreases |s|
  {
    if |s| > 0 {
      PercentMatchesAll(s[1..]);
    }
  }

  /** A plain term at the head of a pattern matches exactly its own length of
      characters, ignoring case. */
  lemma {:induction false} PlainPrefix(s: string, t: string, rest: string)
    requires PlainTerm(t)
    ensures ILike(s, t + rest) <==>
              |t| <= |s| && Lower(s[..|t|]) == Lower(t) && ILike(s[|t|..], rest)
    decreases |t|
  {
    if |t| > 0 {
      assert (t + rest)[0] == t[0] && (t + rest)[1..] == t[1..] + rest;
      assert PlainTerm(t[1..]) by {
        forall i | 0 <= i < |t[1..]| ensures t[1..][i] != '%' && t[1..][i] != '_' && t[1..][i] != '\\' {
          assert t[1..][i] == t[i + 1];
        }
      }
      if |s| > 0 {
        PlainPrefix(s[1..], t[1..], rest);
        if |t| <= |s| {
          var head := s[..|t|];
          assert head[0] == s[0] && head[1..] == s[1..][..|t| - 1];
          assert s[1..][|t| - 1..] == s[|t|..];
          LowerHeadTail(head, t);
        }
      }
    } else {
      assert t + rest == rest && s[|t|..] == s;
    }
  }

  /** Two strings of one length agree ignoring case exactly when their first
      characters and their tails do. */
  lemma LowerHeadTail(a: string, b: string)
    requires |a| == |b| > 0
    ensures Lower(a) == Lower(b) <==> LowerChar(a[0]) == LowerChar(b[0]) && Lower(a[1..]) == Lower(b[1..])
  {
    if LowerChar(a[0]) == LowerChar(b[0]) && Lower(a[1..]) == Lower(b[1..]) {
      forall i | 0 <= i < |a| ensures Lower(a)[i] == Lower(b)[i] {
        if i > 0 {
          assert Lower(a[1..])[i - 1] == Lower(b[1..])[i - 1];
        }
      }
    }
    if Lower(a) == Lower(b) {
      forall i | 0 <= i < |a| - 1 ensures Lower(a[1..])[i] == Lower(b[1..])[i] {
        assert Lower(a)[i + 1] == Lower(b)[i + 1];
      }
    }
  }

  /** A leading '%' lets the rest of the pattern match any suffix. */
  lemma {:induction false} PercentPrefix(s: string, q: string)
    ensures ILike(s, "%" + q) <==> exists k :: 0 <= k <= |s| && ILike(s[k..], q)
    decreases |s|
  {
    assert ("%" + q)[1..] == q;
    assert s[0..] == s;
    if |s| > 0 {
      PercentPrefix(s[1..], q);
      forall k | 1 <= k <= |s| ensures s[1..][k - 1..] == s[k..] { }
      if ILike(s[1..], "%" + q) {
        var k :| 0 <= k <= |s[1..]| && ILike(s[1..][k..], q);
        assert ILike(s[k + 1..], q);
      }
      if k :| 0 <= k <= |s| && ILike(s[k..], q) {
        if k > 0 {
          assert ILike(s[1..][k - 1..], q);
        }
      }
    }
  }

  /** For a term without '%', '_' or a backslash, the search pattern matches
      exactly the strings that contain the term, ignoring case. */
  lemma PlainSearch(s: string, term: string)
    requires PlainTerm(term)
    ensures ILike(s, SearchPattern(term)) <==> ContainsIgnoringCase(s, term)
  {
    assert SearchPattern(term) == "%" + (term + "%");
    PercentPrefix(s, term + "%");
    forall k | 0 <= k <= |s|
      ensures ILike(s[k..], term + "%") <==> StartsWith(Lower(s)[k..], Lower(term))
    {
      PlainPrefix(s[k..], term, "%");
      if |term| <= |s[k..]| {
        PercentMatchesAll(s[k..][|term|..]);
        assert Lower(s)[k..][..|term|] == Lower(s[k..][..|term|]);
      }
    }
  }

  /** A plain term finds exactly the scoped notes whose text, title or
      description contains it, ignoring case. */
  lemma SearchFindsPlainTerm(rows: map<int, Note>, next: int, userId: int, chatId: int, term: string,
                             topicId: Option<int>, k: int)
    requires IdsBelow(rows, next) && PlainTerm(term) && k in rows
    ensures k in SearchNotes(rows, next, userId, chatId, term, topicId) <==>
              InTopic(rows[k], userId, chatId, topicId)
              && (ContainsIgnoringCase(rows[k].messageText, term)
                  || (rows[k].title.Some? && ContainsIgnoringCase(rows[k].title.value, term))
                  || (rows[k].description.Some? && ContainsIgnoringCase(rows[k].description.value, term)))
  {
    var n := rows[k];
    PlainSearch(n.messageText, term);
    if n.title.Some? { PlainSearch(n.title.value, term); }
    if n.description.Some? { PlainSearch(n.description.value, term); }
  }

  /** The search results are part of the listing for the same scope. */
  lemma SearchWithinListing(rows: map<int, Note>, next: int, userId: int, chatId: int, term: string,
                            topicId: Option<int>, k: int)
    requires IdsBelow(rows, next) && k in SearchNotes(rows, next, userId, chatId, term, topicId)
    ensures k in UserNotes(rows, next, userId, chatId, topicId)
  {
  }

  // ---------------------------------------------------------------------
  // The writes as functions of the table

  /** update_note's effect: the title and/or description that were given
      replace the stored ones on the row with that id and owner, with
      updated_at, and True is returned; with neither given, or no such row,
      nothing changes and False is returned. */
  function NoteUpdated(rows: map<int, Note>, id: int, userId: int, title: Option<string>,
                       description: Option<string>, now: int): (r: (map<int, Note>, bool))
    ensures r.1 <==> (title.Some? || description.Some?) && NoteById(rows, id, userId).Some?
    ensures r.0.Keys == rows.Keys
    ensures forall k :: k in rows && k != id ==> r.0[k] == rows[k]
    ensures !r.1 ==> r.0 == rows
  {
    if (title.Some? || description.Some?) && id in rows && rows[id].userId == userId then
      var n := rows[id];
      (rows[id := n.(title := if title.Some? then title else n.title,
                     description := if description.Some? then description else n.description,
                     updatedAt := now)], true)
    else (rows, false)
  }

  /** On an update that went through, only the columns given change. */
  lemma UpdateChangesOnlyGiven(rows: map<int, Note>, id: int, userId: int, title: Option<string>,
                               description: Option<string>, now: int)
    requires NoteUpdated(rows, id, userId, title, description, now).1
    ensures var n := rows[id];
            var m := NoteUpdated(rows, id, userId, title, description, now).0[id];
            m.title == (if title.Some? then title else n.title)
            && m.description == (if description.Some? then description else n.description)
            && m.updatedAt == now
            && m.(title := n.title, description := n.description, updatedAt := n.updatedAt) == n
  {
  }

  /** delete_note's effect: the row with that id and owner is removed and True
      returned; any other request removes nothing and returns False. */
  function NoteDeleted(rows: map<int, Note>, id: int, userId: int): (r: (map<int, Note>, bool))
    ensures r.1 <==> NoteById(rows, id, userId).Some?
    ensures r.0.Keys == if r.1 then rows.Keys - {id} else rows.Keys
    ensures forall k :: k in r.0 ==> r.0[k] == rows[k]
    ensures NoteById(r.0, id, userId).None?
  {
    if id in rows && rows[id].userId == userId then (rows - {id}, true) else (rows, false)
  }

  /** A note added under a fresh id reads back with the same owner, and every
      other read by id is as before. */
  lemma AddedNoteReadsBack(rows: map<int, Note>, next: int, n: Note)
    requires IdsBelow(rows, next)
    ensures next !in rows
    ensures NoteById(rows[next := n], next, n.userId) == Some(n)
    ensures forall id, u :: id != next ==> NoteById(rows[next := n], id, u) == NoteById(rows, id, u)
  {
  }

  /** A note added under a fresh id is listed in its own topic's listing, in
      no other topic's, and leaves the other ids of every listing in place. */
  lemma AddedNoteListed(rows: map<int, Note>, next: int, n: Note, topicId: Option<int>)
    requires IdsBelow(rows, next)
    ensures IdsBelow(rows[next := n], next + 1)
    ensures next in UserNotes(rows[next := n], next + 1, n.userId, n.chatId, topicId) <==> topicId == n.topicId
    ensures forall u, c, k :: k != next ==>
              (k in UserNotes(rows[next := n], next + 1, u, c, topicId) <==> k in UserNotes(rows, next, u, c, topicId))
  {
  }

  // ---------------------------------------------------------------------
  // The writes

  class NoteStore {
    var notes: map<int, Note>
    var nextId: int

    predicate Valid()
      reads this
    {
      IdsBelow(notes, nextId)
    }

    constructor ()
      ensures Valid() && notes == map[] && nextId == 1
    {
      notes := map[];
      nextId := 1;
    }

    /** add_note: a new row under the next id, which is returned. */
    method AddNote(userId: int, chatId: int, messageId: int, messageText: string, messageLink: string,
                   topicId: Option<int>, title: Option<string>, description: Option<string>, now: int)
      returns (id: int)
      requires Valid()
      modifies this
      ensures Valid()
      ensures id == old(nextId) && id !in old(notes) && nextId == id + 1
      ensures notes == old(notes)[id := Note(userId, chatId, topicId, messageId, messageText, messageLink,
                                            title, description, now, now)]
    {
      id := nextId;
      notes := notes[id := Note(userId, chatId, topicId, messageId, messageText, messageLink,
                                title, description, now, now)];
      nextId := nextId + 1;
    }

    /** delete_note: removes the row with that id and owner; True iff one was removed. */
    method DeleteNote(id: int, userId: int) returns (ok: bool)
      requires Valid()
      modifies this
      ensures Valid()
      ensures (notes, ok) == NoteDeleted(old(notes), id, userId)
      ensures nextId == old(nextId)
    {
      ok := id in notes && notes[id].userId == userId;
      if ok {
        notes := notes - {id};
      }
    }

    /** update_note: one UPDATE for both columns, for the title alone or for
        the description alone. With neither, no statement runs, the cursor's
        rowcount stays -1, and the result is False. */
    method UpdateNote(id: int, userId: int, title: Option<string>, description: Option<string>, now: int)
      returns (ok: bool)
      requires Valid()
      modifies this
      ensures Valid()
      ensures (notes, ok) == NoteUpdated(old(notes), id, userId, title, description, now)
      ensures nextId == old(nextId)
    {
      var owned := id in notes && notes[id].userId == userId;
      if title.Some? && description.Some? {
        if owned {
          notes := notes[id := notes[id].(title := title, description := description, updatedAt := now)];
        }
      } else if title.Some? {
        if owned {
          notes := notes[id := notes[id].(title := title, updatedAt := now)];
        }
      } else if description.Some? {
        if owned {
          notes := notes[id := notes[id].(description := description, updatedAt := now)];
        }
      } else {
        return false;
      }
      ok := owned;
    }
  }
}
