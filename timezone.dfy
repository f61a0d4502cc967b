/** Timezone resolution (get_user_timezone) over the two in-memory caches,
    user_timezones and chat_timezones, backed by the timezone_preferences
    table; and the start-up load of that table into the caches. */
module Timezones {
  import opened Common
  import opened ReminderStore

  /** The entity_type values of the preferences table. */
  const UserKind: string := "user"
  const ChatKind: string := "chat"

  /** The timezone chat_tz falls back to. */
  const ChatFallback: string := "UTC"

  predicate IsGroup(chatType: string) { chatType == "group" || chatType == "supergroup" }

  /** A personal timezone that takes precedence: set and not the default. */
  predicate Overrides(userTz: string) { userTz != "" && userTz != DefaultTimezone }

  /** user_tz: the cached value, or else the stored preference. */
  function UserLookup(users: map<int, string>, prefs: map<int, Preference>, next: int, userId: int): string {
    if userId in users then users[userId] else TimezonePreference(prefs, next, userId, UserKind)
  }

  /** user_timezones after the lookup: a value read from the store is cached
      unless it is the default. */
  function UserCacheAfter(users: map<int, string>, prefs: map<int, Preference>, next: int,
                          userId: int): map<int, string> {
    if userId in users then users
    else
      var tz := TimezonePreference(prefs, next, userId, UserKind);
      if tz != DefaultTimezone then users[userId := tz] else users
  }

  /** chat_tz: the cached value, or else the stored preference. */
  function ChatLookup(chats: map<int, string>, prefs: map<int, Preference>, next: int, chatId: int): string {
    if chatId in chats then chats[chatId] else TimezonePreference(prefs, next, chatId, ChatKind)
  }

  /** chat_timezones after the lookup: a value read from the store is cached
      unless it is UTC. */
  function ChatCacheAfter(chats: map<int, string>, prefs: map<int, Preference>, next: int,
                          chatId: int): map<int, string> {
    if chatId in chats then chats
    else
      var tz := TimezonePreference(prefs, next, chatId, ChatKind);
      if tz != ChatFallback then chats[chatId := tz] else chats
  }

  /** The chat lookup is made only for a group without a personal override. */
  predicate ChatConsulted(users: map<int, string>, prefs: map<int, Preference>, next: int, userId: int,
                          chatType: string) {
    !Overrides(UserLookup(users, prefs, next, userId)) && IsGroup(chatType)
  }

  /** get_user_timezone's result. */
  function Resolve(users: map<int, string>, chats: map<int, string>, prefs: map<int, Preference>, next: int,
                   userId: int, chatType: string, chatId: int): string {
    var userTz := UserLookup(users, prefs, next, userId);
    if Overrides(userTz) then userTz
    else if IsGroup(chatType) then
      var chatTz := ChatLookup(chats, prefs, next, chatId);
      if chatTz != "" then chatTz else ChatFallback
    else if userTz != "" then userTz else DefaultTimezone
  }

  /** chat_timezones after get_user_timezone. */
  function ChatCacheResolved(users: map<int, string>, chats: map<int, string>, prefs: map<int, Preference>,
                             next: int, userId: int, chatType: string, chatId: int): map<int, string> {
    if ChatConsulted(users, prefs, next, userId, chatType) then ChatCacheAfter(chats, prefs, next, chatId)
    else chats
  }

  // ---------------------------------------------------------------------
  // Properties of resolution

  /** A personal timezone other than the default wins in every chat type, even
      in a group with its own timezone. */
  lemma PersonalTimezoneWins(users: map<int, string>, chats: map<int, string>, prefs: map<int, Preference>,
                             next: int, userId: int, chatType: string, chatId: int)
    requires Overrides(UserLookup(users, prefs, next, userId))
    ensures Resolve(users, chats, prefs, next, userId, chatType, chatId) == UserLookup(users, prefs, next, userId)
    ensures ChatCacheResolved(users, chats, prefs, next, userId, chatType, chatId) == chats
  {
  }

  /** Without a personal override a group gets its chat timezone, UTC only when
      that is empty, and Asia/Tashkent when the chat is neither cached nor has
      a saved preference; a private chat always gets Asia/Tashkent. */
  lemma WithoutOverride(users: map<int, string>, chats: map<int, string>, prefs: map<int, Preference>,
                        next: int, userId: int, chatType: string, chatId: int)
    requires !Overrides(UserLookup(users, prefs, next, userId))
    ensures IsGroup(chatType) ==>
              Resolve(users, chats, prefs, next, userId, chatType, chatId)
              == (if ChatLookup(chats, prefs, next, chatId) != "" then ChatLookup(chats, prefs, next, chatId)
                  else "UTC")
    ensures IsGroup(chatType) && chatId !in chats
            && (forall k :: k in prefs && 1 <= k < next ==>
                  !(prefs[k].entityId == chatId && prefs[k].entityType == "chat"))
            ==> Resolve(users, chats, prefs, next, userId, chatType, chatId) == "Asia/Tashkent"
    ensures !IsGroup(chatType) ==> Resolve(users, chats, prefs, next, userId, chatType, chatId) == "Asia/Tashkent"
  {
  }

  /** The caches only grow, keep what they held, and never gain Asia/Tashkent
      as a user's timezone nor UTC as a chat's. */
  lemma CachesGrowWithoutDefaults(users: map<int, string>, chats: map<int, string>,
                                  prefs: map<int, Preference>, next: int, userId: int, chatType: string,
                                  chatId: int)
    ensures var u := UserCacheAfter(users, prefs, next, userId);
            (forall k :: k in users ==> k in u && u[k] == users[k])
            && (forall k :: k in u && k !in users ==> k == userId && u[k] != "Asia/Tashkent")
    ensures var c := ChatCacheResolved(users, chats, prefs, next, userId, chatType, chatId);
            (forall k :: k in chats ==> k in c && c[k] == chats[k])
            && (forall k :: k in c && k !in chats ==> k == chatId && c[k] != "UTC")
  {
  }

  /** Once the ids it needs are cached, resolution does not depend on the
      store, and the caches stay as they are. */
  lemma CachedIgnoresStore(users: map<int, string>, chats: map<int, string>, prefs: map<int, Preference>,
                           next: int, prefs2: map<int, Preference>, next2: int, userId: int, chatType: string,
                           chatId: int)
    requires userId in users
    requires IsGroup(chatType) && !Overrides(users[userId]) ==> chatId in chats
    ensures Resolve(users, chats, prefs, next, userId, chatType, chatId)
            == Resolve(users, chats, prefs2, next2, userId, chatType, chatId)
    ensures UserCacheAfter(users, prefs, next, userId) == users
    ensures ChatCacheResolved(users, chats, prefs, next, userId, chatType, chatId) == chats
  {
  }

  // ---------------------------------------------------------------------
  // Loading the table into the caches

  /** A cache after the rows of one entity type are written into it in order. */
  function Loaded(cache: map<int, string>, rows: seq<Preference>, kind: string): map<int, string>
    decreases |rows|
  {
    if |rows| == 0 then cache
    else
      var m := Loaded(cache, rows[..|rows| - 1], kind);
      var p := rows[|rows| - 1];
      if p.entityType == kind then m[p.entityId := p.timezone] else m
  }

  /** Loading one more row. */
  lemma LoadedStep(cache: map<int, string>, rows: seq<Preference>, i: int, kind: string)
    requires 0 <= i < |rows|
    ensures rows[i].entityType == kind ==>
              Loaded(cache, rows[..i + 1], kind) == Loaded(cache, rows[..i], kind)[rows[i].entityId := rows[i].timezone]
    ensures rows[i].entityType != kind ==> Loaded(cache, rows[..i + 1], kind) == Loaded(cache, rows[..i], kind)
  {
    assert rows[..i + 1][..i] == rows[..i];
  }

  /** An entity without a row of that type keeps its cache entry, or its
      absence. */
  lemma {:induction false} LoadedUntouched(cache: map<int, string>, rows: seq<Preference>, kind: string, e: int)
    requires forall i :: 0 <= i < |rows| ==> !(rows[i].entityId == e && rows[i].entityType == kind)
    ensures (e in Loaded(cache, rows, kind) <==> e in cache)
    ensures e in cache ==> Loaded(cache, rows, kind)[e] == cache[e]
    decreases |rows|
  {
    if |rows| > 0 {
      LoadedUntouched(cache, rows[..|rows| - 1], kind, e);
    }
  }

  /** An entity whose rows of that type all carry timezone t, and which has
      one, ends with t. */
  lemma {:induction false} LoadedAgrees(cache: map<int, string>, rows: seq<Preference>, kind: string, e: int,
                                        t: string, i: int)
    requires 0 <= i < |rows| && rows[i].entityId == e && rows[i].entityType == kind
    requires forall j :: 0 <= j < |rows| && rows[j].entityId == e && rows[j].entityType == kind
                         ==> rows[j].timezone == t
    ensures e in Loaded(cache, rows, kind) && Loaded(cache, rows, kind)[e] == t
    decreases |rows|
  {
    var last := rows[|rows| - 1];
    var init := rows[..|rows| - 1];
    if !(last.entityId == e && last.entityType == kind) {
      assert i < |init| && init[i] == rows[i];
      LoadedAgrees(cache, init, kind, e, t, i);
    }
  }

  /** After the load, every entity with a saved preference of that type is
      cached with exactly the value get_timezone_preference returns. */
  lemma LoadMatchesStore(cache: map<int, string>, prefs: map<int, Preference>, next: int, kind: string, k: int)
    requires UniqueKeys(prefs) && IdsBelow(prefs, next) && k in prefs && prefs[k].entityType == kind
    ensures var m := Loaded(cache, AllPreferences(prefs, next), kind);
            var e := prefs[k].entityId;
            e in m && m[e] == TimezonePreference(prefs, next, e, kind)
  {
    var rows := AllPreferences(prefs, next);
    var e := prefs[k].entityId;
    TimezonePreferenceOfRow(prefs, next, k);
    var i :| 0 <= i < |rows| && rows[i] == prefs[k];
    forall j | 0 <= j < |rows| && rows[j].entityId == e && rows[j].entityType == kind
      ensures rows[j].timezone == prefs[k].timezone
    {
      var k2 :| k2 in prefs && prefs[k2] == rows[j];
    }
    LoadedAgrees(cache, rows, kind, e, prefs[k].timezone, i);
  }

  // ---------------------------------------------------------------------
  // The caches as an object

  class Resolver {
    /** user_timezones and chat_timezones. */
    var users: map<int, string>
    var chats: map<int, string>

    constructor ()
      ensures users == map[] && chats == map[]
    {
      users := map[];
      chats := map[];
    }

    /** user_timezones.get(user_id), falling back to the store. */
    method LookupUser(store: Store, userId: int) returns (userTz: string)
      modifies this
      ensures userTz == UserLookup(old(users), store.prefs, store.nextPrefId, userId)
      ensures users == UserCacheAfter(old(users), store.prefs, store.nextPrefId, userId)
      ensures chats == old(chats)
    {
      if userId in users {
        userTz := users[userId];
      } else {
        userTz := TimezonePreference(store.prefs, store.nextPrefId, userId, UserKind);
        if userTz != DefaultTimezone {
          users := users[userId := userTz];
        }
      }
    }

    /** chat_timezones.get(chat_id), falling back to the store. */
    method LookupChat(store: Store, chatId: int) returns (chatTz: string)
      modifies this
      ensures chatTz == ChatLookup(old(chats), store.prefs, store.nextPrefId, chatId)
      ensures chats == ChatCacheAfter(old(chats), store.prefs, store.nextPrefId, chatId)
      ensures users == old(users)
    {
      if chatId in chats {
        chatTz := chats[chatId];
      } else {
        chatTz := TimezonePreference(store.prefs, store.nextPrefId, chatId, ChatKind);
        if chatTz != ChatFallback {
          chats := chats[chatId := chatTz];
        }
      }
    }

    /** get_user_timezone: user override, then chat, then defaults, caching
        what it reads from the store except the defaults. */
    method GetUserTimezone(store: Store, userId: int, chatType: string, chatId: int) returns (tz: string)
      modifies this
      ensures tz == Resolve(old(users), old(chats), store.prefs, store.nextPrefId, userId, chatType, chatId)
      ensures users == UserCacheAfter(old(users), store.prefs, store.nextPrefId, userId)
      ensures chats == ChatCacheResolved(old(users), old(chats), store.prefs, store.nextPrefId, userId,
                                         chatType, chatId)
    {
      var userTz := LookupUser(store, userId);
      if userTz != "" && userTz != DefaultTimezone {
        return userTz;
      }
      if chatType == "group" || chatType == "supergroup" {
        var chatTz := LookupChat(store, chatId);
        return if chatTz != "" then chatTz else ChatFallback;
      }
      return if userTz != "" then userTz else DefaultTimezone;
    }

    /** load_timezone_preferences: every row of the table written into the
        cache of its entity type; rows of any other type are ignored. */
    method LoadTimezonePreferences(store: Store)
      modifies this
      ensures users == Loaded(old(users), AllPreferences(store.prefs, store.nextPrefId), UserKind)
      ensures chats == Loaded(old(chats), AllPreferences(store.prefs, store.nextPrefId), ChatKind)
    {
      var rows := AllPreferences(store.prefs, store.nextPrefId);
      ghost var u0, c0 := users, chats;
      var u, c := users, chats;
      var i := 0;
      while i < |rows|
        invariant 0 <= i <= |rows|
        invariant u == Loaded(u0, rows[..i], UserKind)
        invariant c == Loaded(c0, rows[..i], ChatKind)
      {
        var p := rows[i];
        LoadedStep(u0, rows, i, UserKind);
        LoadedStep(c0, rows, i, ChatKind);
        if p.entityType == UserKind {
          u := u[p.entityId := p.timezone];
          assert u == Loaded(u0, rows[..i + 1], UserKind);
        } else if p.entityType == ChatKind {
          c := c[p.entityId := p.timezone];
          assert u == Loaded(u0, rows[..i + 1], UserKind);
        } else {
          assert u == Loaded(u0, rows[..i + 1], UserKind);
        }
        i := i + 1;
      }
      assert rows[..i] == rows;
      users, chats := u, c;
    }
  }
}
