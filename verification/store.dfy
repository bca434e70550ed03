/**
 * The persistent store of `app/database.py` as an abstract state: a user table, a
 * per-user message log, and the suggestion cache. Time is an explicit integer clock in
 * seconds, standing for SQLite's `CURRENT_TIMESTAMP`.
 *
 * Ordering assumption. The code orders a user's messages only by `created_at`, which has
 * one-second resolution, so two rows written in the same second tie and SQL gives them
 * no defined order. The model keeps each log in insertion order; `TrimKeepsNewest` shows
 * that, on a clock that never runs backwards, this order is one of the orders SQL may use.
 */
module Store {
  import opened Common

  /** `MAX_MEMORY_MESSAGES` in `app/config.py`: the default conversation window. */
  const MaxMemoryMessages: nat := 14

  /** How many messages a user's log keeps after every append. */
  const RetainedMessages: nat := MaxMemoryMessages * 2

  /** Suggestions older than this many seconds are swept on the next write. */
  const SuggestionTtl: int := 24 * 60 * 60

  type UserId = int

  /** A conversation turn as the window query returns it: `{"role": …, "content": …}`. */
  datatype Message = Message(role: string, content: string)

  /** A row of the `messages` table of one user. */
  datatype Row = Row(message: Message, createdAt: int)

  /** A row of the `users` table. The language is always written; the two profile
      fields may be NULL. */
  datatype Profile = Profile(language: string, firstName: Option<string>, username: Option<string>)

  /** A row of the `suggestions` table, keyed by its suggestion id. */
  datatype Cached = Cached(text: string, createdAt: int)

  datatype Db = Db(
    users: map<UserId, Profile>,
    logs: map<UserId, seq<Row>>,
    suggestions: map<string, Cached>)

  /** The database right after `init_database`. */
  const Empty := Db(map[], map[], map[])

  /** The rows of user `u`, in insertion order; no rows when the user has none. */
  function Log(db: Db, u: UserId): seq<Row> {
    if u in db.logs then db.logs[u] else []
  }

  function Contents(rows: seq<Row>): (r: seq<Message>)
    ensures |r| == |rows|
    ensures forall i | 0 <= i < |rows| :: r[i] == rows[i].message
  {
    seq(|rows|, i requires 0 <= i < |rows| => rows[i].message)
  }

  /** The last `n` rows, or all of them when there are fewer. */
  function Newest(rows: seq<Row>, n: nat): (r: seq<Row>)
    ensures |r| == Min(n, |rows|)
    ensures r == rows[|rows| - |r|..]
  {
    rows[|rows| - Min(n, |rows|)..]
  }

  // ---------------------------------------------------------------- users

  /** `get_user_language`: the stored language, or `None` for an unknown user. */
  function GetUserLanguage(db: Db, u: UserId): (r: Option<string>)
    ensures r.Some? <==> u in db.users
    ensures r.Some? ==> r.value == db.users[u].language
  {
    if u in db.users then Some(db.users[u].language) else None
  }

  /** `user_exists`: whether the user has a row, which is exactly when a language can be
      read for them. */
  predicate UserExists(db: Db, u: UserId): (r: bool)
    ensures r <==> GetUserLanguage(db, u).Some?
  {
    u in db.users
  }

  /** SQL `COALESCE(new, old)`: the new value unless it is NULL. */
  function Coalesce(given: Option<string>, stored: Option<string>): Option<string> {
    if given.Some? then given else stored
  }

  /** `set_user_language`: an upsert that always replaces the language and replaces a
      profile field only when the new value is not NULL. */
  function SetUserLanguage(db: Db, u: UserId, language: string,
                           firstName: Option<string>, username: Option<string>): (r: Db)
    ensures GetUserLanguage(r, u) == Some(language)
    ensures u !in db.users ==> r.users[u] == Profile(language, firstName, username)
    ensures u in db.users ==>
      && r.users[u].firstName == (if firstName.Some? then firstName else db.users[u].firstName)
      && r.users[u].username == (if username.Some? then username else db.users[u].username)
    ensures r.users.Keys == db.users.Keys + {u}
    ensures forall v | v in db.users && v != u :: r.users[v] == db.users[v]
    ensures r.logs == db.logs && r.suggestions == db.suggestions
  {
    var profile :=
      if u in db.users then
        Profile(language, Coalesce(firstName, db.users[u].firstName), Coalesce(username, db.users[u].username))
      else Profile(language, firstName, username);
    db.(users := db.users[u := profile])
  }

  // ---------------------------------------------------------------- message log

  /** `add_message`: append one row stamped `now`, then delete all but the newest
      `RetainedMessages` rows of that user. */
  function AddMessage(db: Db, u: UserId, role: string, content: string, now: int): (r: Db)
    ensures |Log(r, u)| == Min(|Log(db, u)| + 1, RetainedMessages)
    ensures |Log(r, u)| <= RetainedMessages
    ensures Log(r, u) == (Log(db, u) + [Row(Message(role, content), now)])[|Log(db, u)| + 1 - |Log(r, u)|..]
    ensures Log(r, u)[|Log(r, u)| - 1] == Row(Message(role, content), now)
    ensures forall v | v != u :: Log(r, v) == Log(db, v)
    ensures r.users == db.users && r.suggestions == db.suggestions
  {
    var appended := Log(db, u) + [Row(Message(role, content), now)];
    db.(logs := db.logs[u := Newest(appended, RetainedMessages)])
  }

  /** `get_conversation_history`: the newest `limit` messages (14 when no limit is given),
      oldest first. As in SQLite, a negative `LIMIT` means no limit. */
  function Window(db: Db, u: UserId, limit: Option<int>): (r: seq<Message>)
    ensures var n := limit.GetOr(MaxMemoryMessages);
            |r| == if n < 0 then |Log(db, u)| else Min(n, |Log(db, u)|)
    ensures r == Contents(Log(db, u)[|Log(db, u)| - |r|..])
  {
    Contents(Recent(Log(db, u), limit.GetOr(MaxMemoryMessages)))
  }

  /** SQL `LIMIT n` over the rows ordered newest first: no bound when `n` is negative. */
  function Recent(rows: seq<Row>, n: int): (r: seq<Row>)
    ensures |r| == if n < 0 then |rows| else Min(n, |rows|)
    ensures r == rows[|rows| - |r|..]
  {
    if n < 0 then rows else Newest(rows, n)
  }

  /** `clear_user_history`: delete every row of user `u`. */
  function ClearUserHistory(db: Db, u: UserId): (r: Db)
    ensures Log(r, u) == []
    ensures forall v | v != u :: Log(r, v) == Log(db, v)
    ensures r.users == db.users && r.suggestions == db.suggestions
  {
    db.(logs := db.logs - {u})
  }

  /** After a clear, the window is empty whatever the limit. */
  lemma WindowAfterClear(db: Db, u: UserId, limit: Option<int>)
    ensures Window(ClearUserHistory(db, u), u, limit) == []
  {
  }

  /** A second clear changes nothing. */
  lemma ClearIdempotent(db: Db, u: UserId)
    ensures ClearUserHistory(ClearUserHistory(db, u), u) == ClearUserHistory(db, u)
  {
  }

  /** A completed exchange writes the user's turn and then the reply; a window of at
      least two messages ends with exactly those two, in that order. */
  lemma ExchangeEndsWindow(db: Db, u: UserId, question: string, answer: string, now: int, n: int)
    requires n >= 2
    ensures var after := AddMessage(AddMessage(db, u, "user", question, now), u, "assistant", answer, now);
            var w := Window(after, u, Some(n));
            && |w| >= 2
            && w[|w| - 2] == Message("user", question)
            && w[|w| - 1] == Message("assistant", answer)
  {
    var mid := AddMessage(db, u, "user", question, now);
    var after := AddMessage(mid, u, "assistant", answer, now);
    var log := Log(after, u);
    assert |Log(mid, u)| >= 1;
    assert |log| >= 2;
    assert log[|log| - 2] == Log(mid, u)[|Log(mid, u)| - 1];
  }

  /** The window of two after an exchange is exactly that exchange. */
  lemma ExchangeIsLastTwo(db: Db, u: UserId, question: string, answer: string, now: int)
    ensures var after := AddMessage(AddMessage(db, u, "user", question, now), u, "assistant", answer, now);
            Window(after, u, Some(2)) == [Message("user", question), Message("assistant", answer)]
  {
    var mid := AddMessage(db, u, "user", question, now);
    var after := AddMessage(mid, u, "assistant", answer, now);
    AppendAfterOne(mid, u, "assistant", answer, now);
    WindowOfTwo(after, u);
  }

  /** An append to a non-empty log keeps the previous last row just before the new one. */
  lemma AppendAfterOne(db: Db, u: UserId, role: string, content: string, now: int)
    requires |Log(db, u)| >= 1
    ensures var log := Log(AddMessage(db, u, role, content, now), u);
      && |log| >= 2
      && log[|log| - 2] == Log(db, u)[|Log(db, u)| - 1]
      && log[|log| - 1] == Row(Message(role, content), now)
  {
    var before := Log(db, u);
    var log := Log(AddMessage(db, u, role, content, now), u);
    var all := before + [Row(Message(role, content), now)];
    assert log == all[|before| + 1 - |log|..];
    assert log[|log| - 2] == all[|before| - 1];
  }

  /** A window of two holds the messages of the last two rows. */
  lemma WindowOfTwo(db: Db, u: UserId)
    requires |Log(db, u)| >= 2
    ensures var log := Log(db, u);
      Window(db, u, Some(2)) == [log[|log| - 2].message, log[|log| - 1].message]
  {
    var log := Log(db, u);
    var w := Window(db, u, Some(2));
    assert |w| == 2;
    assert w == Contents(log[|log| - 2..]);
    assert w == [w[0], w[1]];
  }

  /** A run of appends for one user, all stamped `now`. */
  function AddAll(db: Db, u: UserId, msgs: seq<Message>, now: int): Db
    decreases |msgs|
  {
    if |msgs| == 0 then db
    else AddAll(AddMessage(db, u, msgs[0].role, msgs[0].content, now), u, msgs[1..], now)
  }

  /** After `N` appends to an empty log the user keeps `min(N, 28)` rows, and a window
      of limit `n >= 0` returns `min(n, N, 28)` messages. */
  lemma {:induction false} AddAllCount(db: Db, u: UserId, msgs: seq<Message>, now: int)
    requires |Log(db, u)| <= RetainedMessages
    ensures |Log(AddAll(db, u, msgs, now), u)| == Min(|Log(db, u)| + |msgs|, RetainedMessages)
    decreases |msgs|
  {
    if |msgs| > 0 {
      var next := AddMessage(db, u, msgs[0].role, msgs[0].content, now);
      AddAllCount(next, u, msgs[1..], now);
      assert AddAll(db, u, msgs, now) == AddAll(next, u, msgs[1..], now);
      assert |Log(next, u)| == Min(|Log(db, u)| + 1, RetainedMessages);
    }
  }

  lemma WindowAfterAppends(u: UserId, msgs: seq<Message>, now: int, n: nat)
    ensures |Window(AddAll(Empty, u, msgs, now), u, Some(n))| == Min(n, Min(|msgs|, RetainedMessages))
  {
    AddAllCount(Empty, u, msgs, now);
  }

  /** Appends for one user leave every other user's log as it was. */
  lemma {:induction false} AddAllScoped(db: Db, u: UserId, msgs: seq<Message>, now: int, v: UserId)
    requires v != u
    ensures Log(AddAll(db, u, msgs, now), v) == Log(db, v)
    decreases |msgs|
  {
    if |msgs| > 0 {
      AddAllScoped(AddMessage(db, u, msgs[0].role, msgs[0].content, now), u, msgs[1..], now, v);
    }
  }

  /** Rows in non-decreasing `created_at` order: insertion order agrees with the SQL order. */
  predicate Chronological(rows: seq<Row>) {
    forall i, j | 0 <= i < j < |rows| :: rows[i].createdAt <= rows[j].createdAt
  }

  /** On a clock that does not run backwards, an append keeps the log chronological. */
  lemma AddKeepsChronological(db: Db, u: UserId, role: string, content: string, now: int)
    requires Chronological(Log(db, u))
    requires forall i | 0 <= i < |Log(db, u)| :: Log(db, u)[i].createdAt <= now
    ensures Chronological(Log(AddMessage(db, u, role, content, now), u))
  {
    ChronologicalAppend(Log(db, u), Row(Message(role, content), now));
  }

  /** Appending a row no older than every row keeps a log chronological. */
  lemma ChronologicalAppend(rows: seq<Row>, row: Row)
    requires Chronological(rows)
    requires forall i | 0 <= i < |rows| :: rows[i].createdAt <= row.createdAt
    ensures Chronological(rows + [row])
  {
    var appended := rows + [row];
    forall i, j | 0 <= i < j < |appended| ensures appended[i].createdAt <= appended[j].createdAt {
      assert appended[i] == rows[i];
      if j < |rows| {
        assert appended[j] == rows[j];
      }
    }
  }

  /** The trim keeps rows that are all at least as recent as every row it deletes, so it
      is one admissible outcome of `ORDER BY created_at DESC LIMIT 28`, and the rows kept
      stay in their relative order. */
  lemma TrimKeepsNewest(db: Db, u: UserId, role: string, content: string, now: int)
    requires Chronological(Log(db, u))
    requires forall i | 0 <= i < |Log(db, u)| :: Log(db, u)[i].createdAt <= now
    ensures var appended := Log(db, u) + [Row(Message(role, content), now)];
            var kept := Log(AddMessage(db, u, role, content, now), u);
            var dropped := |appended| - |kept|;
            && kept == appended[dropped..]
            && forall d, k | 0 <= d < dropped <= k < |appended| :: appended[d].createdAt <= appended[k].createdAt
  {
    var appended := Log(db, u) + [Row(Message(role, content), now)];
    assert Chronological(appended) by {
      ChronologicalAppend(Log(db, u), Row(Message(role, content), now));
    }
    var kept := Log(AddMessage(db, u, role, content, now), u);
    var dropped := |appended| - |kept|;
    assert kept == appended[dropped..];
    ChronologicalCut(appended, dropped);
  }

  /** In a chronological log, every row before a cut is at least as old as every row after it. */
  lemma ChronologicalCut(rows: seq<Row>, cut: nat)
    requires Chronological(rows) && cut <= |rows|
    ensures forall d, k | 0 <= d < cut <= k < |rows| :: rows[d].createdAt <= rows[k].createdAt
  {
    forall d, k | 0 <= d < cut <= k < |rows| ensures rows[d].createdAt <= rows[k].createdAt {
      assert d < k;
    }
  }

  /** The window is a chronological slice of a chronological log. */
  lemma WindowChronological(db: Db, u: UserId, limit: Option<int>)
    requires Chronological(Log(db, u))
    ensures var w := Window(db, u, limit);
            Chronological(Log(db, u)[|Log(db, u)| - |w|..])
  {
  }

  // ---------------------------------------------------------------- suggestion cache

  /** `get_suggestion`: the stored text, whatever its age, or `None` for an absent id. */
  function GetSuggestion(db: Db, id: string): (r: Option<string>)
    ensures id !in db.suggestions ==> r == None
    ensures id in db.suggestions ==> r == Some(db.suggestions[id].text)
  {
    if id in db.suggestions then Some(db.suggestions[id].text) else None
  }

  /** An entry the sweep at time `now` keeps: SQL `created_at < now - 24 hours` deletes the rest. */
  predicate Fresh(c: Cached, now: int) {
    c.createdAt >= now - SuggestionTtl
  }

  /** `store_suggestion`: `INSERT OR REPLACE` stamped `now`, then delete every entry
      older than 24 hours. */
  function StoreSuggestion(db: Db, id: string, text: string, now: int): (r: Db)
    ensures GetSuggestion(r, id) == Some(text)
    ensures r.suggestions[id].createdAt == now
    ensures forall k | k in r.suggestions :: Fresh(r.suggestions[k], now)
    ensures forall k | k in db.suggestions && k != id ::
      (k in r.suggestions <==> Fresh(db.suggestions[k], now))
    ensures forall k | k in r.suggestions && k != id :: k in db.suggestions && r.suggestions[k] == db.suggestions[k]
    ensures r.users == db.users && r.logs == db.logs
  {
    var upserted := db.suggestions[id := Cached(text, now)];
    db.(suggestions := map k | k in upserted && Fresh(upserted[k], now) :: upserted[k])
  }

  /** Storing under an id that is already present replaces the text: the last write wins. */
  lemma StoreOverwrites(db: Db, id: string, first: string, second: string, t1: int, t2: int)
    requires t1 <= t2
    ensures GetSuggestion(StoreSuggestion(StoreSuggestion(db, id, first, t1), id, second, t2), id) == Some(second)
  {
  }

  /** Reading does not check age: an entry older than 24 hours stays readable until the
      next `store_suggestion` sweeps it. */
  lemma StaleEntryReadable(db: Db, id: string, text: string, stored: int, later: int)
    requires later > stored + SuggestionTtl
    ensures GetSuggestion(StoreSuggestion(db, id, text, stored), id) == Some(text)
    ensures !Fresh(StoreSuggestion(db, id, text, stored).suggestions[id], later)
  {
  }

  /** The next write at a time more than 24 hours later removes it. */
  lemma StaleEntrySwept(db: Db, id: string, text: string, other: string, otherText: string, stored: int, later: int)
    requires later > stored + SuggestionTtl
    requires other != id
    ensures GetSuggestion(StoreSuggestion(StoreSuggestion(db, id, text, stored), other, otherText, later), id) == None
  {
  }
}
