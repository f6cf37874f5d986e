/** The `ChatStorage` class: a `sessions` table keyed by a text id and a
    `messages` table with an AUTOINCREMENT integer id and a foreign key to
    `sessions`, with the queries the backend issues against them. */
module Storage {
  import opened Common

  /** `created_at` values are ISO-8601 text, compared as text. */
  type Timestamp = string

  /** SQLite's BINARY collation on TEXT: code-point lexicographic order. */
  predicate TextLe(a: string, b: string) {
    if |a| == 0 then true
    else if |b| == 0 then false
    else if a[0] != b[0] then a[0] < b[0]
    else TextLe(a[1..], b[1..])
  }

  lemma {:induction false} TextLeTotal(a: string, b: string)
    ensures TextLe(a, b) || TextLe(b, a)
  {
    if |a| > 0 && |b| > 0 && a[0] == b[0] {
      TextLeTotal(a[1..], b[1..]);
    }
  }

  lemma {:induction false} TextLeTransitive(a: string, b: string, c: string)
    requires TextLe(a, b) && TextLe(b, c)
    ensures TextLe(a, c)
  {
    if |a| > 0 && |b| > 0 && |c| > 0 && a[0] == b[0] && b[0] == c[0] {
      TextLeTransitive(a[1..], b[1..], c[1..]);
    }
  }

  /** A row of `sessions` (lines 11-15 of the schema). */
  datatype Session = Session(id: string, title: string, createdAt: Timestamp)

  /** A row of `messages` (lines 17-24 of the schema). */
  datatype Message = Message(id: nat, sessionId: string, role: Role, content: string, createdAt: Timestamp)

  /** The constraint a failed INSERT reports. */
  datatype StorageError =
    | DuplicateSessionId  // UNIQUE constraint failed: sessions.id
    | UnknownSession      // FOREIGN KEY constraint failed

  datatype Outcome = Done | Failed(error: StorageError)

  predicate HasId(ss: seq<Session>, id: string) {
    exists s :: s in ss && s.id == id
  }

  /** No two sessions share an id (PRIMARY KEY). */
  ghost predicate UniqueIds(ss: seq<Session>) {
    forall i, j :: 0 <= i < j < |ss| ==> ss[i].id != ss[j].id
  }

  // ---------------------------------------------------------------------
  // ORDER BY created_at DESC

  ghost predicate NewestFirst(ss: seq<Session>) {
    forall i, j :: 0 <= i < j < |ss| ==> TextLe(ss[j].createdAt, ss[i].createdAt)
  }

  function InsertNewest(s: Session, ss: seq<Session>): (r: seq<Session>)
    requires NewestFirst(ss)
    ensures NewestFirst(r)
    ensures multiset(r) == multiset(ss) + multiset{s}
  {
    if ss == [] then [s]
    else if TextLe(ss[0].createdAt, s.createdAt) then
      assert forall j :: 0 <= j < |ss| ==> TextLe(ss[j].createdAt, s.createdAt) by {
        forall j | 0 <= j < |ss| ensures TextLe(ss[j].createdAt, s.createdAt) {
          if j > 0 { TextLeTransitive(ss[j].createdAt, ss[0].createdAt, s.createdAt); }
        }
      }
      [s] + ss
    else
      TextLeTotal(ss[0].createdAt, s.createdAt);
      var rest := InsertNewest(s, ss[1..]);
      assert ss == [ss[0]] + ss[1..];
      assert forall x :: x in rest ==> x == s || x in ss[1..] by {
        forall x | x in rest ensures x == s || x in ss[1..] {
          assert x in multiset(rest);
        }
      }
      assert forall j :: 0 <= j < |rest| ==> TextLe(rest[j].createdAt, ss[0].createdAt) by {
        forall j | 0 <= j < |rest| ensures TextLe(rest[j].createdAt, ss[0].createdAt) {
          assert rest[j] in rest;
        }
      }
      [ss[0]] + rest
  }

  /** The rows of `ss` in `ORDER BY created_at DESC` order; rows with equal
      timestamps keep their table order. */
  function SortNewest(ss: seq<Session>): (r: seq<Session>)
    ensures NewestFirst(r)
    ensures multiset(r) == multiset(ss)
  {
    if ss == [] then []
    else
      assert ss == [ss[0]] + ss[1..];
      InsertNewest(ss[0], SortNewest(ss[1..]))
  }

  // ---------------------------------------------------------------------
  // WHERE session_id = ? / id ASC

  /** Ascending by id: the order AUTOINCREMENT rows are inserted in. */
  ghost predicate IdsAscending(ms: seq<Message>) {
    forall i, j :: 0 <= i < j < |ms| ==> ms[i].id < ms[j].id
  }

  /** `WHERE session_id = sid`, keeping table order. */
  function MessagesOf(ms: seq<Message>, sid: string): (r: seq<Message>)
    ensures forall m :: m in r <==> m in ms && m.sessionId == sid
    ensures IdsAscending(ms) ==> IdsAscending(r)
  {
    if ms == [] then []
    else
      var rest := MessagesOf(ms[1..], sid);
      assert ms == [ms[0]] + ms[1..];
      var r := if ms[0].sessionId == sid then [ms[0]] + rest else rest;
      assert IdsAscending(ms) ==> IdsAscending(r) by {
        if IdsAscending(ms) {
          AscendingTail(ms);
          AscendingCons(ms[0], rest);
        }
      }
      r
  }

  /** `WHERE session_id <> sid`, the rows a cascading delete keeps. */
  function MessagesNotOf(ms: seq<Message>, sid: string): (r: seq<Message>)
    ensures forall m :: m in r <==> m in ms && m.sessionId != sid
    ensures IdsAscending(ms) ==> IdsAscending(r)
  {
    if ms == [] then []
    else
      var rest := MessagesNotOf(ms[1..], sid);
      assert ms == [ms[0]] + ms[1..];
      var r := if ms[0].sessionId != sid then [ms[0]] + rest else rest;
      assert IdsAscending(ms) ==> IdsAscending(r) by {
        if IdsAscending(ms) {
          AscendingTail(ms);
          AscendingCons(ms[0], rest);
        }
      }
      r
  }

  lemma AscendingTail(ms: seq<Message>)
    requires IdsAscending(ms) && ms != []
    ensures IdsAscending(ms[1..])
    ensures forall m :: m in ms[1..] ==> ms[0].id < m.id
  {
    forall m | m in ms[1..] ensures ms[0].id < m.id {
      var i :| 0 <= i < |ms[1..]| && ms[1..][i] == m;
      assert ms[i + 1] == m;
    }
  }

  lemma AscendingCons(m: Message, ms: seq<Message>)
    requires IdsAscending(ms) && forall x :: x in ms ==> m.id < x.id
    ensures IdsAscending([m] + ms)
  {
    var r := [m] + ms;
    forall i, j | 0 <= i < j < |r| ensures r[i].id < r[j].id {
      assert r[j] == ms[j - 1];
      if i > 0 { assert r[i] == ms[i - 1]; } else { assert ms[j - 1] in ms; }
    }
  }

  /** `WHERE id <> id`: the sessions a delete keeps, in table order. */
  function SessionsWithout(ss: seq<Session>, id: string): (r: seq<Session>)
    ensures forall s :: s in r <==> s in ss && s.id != id
    ensures UniqueIds(ss) ==> UniqueIds(r)
  {
    if ss == [] then []
    else
      var rest := SessionsWithout(ss[1..], id);
      assert ss == [ss[0]] + ss[1..];
      var r := if ss[0].id == id then rest else [ss[0]] + rest;
      assert UniqueIds(ss) ==> UniqueIds(r) by {
        if UniqueIds(ss) {
          assert UniqueIds(ss[1..]);
          assert forall s :: s in rest ==> s.id != ss[0].id;
        }
      }
      r
  }

  /** The sessions after an `UPDATE sessions SET title = t WHERE id = id`. */
  function Renamed(ss: seq<Session>, id: string, t: string): (r: seq<Session>)
    ensures |r| == |ss|
    ensures forall i :: 0 <= i < |ss| ==> r[i].id == ss[i].id && r[i].createdAt == ss[i].createdAt
    ensures forall i :: 0 <= i < |ss| ==> r[i].title == if ss[i].id == id then t else ss[i].title
  {
    seq(|ss|, i requires 0 <= i < |ss| => if ss[i].id == id then ss[i].(title := t) else ss[i])
  }

  /** Renaming an id no session has leaves the table as it was. */
  lemma RenameAbsentIsNoop(ss: seq<Session>, id: string, t: string)
    requires !HasId(ss, id)
    ensures Renamed(ss, id, t) == ss
  {
    var r := Renamed(ss, id, t);
    forall i | 0 <= i < |ss| ensures r[i] == ss[i] {
      assert ss[i] in ss;
    }
  }

  /** After appending a session with a fresh id, the listing holds that row
      once, no other row with its id, and every earlier row. */
  lemma ListedOnce(ss: seq<Session>, s: Session)
    requires UniqueIds(ss + [s])
    ensures multiset(SortNewest(ss + [s])) == multiset(SortNewest(ss)) + multiset{s}
    ensures s in SortNewest(ss + [s])
    ensures forall x :: x in SortNewest(ss + [s]) && x.id == s.id ==> x == s
  {
    var all := ss + [s];
    var r := SortNewest(all);
    assert multiset(all) == multiset(ss) + multiset{s};
    assert s in multiset(r);
    forall x | x in r && x.id == s.id ensures x == s {
      assert x in multiset(all);
      var i :| 0 <= i < |all| && all[i] == x;
      assert all[|ss|] == s;
      if i < |ss| {
        assert all[i].id != all[|ss|].id;
      }
    }
  }

  /** `SELECT role, content`. */
  function Entries(ms: seq<Message>): (r: seq<Entry>)
    ensures |r| == |ms|
    ensures forall i :: 0 <= i < |ms| ==> r[i] == Entry(ms[i].role, ms[i].content)
  {
    seq(|ms|, i requires 0 <= i < |ms| => Entry(ms[i].role, ms[i].content))
  }

  /** A possible result of `SELECT ... WHERE session_id = sid ORDER BY id ASC`:
      exactly the rows of that session, strictly ascending by id. */
  ghost predicate IsSelection(rows: seq<Message>, ms: seq<Message>, sid: string) {
    && IdsAscending(rows)
    && forall m :: m in rows <==> m in ms && m.sessionId == sid
  }

  /** Two sequences strictly ascending by id with the same elements are equal:
      `ORDER BY id` over unique ids has one answer. */
  lemma {:induction false} AscendingUnique(a: seq<Message>, b: seq<Message>)
    requires IdsAscending(a) && IdsAscending(b)
    requires forall m :: m in a <==> m in b
    ensures a == b
  {
    EmptyIffNoElements(a);
    EmptyIffNoElements(b);
    if a != [] && b != [] {
      AscendingTail(a);
      AscendingTail(b);
      assert a[0] == b[0] by {
        assert a[0] in b && b[0] in a;
      }
      assert a == [a[0]] + a[1..] && b == [b[0]] + b[1..];
      forall m ensures m in a[1..] <==> m in b[1..] {
        if m in a[1..] {
          assert m != a[0] && m in b;
        }
        if m in b[1..] {
          assert m != b[0] && m in a;
        }
      }
      AscendingUnique(a[1..], b[1..]);
      assert a == [a[0]] + a[1..] && b == [b[0]] + b[1..];
    }
  }

  lemma EmptyIffNoElements<T>(s: seq<T>)
    ensures s == [] <==> forall x :: x !in s
  {
    if s != [] {
      assert s[0] in s;
    }
  }

  /** The filter is the (unique) answer of the ordered query. */
  lemma MessagesOfIsSelection(ms: seq<Message>, sid: string)
    requires IdsAscending(ms)
    ensures IsSelection(MessagesOf(ms, sid), ms, sid)
    ensures forall rows :: IsSelection(rows, ms, sid) ==> rows == MessagesOf(ms, sid)
  {
    forall rows | IsSelection(rows, ms, sid) ensures rows == MessagesOf(ms, sid) {
      AscendingUnique(rows, MessagesOf(ms, sid));
    }
  }

  /** Appending a row extends exactly the transcript of its own session. */
  lemma {:induction false} MessagesOfAppend(ms: seq<Message>, m: Message, sid: string)
    ensures MessagesOf(ms + [m], sid) == MessagesOf(ms, sid) + (if m.sessionId == sid then [m] else [])
  {
    if ms != [] {
      assert (ms + [m])[1..] == ms[1..] + [m];
      MessagesOfAppend(ms[1..], m, sid);
    }
  }

  /** A cascading delete of `id` leaves the transcript of every other session as it was. */
  lemma {:induction false} DeleteKeepsOtherTranscripts(ms: seq<Message>, id: string, sid: string)
    requires sid != id
    ensures MessagesOf(MessagesNotOf(ms, id), sid) == MessagesOf(ms, sid)
  {
    if ms != [] {
      DeleteKeepsOtherTranscripts(ms[1..], id, sid);
      if ms[0].sessionId != id {
        assert ([ms[0]] + MessagesNotOf(ms[1..], id))[1..] == MessagesNotOf(ms[1..], id);
      }
    }
  }

  /** Deleting the same rows twice is deleting them once. */
  lemma {:induction false} MessagesNotOfIdempotent(ms: seq<Message>, id: string)
    ensures MessagesNotOf(MessagesNotOf(ms, id), id) == MessagesNotOf(ms, id)
  {
    if ms != [] {
      MessagesNotOfIdempotent(ms[1..], id);
      var rest := MessagesNotOf(ms[1..], id);
      if ms[0].sessionId != id {
        assert ([ms[0]] + rest)[1..] == rest;
      }
    }
  }

  lemma {:induction false} SessionsWithoutIdempotent(ss: seq<Session>, id: string)
    ensures SessionsWithout(SessionsWithout(ss, id), id) == SessionsWithout(ss, id)
  {
    if ss != [] {
      SessionsWithoutIdempotent(ss[1..], id);
      var rest := SessionsWithout(ss[1..], id);
      if ss[0].id != id {
        assert ([ss[0]] + rest)[1..] == rest;
      }
    }
  }

  // ---------------------------------------------------------------------
  // ORDER BY id DESC LIMIT n, then ORDER BY id ASC

  function Reversed<T>(s: seq<T>): (r: seq<T>)
    ensures |r| == |s|
    ensures forall i :: 0 <= i < |s| ==> r[i] == s[|s| - 1 - i]
  {
    if s == [] then [] else Reversed(s[1..]) + [s[0]]
  }

  /** SQLite `LIMIT n`: a negative limit means no limit. */
  function Limit<T>(s: seq<T>, n: int): (r: seq<T>)
    ensures |r| == if n < 0 || n >= |s| then |s| else n
    ensures r == s[..|r|]
  {
    if n < 0 || n >= |s| then s else s[..n]
  }

  /** The last `limit` elements of `t` (all of them for a negative limit), in order. */
  function Tail<T>(t: seq<T>, limit: int): (r: seq<T>)
    ensures |r| == if limit < 0 || limit >= |t| then |t| else limit
    ensures r == t[|t| - |r|..]
  {
    if limit < 0 || limit >= |t| then t else t[|t| - limit..]
  }

  /** The nested `ORDER BY id DESC LIMIT n` query re-sorted ascending is the tail:
      it keeps the newest messages, not the oldest. */
  lemma DescendingLimitIsTail<T>(t: seq<T>, limit: int)
    ensures Reversed(Limit(Reversed(t), limit)) == Tail(t, limit)
  {
    var r := Reversed(Limit(Reversed(t), limit));
    var u := Tail(t, limit);
    assert |r| == |u|;
    forall k | 0 <= k < |r| ensures r[k] == u[k] {
      var l := Limit(Reversed(t), limit);
      assert r[k] == l[|l| - 1 - k] == Reversed(t)[|l| - 1 - k];
    }
  }

  // ---------------------------------------------------------------------

  class ChatStorage {
    /** The `sessions` table, in insertion order. */
    var sessions: seq<Session>
    /** The `messages` table, in insertion order. */
    var messages: seq<Message>
    /** One more than the largest message id ever assigned (the AUTOINCREMENT
        sequence); ids of deleted messages are not reused. */
    var nextId: nat
    /** Every message id ever assigned. */
    ghost var issued: set<nat>

    ghost predicate Valid()
      reads this
    {
      && UniqueIds(sessions)
      && IdsAscending(messages)
      && (forall m :: m in messages ==> m.id in issued)
      && 0 < nextId
      && (forall k :: k in issued ==> 0 < k < nextId)
      && (forall m :: m in messages ==> HasId(sessions, m.sessionId))
    }

    /** A freshly created database: both tables empty. */
    constructor ()
      ensures Valid()
      ensures sessions == [] && messages == [] && nextId == 1 && issued == {}
    {
      sessions := [];
      messages := [];
      nextId := 1;
      issued := {};
    }

    /** `SELECT id, title, created_at FROM sessions ORDER BY created_at DESC`. */
    function ListSessions(): (r: seq<Session>)
      reads this
      ensures NewestFirst(r)
      ensures multiset(r) == multiset(sessions)
    {
      SortNewest(sessions)
    }

    /** `INSERT INTO sessions`; fails on an id that is already present. */
    method CreateSession(id: string, title: string, createdAt: Timestamp) returns (o: Outcome)
      requires Valid()
      modifies this
      ensures Valid()
      ensures o == if old(HasId(sessions, id)) then Failed(DuplicateSessionId) else Done
      ensures sessions == if o.Done? then old(sessions) + [Session(id, title, createdAt)] else old(sessions)
      ensures messages == old(messages) && nextId == old(nextId) && issued == old(issued)
    {
      if HasId(sessions, id) {
        return Failed(DuplicateSessionId);
      }
      ghost var before := sessions;
      sessions := sessions + [Session(id, title, createdAt)];
      assert forall m :: m in messages ==> HasId(sessions, m.sessionId) by {
        forall m | m in messages ensures HasId(sessions, m.sessionId) {
          var s :| s in before && s.id == m.sessionId;
          assert s in sessions;
        }
      }
      o := Done;
    }

    /** `UPDATE sessions SET title = ? WHERE id = ?`; an unknown id changes nothing. */
    method RenameSession(id: string, title: string)
      requires Valid()
      modifies this
      ensures Valid()
      ensures sessions == Renamed(old(sessions), id, title)
      ensures messages == old(messages) && nextId == old(nextId) && issued == old(issued)
    {
      ghost var before := sessions;
      sessions := Renamed(sessions, id, title);
      assert forall m :: m in messages ==> HasId(sessions, m.sessionId) by {
        forall m | m in messages ensures HasId(sessions, m.sessionId) {
          var i :| 0 <= i < |before| && before[i].id == m.sessionId;
          assert sessions[i] in sessions;
        }
      }
    }

    /** Deletes the session's messages, then the session itself. */
    method DeleteSession(id: string)
      requires Valid()
      modifies this
      ensures Valid()
      ensures messages == MessagesNotOf(old(messages), id)
      ensures sessions == SessionsWithout(old(sessions), id)
      ensures nextId == old(nextId) && issued == old(issued)
    {
      ghost var before := sessions;
      messages := MessagesNotOf(messages, id);
      sessions := SessionsWithout(sessions, id);
      assert forall m :: m in messages ==> HasId(sessions, m.sessionId) by {
        forall m | m in messages ensures HasId(sessions, m.sessionId) {
          var s :| s in before && s.id == m.sessionId;
          assert s in sessions;
        }
      }
    }

    /** `INSERT INTO messages`: the new row gets the next AUTOINCREMENT id;
        a session that does not exist fails the foreign key. */
    method AddMessage(sessionId: string, role: Role, content: string, createdAt: Timestamp) returns (o: Outcome)
      requires Valid()
      modifies this
      ensures Valid()
      ensures o == if old(HasId(sessions, sessionId)) then Done else Failed(UnknownSession)
      ensures o.Done? ==> forall k :: k in old(issued) ==> k < old(nextId)
      ensures o.Done? ==> messages == old(messages) + [Message(old(nextId), sessionId, role, content, createdAt)]
      ensures o.Done? ==> nextId == old(nextId) + 1 && issued == old(issued) + {old(nextId)}
      ensures o.Failed? ==> messages == old(messages) && nextId == old(nextId) && issued == old(issued)
      ensures sessions == old(sessions)
    {
      if !HasId(sessions, sessionId) {
        return Failed(UnknownSession);
      }
      messages := messages + [Message(nextId, sessionId, role, content, createdAt)];
      issued := issued + {nextId};
      nextId := nextId + 1;
      o := Done;
    }

    /** `SELECT role, content FROM messages WHERE session_id = ? ORDER BY id ASC`. */
    function GetAllMessages(sessionId: string): (r: seq<Entry>)
      requires Valid()
      reads this
      ensures forall rows :: IsSelection(rows, messages, sessionId) ==> r == Entries(rows)
    {
      MessagesOfIsSelection(messages, sessionId);
      Entries(MessagesOf(messages, sessionId))
    }

    /** The newest `limit` messages of the session, oldest first: the inner
        query sorts descending and limits, the outer one sorts ascending again. */
    function GetMessages(sessionId: string, limit: int): (r: seq<Entry>)
      requires Valid()
      reads this
      ensures r == Tail(GetAllMessages(sessionId), limit)
    {
      var all := GetAllMessages(sessionId);
      DescendingLimitIsTail(all, limit);
      Reversed(Limit(Reversed(all), limit))
    }
  }

  /** After a successful append, the transcript ends with the new `{role, content}`. */
  lemma AppendedIsLast(ms: seq<Message>, m: Message)
    ensures Entries(MessagesOf(ms + [m], m.sessionId)) == Entries(MessagesOf(ms, m.sessionId)) + [Entry(m.role, m.content)]
  {
    MessagesOfAppend(ms, m, m.sessionId);
  }
}
