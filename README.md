# Chat backend: session store, demo responder and turn handlers

This project models, in Dafny, the decidable core of a small chat backend:

- **`ChatStorage`** (`src/storage.js`). It holds a `sessions` table keyed by a text id and a `messages` table with an AUTOINCREMENT integer id and a foreign key to `sessions`. The model is the class `Storage.ChatStorage`. It has the two tables as `seq` fields, a `nextId` counter for the AUTOINCREMENT sequence, and an invariant `Valid()`:
  - session ids are unique;
  - message ids strictly increase in table order;
  - every message id ever assigned is below `nextId`;
  - every message belongs to an existing session.

  Each SQL statement is a method or a function whose contract states the query's meaning:
  - the filter, for `WHERE session_id = ?`;
  - the sort, for `ORDER BY created_at DESC`;
  - the suffix, for `ORDER BY id DESC LIMIT n` followed by ascending order;
  - the cascade, for the two `DELETE`s.
- **`ChatService`** (`src/chatService.js`). This is the demo responder, modelled as pure functions and lemmas. It takes the most recent `user` message and lower-cases it. It then tests the text against four keyword buckets in a fixed order and answers with the canned block of the first bucket that matches, or with the fallback block. `reply` ignores its configuration and always returns the demo reply.
- **Request handlers** (`src/server.js`). Each handler is a method over one shared `ChatStorage`:
  - `ensureSessionExists`;
  - POST, PATCH and DELETE `/api/sessions`;
  - POST `/api/chat`.

  The ids and timestamps the server would generate are parameters. So is the reply function of a chat turn; `Server.PostServiceChat` instantiates it with `ChatService.Reply`.
- **The client's auto-title rule** (`public/main.js`), as a separate pure function. After a send, the browser renames the session to the first 50 characters of the prompt when the returned transcript has exactly two messages.

The JavaScript built-ins the code relies on are modelled in `JsString`:
- `trim`, with the exact ECMAScript WhiteSpace and LineTerminator set;
- `toLowerCase`, restricted to ASCII;
- `includes`, as substring occurrence;
- `Array.prototype.join`.

Files: `common.dfy` (Option, Role, Entry), `js_string.dfy`, `storage.dfy`, `chat_service.dfy`, `server.dfy`, `client.dfy`.

Modelling choices:
- **Foreign keys.** better-sqlite3 enables foreign-key enforcement by default. So inserting a message for an unknown session fails with `UnknownSession` and changes nothing. The chat handler turns this into a 500.
- **Failed inserts.** A session insert with an id already in use fails with `DuplicateSessionId` and changes nothing. `POST /api/sessions` turns this into a 500.
- **Timestamps.** `created_at` values are text compared by code point (SQLite's BINARY collation). Rows with equal timestamps keep their table order.
- **LIMIT.** A negative `LIMIT` means no limit, as in SQLite.
- **The reply.** `ChatService.reply` has no provider selection and no failure fallback: it ignores its constructor and call options and always returns `demoReply` (src/chatService.js:2-6).

## Model

| member | source | states |
|---|---|---|
| JsString.TrimSpec | src/server.js:53 | `trim` cuts whitespace-only margins off both ends, and the result has no whitespace at either end |
| JsString.TrimEmptyIff | src/server.js:96 | a string trims to empty exactly when it is all whitespace |
| JsString.TrimIdempotent | src/server.js:53 | trimming twice equals trimming once |
| JsString.TrimStartSpec | src/server.js:59 | dropping leading whitespace keeps a suffix, removes only whitespace, and stops at a non-whitespace character |
| JsString.TrimEndSpec | src/server.js:59 | dropping trailing whitespace keeps a prefix, removes only whitespace, and stops at a non-whitespace character |
| JsString.Lower | src/chatService.js:10 | lower-casing keeps the length and lower-cases each character in place |
| JsString.LowerIsLowerCase | src/chatService.js:10 | lower-casing leaves no upper-case letter and fixes strings without one |
| JsString.Includes | src/chatService.js:13 | `includes` is true exactly when the keyword occurs at some position |
| JsString.AbsentChar | src/chatService.js:13 | a keyword with a character the text lacks is not included in it |
| JsString.LowerKeepsMatch | src/chatService.js:10-16 | a lower-case keyword found in a text is still found after the text is lower-cased |
| JsString.JoinStartsWithFirst | src/chatService.js:18-25 | a joined block starts with its first line |
| Storage.TextLeTotal | src/storage.js:30 | the text order on `created_at` is total |
| Storage.TextLeTransitive | src/storage.js:30 | the text order on `created_at` is transitive |
| Storage.InsertNewest | src/storage.js:30 | inserting a row into a newest-first list keeps it newest-first and adds exactly that row |
| Storage.SortNewest | src/storage.js:30 | `ORDER BY created_at DESC` yields a newest-first permutation of the table |
| Storage.MessagesOf | src/storage.js:75 | `WHERE session_id = ?` keeps exactly that session's rows and keeps ascending id order |
| Storage.MessagesNotOf | src/storage.js:48 | the cascade keeps exactly the rows of other sessions, in ascending id order |
| Storage.SessionsWithout | src/storage.js:49 | `DELETE FROM sessions WHERE id = ?` keeps exactly the rows with other ids and keeps ids unique |
| Storage.Renamed | src/storage.js:43 | `UPDATE ... SET title` changes only the title, and only of rows with that id |
| Storage.RenameAbsentIsNoop | src/storage.js:42-45 | renaming an id no session has leaves the table unchanged (no error) |
| Storage.ListedOnce | src/storage.js:28-40 | after inserting a fresh session, the listing holds that row exactly once, no other row with its id, and every earlier row |
| Storage.Entries | src/storage.js:75 | `SELECT role, content` projects each row in place |
| Storage.AscendingUnique | src/storage.js:75 | two id-ascending lists with the same rows are equal, so `ORDER BY id ASC` has one answer |
| Storage.MessagesOfIsSelection | src/storage.js:73-78 | the session filter is the one id-ascending list of exactly that session's messages |
| Storage.MessagesOfAppend | src/storage.js:52-57 | appending a row extends its own session's filter by that row and no other session's |
| Storage.DeleteKeepsOtherTranscripts | src/storage.js:47-50 | a delete leaves every other session's messages unchanged |
| Storage.MessagesNotOfIdempotent | src/storage.js:48 | deleting a session's messages twice equals deleting them once |
| Storage.SessionsWithoutIdempotent | src/storage.js:49 | deleting a session row twice equals deleting it once |
| Storage.Reversed | src/storage.js:65 | `ORDER BY id DESC` over an ascending list reverses it |
| Storage.Limit | src/storage.js:66 | `LIMIT n` keeps the first min(n, length) rows; a negative limit keeps all |
| Storage.Tail | src/storage.js:59-71 | the last min(n, length) elements, so a suffix and not a prefix |
| Storage.DescendingLimitIsTail | src/storage.js:59-71 | sort descending, limit, sort ascending again is exactly the tail |
| Storage.ChatStorage.constructor | src/storage.js:4-26 | a fresh database has empty tables and the sequence starts at 1 |
| Storage.ChatStorage.ListSessions | src/storage.js:28-33 | every session, newest first |
| Storage.ChatStorage.CreateSession | src/storage.js:35-40 | on a fresh id, appends exactly the new row; on a used id, fails with `DuplicateSessionId` and changes nothing |
| Storage.ChatStorage.RenameSession | src/storage.js:42-45 | the new table is `Renamed`, and messages and the sequence are untouched |
| Storage.ChatStorage.DeleteSession | src/storage.js:47-50 | removes the session and all its messages, and the invariant (no orphans) still holds |
| Storage.ChatStorage.AddMessage | src/storage.js:52-57 | on a known session, appends a row whose id is above every id ever issued, and advances the sequence; on an unknown one, fails and changes nothing |
| Storage.ChatStorage.GetAllMessages | src/storage.js:73-78 | equals the projection of every id-ascending list of exactly that session's messages |
| Storage.ChatStorage.GetMessages | src/storage.js:59-71 | equals the tail of length min(limit, total) of `GetAllMessages` |
| Storage.AppendedIsLast | src/storage.js:52-57 | after an append, the session's transcript ends with the new `{role, content}` |
| ChatService.IncludesAny | src/chatService.js:12-16 | a bucket's `||` chain is true exactly when some keyword of it is included |
| ChatService.Classify | src/chatService.js:12-70 | picks a bucket that matches (or the fallback), no earlier bucket matching |
| ChatService.SelectsUnique | src/chatService.js:12-70 | at most one bucket is selected for a text |
| ChatService.ReplyText | src/chatService.js:18-83 | each block starts with its heading |
| ChatService.TopicOfPrefix | src/chatService.js:18-83 | a text that starts with a bucket's heading classifies back to that bucket |
| ChatService.ReplyTextTopic | src/chatService.js:18-83 | each block determines its bucket |
| ChatService.ReplyTextInjective | src/chatService.js:18-83 | the five blocks are pairwise different |
| ChatService.LastUserContent | src/chatService.js:9 | the content of the last `user` message, or `''` when there is none |
| ChatService.DemoReply | src/chatService.js:8-84 | the result is always one of the five blocks, and never empty |
| ChatService.Reply | src/chatService.js:4-6 | `reply` equals `demoReply`, whatever provider, model and token limit accompany it |
| ChatService.DemoReplyIff | src/chatService.js:8-84 | the reply is bucket t's block exactly when t is the first bucket in priority order matching the lower-cased latest user message (or the fallback when none does) |
| ChatService.SelectsGeneralIff | src/chatService.js:72-83 | the fallback is selected exactly when no keyword of any bucket occurs |
| ChatService.GeneralWhenNoKeyword | src/chatService.js:72-83 | the reply is the fallback block exactly when no keyword of any bucket is included |
| ChatService.FallbackHeadingOpening | src/chatService.js:73 | the fallback heading begins "Demo mode is active" |
| ChatService.GeneralOpening | src/chatService.js:72-83 | when no keyword of any bucket occurs in the lower-cased latest user message, the reply begins "Demo mode is active" |
| ChatService.FallbackReplyOpening | src/chatService.js:73 | any text opening with the fallback heading begins "Demo mode is active" |
| ChatService.EmptyContextIsGeneral | src/chatService.js:9 | an empty context gets the fallback block |
| ChatService.AssistantMessagesIgnored | src/chatService.js:9 | appending an assistant message does not change the reply |
| ChatService.OnlyLatestUserMessage | src/chatService.js:9 | the reply depends only on the latest user message, not on earlier ones |
| ChatService.CaseInsensitive | src/chatService.js:10 | lower-casing the latest message first does not change the reply |
| ChatService.KeywordAsWrittenMatches | src/chatService.js:10-16 | a keyword included in the message as written makes its bucket match |
| ChatService.KeywordsLowerCase | src/chatService.js:12-62 | every keyword is written in lower case, so matching after `toLowerCase` is case-insensitive |
| ChatService.HeadingNonEmpty | src/chatService.js:18-83 | every block has a non-empty first line |
| ChatService.PortfolioBeforeDebugging | src/chatService.js:12-34 | a text with both "resume" and "error" gets the portfolio block |
| ChatService.ResumePromptExample | tests/chatService.test.js:6-12 | the first unit test's prompt gets the portfolio block |
| ChatService.HelloPromptExample | tests/chatService.test.js:14-18 | "hello" gets the block that begins "Demo mode is active" |
| ChatService.NoKeywordInHello | tests/chatService.test.js:14-18 | no keyword of any bucket occurs in "hello" |
| Server.CreateTitle | src/server.js:53 | the trimmed request title, or "New Chat" when it is missing or blank; never empty and already trimmed |
| Server.ValidChat | src/server.js:96 | the request is valid exactly when `sessionId` is present and non-empty and the prompt is present and not all whitespace |
| Server.EnsureSessionExists | src/server.js:27-33 | afterwards at least one session exists; if none existed, exactly one "First Chat" session was created; otherwise nothing changed |
| Server.PostSession | src/server.js:51-56 | creates a session titled `CreateTitle` and answers 201 with id and title; a used id gives a 500 and no change; messages and the id sequence are untouched |
| Server.RenameTitle | src/server.js:59 | the trimmed title, empty exactly when the title is missing or blank |
| Server.PatchSession | src/server.js:58-66 | a missing or blank title gives 400 "Title is required." and no change; otherwise 200 and the trimmed title is stored; titles stay non-empty |
| Server.DeleteSession | src/server.js:68-78 | answers 200 and cascades the delete; the session set is never left empty, and if the delete emptied it, it is exactly one new "New Chat" session; the message id sequence is untouched, so ids are never reused |
| Server.Context | src/server.js:103 | the context window is the suffix of length min(20, length) of the transcript that ends with the user message just stored |
| Server.PostChat | src/server.js:85-123 | an invalid request gives 400 and no change; an unknown session gives 500 and no change; otherwise exactly two messages are appended (user with the trimmed prompt, then assistant with the reply of the window read after the first append), and the response carries the reply and the full transcript after both appends |
| Server.PostServiceChat | src/server.js:85-123 | with the service's reply: the turn succeeds exactly when the request is valid and the session exists, and then appends the user and assistant messages with the next two ids and answers the demo reply of the trimmed prompt alone with the full transcript; otherwise 400 or 500 and messages and ids unchanged |
| Server.DemoTurnReply | src/server.js:103-105 | the demo reply of a turn's window equals the demo reply of the user message alone |
| Client.Slice | public/main.js:147 | `slice(0, n)` is the prefix of length min(n, length) |
| Client.AutoTitle | public/main.js:146-147 | a rename is requested exactly when the transcript has two messages, with the prompt's first min(50, length) characters |
| Client.ClientSendAccepted | public/main.js:125-126 | what the client sends passes the server's validation |
| Client.AutoTitleAccepted | public/main.js:146-147 | the automatic rename is never rejected as blank |

## Left out

- Express plumbing, CORS, static files, `dotenv` and `app.listen` (src/server.js:1-21, 125-127): I/O with no logic to state.
- The `/health` and `/api/config` endpoints (src/server.js:37-45): they only report a clock value and an environment variable.
- `GET /api/sessions` and `GET /api/sessions/:id/messages` (src/server.js:47-49, 80-83): each returns one storage query unchanged, so `ListSessions` and `GetAllMessages` give their results.
- The SQLite engine, opening an existing database file and `close()` (src/storage.js:1-7, 80-82): the model is the query semantics over in-memory tables, starting from an empty database.
- Id and time generation (`crypto.randomUUID`, `new Date().toISOString()`; src/server.js:23-25, 30, 52, 73): these are method parameters. The model does not assume UUIDs are unique; a clash is the `DuplicateSessionId` path.
- Non-string JSON fields: the model takes `title`, `sessionId` and `prompt` as absent or a string. `String(x)` of numbers, objects and the like is not modelled.
- Unicode case mapping: `toLowerCase` is ASCII-only here. For example, KELVIN SIGN is not mapped to `k`.
- Client.Slice: does not model a `slice(0, 50)` that splits a surrogate pair, because JavaScript indexes strings by UTF-16 code unit and the model indexes by Unicode scalar value.
- Concurrency: two requests can interleave at the `await` in the chat handler. The model runs each handler to completion, one at a time.
- The 500 catch-all for runtime exceptions other than constraint failures (src/server.js:120-122): only storage constraint failures are modelled as `ServerError`.
- Integer widths: message ids are unbounded `nat`. SQLite's 64-bit rowid limit is not modelled.
- `temperature`, `model` and `maxTokens` (src/server.js:88-109): unused by `reply`. `temperature` is a float and is not modelled.
- Tie order among sessions with equal `created_at`: SQLite leaves it unspecified, and the model fixes table order.
- DOM rendering, event handlers and `fetch` calls of public/main.js: only the auto-title rule and the client-side prompt check are modelled.
