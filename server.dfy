/** The request handlers of the chat backend, as methods over one shared
    `ChatStorage`. Ids and timestamps the server would generate are
    parameters, and so is the reply function of the chat turn. */
module Server {
  import opened Common
  import opened JsString
  import opened Storage
  import ChatService

  /** Title of a session created on request or after the last one is deleted. */
  const DefaultTitle: string := "New Chat"
  /** Title of the session created at startup when there is none. */
  const FirstTitle: string := "First Chat"
  /** How many of the newest messages the reply sees. */
  const ContextLimit: int := 20

  const TitleRequired: string := "Title is required."
  const ChatRequired: string := "sessionId and prompt are required."

  /** No session has an empty title. */
  ghost predicate TitlesNonEmpty(ss: seq<Session>) {
    forall k :: 0 <= k < |ss| ==> |ss[k].title| > 0
  }

  /** The JSON answers the handlers send. */
  datatype Response =
    | Created(id: string, title: string)        // 201 { id, title }
    | Ok                                        // 200 { ok: true }
    | BadRequest(error: string)                 // 400 { error }
    | Chat(reply: string, messages: seq<Entry>) // 200 { reply, messages }
    | ServerError(cause: StorageError)          // 500, the storage call threw

  /** The HTTP status code each answer is sent with. */
  function Status(r: Response): nat {
    match r
    case Created(_, _) => 201
    case Ok => 200
    case BadRequest(_) => 400
    case Chat(_, _) => 200
    case ServerError(_) => 500
  }

  /** `String(title || '')`: an absent field reads as the empty string. */
  function FieldText(field: Option<string>): string {
    if field.Some? then field.value else ""
  }

  /** `String(req.body?.title || 'New Chat').trim() || 'New Chat'`: the
      trimmed request title, or the default when it is missing or blank. */
  function CreateTitle(title: Option<string>): (r: string)
    ensures |r| > 0
    ensures Trim(r) == r
    ensures title.Some? && !AllWhitespace(title.value) ==> r == Trim(title.value)
    ensures title.None? || AllWhitespace(title.value) ==> r == DefaultTitle
  {
    TrimEmptyIff(FieldText(title));
    var t := Trim(FieldText(title));
    if |t| == 0 then
      DefaultTitleIsTrimmed();
      DefaultTitle
    else
      TrimIdempotent(FieldText(title));
      t
  }

  lemma DefaultTitleIsTrimmed()
    ensures Trim(DefaultTitle) == DefaultTitle
  {
    assert DefaultTitle[0] == 'N' && DefaultTitle[|DefaultTitle| - 1] == 't';
    TrimmedIsFixed(DefaultTitle);
  }

  /** The check `POST /api/chat` makes first: a chat request needs a non-empty `sessionId` and a prompt
      that is not blank. */
  function ValidChat(sessionId: Option<string>, prompt: Option<string>): (r: bool)
    ensures r <==> sessionId.Some? && |sessionId.value| > 0 && prompt.Some? && !AllWhitespace(prompt.value)
  {
    TrimEmptyIff(FieldText(prompt));
    sessionId.Some? && |sessionId.value| > 0 && |Trim(FieldText(prompt))| > 0
  }

  /** `ensureSessionExists`: when the store has no session, create one
      titled "First Chat". */
  method EnsureSessionExists(storage: ChatStorage, id: string, now: Timestamp)
    requires storage.Valid()
    modifies storage
    ensures storage.Valid()
    ensures storage.sessions != []
    ensures old(storage.sessions) != [] ==> storage.sessions == old(storage.sessions)
    ensures old(storage.sessions) == [] ==> storage.sessions == [Session(id, FirstTitle, now)]
    ensures TitlesNonEmpty(old(storage.sessions)) ==> TitlesNonEmpty(storage.sessions)
    ensures storage.messages == old(storage.messages) && storage.nextId == old(storage.nextId)
  {
    var listed := storage.ListSessions();
    assert |listed| == |storage.sessions| by {
      assert |multiset(listed)| == |multiset(storage.sessions)|;
    }
    if |listed| == 0 {
      var o := storage.CreateSession(id, FirstTitle, now);
      assert o.Done?;
    }
  }

  /** POST /api/sessions. A failing insert (an id already in use) escapes
      the handler and becomes a 500. */
  method PostSession(storage: ChatStorage, id: string, title: Option<string>, now: Timestamp)
    returns (resp: Response)
    requires storage.Valid()
    modifies storage
    ensures storage.Valid()
    ensures resp == if old(HasId(storage.sessions, id)) then ServerError(DuplicateSessionId)
                    else Created(id, CreateTitle(title))
    ensures Status(resp) == if old(HasId(storage.sessions, id)) then 500 else 201
    ensures resp.Created? ==> storage.sessions == old(storage.sessions) + [Session(id, resp.title, now)]
    ensures resp.ServerError? ==> storage.sessions == old(storage.sessions)
    ensures TitlesNonEmpty(old(storage.sessions)) ==> TitlesNonEmpty(storage.sessions)
    ensures storage.messages == old(storage.messages) && storage.nextId == old(storage.nextId)
  {
    var t := CreateTitle(title);
    var o := storage.CreateSession(id, t, now);
    if o.Failed? {
      return ServerError(o.error);
    }
    resp := Created(id, t);
  }

  /** `String(req.body?.title || '').trim()`: empty exactly when the title
      is missing or blank. */
  function RenameTitle(title: Option<string>): (r: string)
    ensures |r| == 0 <==> title.None? || AllWhitespace(title.value)
    ensures title.Some? ==> r == Trim(title.value)
  {
    TrimEmptyIff(FieldText(title));
    Trim(FieldText(title))
  }

  /** PATCH /api/sessions/:id: a missing or blank title is rejected and
      nothing changes; otherwise the trimmed title is stored. */
  method PatchSession(storage: ChatStorage, id: string, title: Option<string>)
    returns (resp: Response)
    requires storage.Valid()
    modifies storage
    ensures storage.Valid()
    ensures resp == if |RenameTitle(title)| == 0 then BadRequest(TitleRequired) else Ok
    ensures Status(resp) == if title.None? || AllWhitespace(title.value) then 400 else 200
    ensures storage.sessions == if resp.Ok? then Renamed(old(storage.sessions), id, RenameTitle(title)) else old(storage.sessions)
    ensures TitlesNonEmpty(old(storage.sessions)) ==> TitlesNonEmpty(storage.sessions)
    ensures storage.messages == old(storage.messages) && storage.nextId == old(storage.nextId)
  {
    var t := RenameTitle(title);
    if |t| == 0 {
      return BadRequest(TitleRequired);
    }
    storage.RenameSession(id, t);
    resp := Ok;
  }

  /** DELETE /api/sessions/:id: cascade-delete the session, then make sure
      at least one session is left. */
  method DeleteSession(storage: ChatStorage, id: string, freshId: string, now: Timestamp)
    returns (resp: Response)
    requires storage.Valid()
    modifies storage
    ensures storage.Valid()
    ensures resp == Ok && Status(resp) == 200
    ensures storage.sessions != []
    ensures storage.messages == MessagesNotOf(old(storage.messages), id)
    ensures storage.nextId == old(storage.nextId) && storage.issued == old(storage.issued)
    ensures SessionsWithout(old(storage.sessions), id) != [] ==>
      storage.sessions == SessionsWithout(old(storage.sessions), id)
    ensures SessionsWithout(old(storage.sessions), id) == [] ==>
      storage.sessions == [Session(freshId, DefaultTitle, now)]
    ensures TitlesNonEmpty(old(storage.sessions)) ==> TitlesNonEmpty(storage.sessions)
  {
    storage.DeleteSession(id);
    var listed := storage.ListSessions();
    assert |listed| == |storage.sessions| by {
      assert |multiset(listed)| == |multiset(storage.sessions)|;
    }
    if |listed| == 0 {
      var o := storage.CreateSession(freshId, DefaultTitle, now);
      assert o.Done?;
    }
    resp := Ok;
  }

  /** The context window of a turn: the newest `ContextLimit` entries of the
      transcript that already holds the user message. */
  function Context(before: seq<Entry>, user: Entry): (ctx: seq<Entry>)
    ensures |ctx| == if |before| + 1 < ContextLimit then |before| + 1 else ContextLimit
    ensures ctx == (before + [user])[|before| + 1 - |ctx|..]
    ensures ctx[|ctx| - 1] == user
    ensures |before| + 1 <= ContextLimit ==> ctx == before + [user]
  {
    var t := before + [user];
    var ctx := Tail(t, ContextLimit);
    assert ctx[|ctx| - 1] == t[|t| - 1];
    ctx
  }

  /** POST /api/chat. The user message is stored first, the reply is
      computed from the context window read after it, and the assistant
      message is stored second. */
  method PostChat(storage: ChatStorage, sessionId: Option<string>, prompt: Option<string>,
                  reply: seq<Entry> -> string, userAt: Timestamp, replyAt: Timestamp)
    returns (resp: Response)
    requires storage.Valid()
    modifies storage
    ensures storage.Valid()
    ensures storage.sessions == old(storage.sessions)
    ensures !ValidChat(sessionId, prompt) ==>
      resp == BadRequest(ChatRequired) && storage.messages == old(storage.messages) && storage.nextId == old(storage.nextId)
    ensures ValidChat(sessionId, prompt) && !old(HasId(storage.sessions, sessionId.value)) ==>
      resp == ServerError(UnknownSession) && storage.messages == old(storage.messages) && storage.nextId == old(storage.nextId)
    ensures ValidChat(sessionId, prompt) && old(HasId(storage.sessions, sessionId.value)) ==>
      var sid := sessionId.value;
      var user := Entry(User, Trim(prompt.value));
      var answer := reply(Context(old(storage.GetAllMessages(sid)), user));
      && storage.messages == old(storage.messages) + [Message(old(storage.nextId), sid, User, user.content, userAt)]
                                                   + [Message(old(storage.nextId) + 1, sid, Assistant, answer, replyAt)]
      && storage.nextId == old(storage.nextId) + 2
      && resp == Chat(answer, old(storage.GetAllMessages(sid)) + [user] + [Entry(Assistant, answer)])
      && storage.GetAllMessages(sid) == resp.messages
      && (|resp.messages| == 2 <==> old(storage.GetAllMessages(sid)) == [])
  {
    if !ValidChat(sessionId, prompt) {
      return BadRequest(ChatRequired);
    }
    var sid := sessionId.value;
    var content := Trim(prompt.value);
    ghost var before := storage.GetAllMessages(sid);
    ghost var ms0 := storage.messages;
    ghost var id0 := storage.nextId;
    var o := storage.AddMessage(sid, User, content, userAt);
    if o.Failed? {
      return ServerError(o.error);
    }
    ghost var m1 := Message(id0, sid, User, content, userAt);
    AppendedIsLast(ms0, m1);
    assert storage.GetAllMessages(sid) == before + [Entry(User, content)];
    var context := storage.GetMessages(sid, ContextLimit);
    assert context == Context(before, Entry(User, content));
    var answer := reply(context);
    var o2 := storage.AddMessage(sid, Assistant, answer, replyAt);
    assert o2.Done?;
    ghost var m2 := Message(id0 + 1, sid, Assistant, answer, replyAt);
    assert storage.messages == (ms0 + [m1]) + [m2];
    AppendedIsLast(ms0 + [m1], m2);
    var all := storage.GetAllMessages(sid);
    assert all == (before + [Entry(User, content)]) + [Entry(Assistant, answer)];
    resp := Chat(answer, all);
  }

  /** The turn as the server runs it: the reply is `ChatService.reply` of a
      service built for `provider`, called with the request's options. */
  method PostServiceChat(storage: ChatStorage, sessionId: Option<string>, prompt: Option<string>,
                         provider: string, model: string, maxTokens: int,
                         userAt: Timestamp, replyAt: Timestamp)
    returns (resp: Response)
    requires storage.Valid()
    modifies storage
    ensures storage.Valid()
    ensures storage.sessions == old(storage.sessions)
    ensures resp.Chat? <==> ValidChat(sessionId, prompt) && old(HasId(storage.sessions, sessionId.value))
    ensures !resp.Chat? ==>
      && resp == (if !ValidChat(sessionId, prompt) then BadRequest(ChatRequired) else ServerError(UnknownSession))
      && storage.messages == old(storage.messages) && storage.nextId == old(storage.nextId)
    ensures resp.Chat? ==>
      var sid := sessionId.value;
      && resp.reply == ChatService.DemoReply([Entry(User, Trim(prompt.value))])
      && storage.messages == old(storage.messages) + [Message(old(storage.nextId), sid, User, Trim(prompt.value), userAt)]
                                                   + [Message(old(storage.nextId) + 1, sid, Assistant, resp.reply, replyAt)]
      && storage.nextId == old(storage.nextId) + 2
      && resp.messages == old(storage.GetAllMessages(sid)) + [Entry(User, Trim(prompt.value))] + [Entry(Assistant, resp.reply)]
      && storage.GetAllMessages(sid) == resp.messages
  {
    resp := PostChat(storage, sessionId, prompt, ctx => ChatService.Reply(provider, ctx, model, maxTokens), userAt, replyAt);
    if resp.Chat? {
      var user := Entry(User, Trim(prompt.value));
      DemoTurnReply(old(storage.GetAllMessages(sessionId.value)), user.content, provider, model, maxTokens);
    }
  }

  /** In demo mode the reply of a turn depends on the trimmed prompt alone,
      whatever the transcript already holds. */
  lemma DemoTurnReply(before: seq<Entry>, content: string, provider: string, model: string, maxTokens: int)
    ensures ChatService.Reply(provider, Context(before, Entry(User, content)), model, maxTokens) ==
            ChatService.DemoReply([Entry(User, content)])
  {
    var ctx := Context(before, Entry(User, content));
    assert ctx == ctx[..|ctx| - 1] + [Entry(User, content)];
    ChatService.OnlyLatestUserMessage(ctx[..|ctx| - 1], content);
  }
}
