/**
  The chat endpoints: the WebSocket conversation (connect, authorise each frame against
  the server-issued user and session ids, run the agent on each accepted message, save
  the history when the socket closes) and the two HTTP reads of stored conversations,
  whose failures become HTTP 500.
 */
module ChatRouter {
  import opened Results
  import opened Http
  import opened Json
  import opened Backend
  import opened ChatModels
  import opened ChatManager
  import opened SupabaseRouter

  /** One run of the agent: its reply text (`result.data`) and the whole message list
      after the run (`result.all_messages()`). */
  datatype AgentRun = AgentRun(data: string, allMessages: seq<ModelMessage>)

  /** `agent.run(message, message_history=history)`, an external call; a failure carries
      the text of the exception it raised. */
  type Agent = (Json, seq<ModelMessage>) -> Result<AgentRun, string>

  /** A text frame received from the client: JSON that `json.loads` accepted, or not. */
  datatype Frame = Parsed(value: Json) | Unparsable

  /** A frame the server sends: `send_json(...)` or `send_text(...)`. */
  datatype OutFrame = SendJson(body: Json) | SendText(text: string)

  /** Why the conversation loop stopped: the client went away (no more frames), or an
      exception left the loop (a frame that is not JSON, JSON that is not an object, a
      failing agent call). */
  datatype LoopEnd = Disconnected | NotJson | NotAnObject | AgentFailed(reason: string)

  const UnauthorizedFrame := SendJson(JObject([("error", JStr("Unauthorized"))]))

  /** The title every WebSocket conversation is saved under. */
  const ChatTitle := "Chat"

  // ---------------------------------------------------------------- one turn

  /** What one frame leads to: the loop goes on with a history and the frames sent for
      it, or it stops. */
  datatype StepOutcome = Continue(history: seq<ModelMessage>, out: seq<OutFrame>) | Stop(end: LoopEnd)

  /** The body of the `while True` loop for one received frame. Missing fields read as
      `""`; a frame not addressed with the server's ids is answered `Unauthorized`; a
      falsy message is skipped; otherwise the agent runs on the message and the history,
      the history becomes the run's full message list and its text is sent. */
  function Step(userId: string, sessionId: string, agent: Agent, history: seq<ModelMessage>, frame: Frame)
    : StepOutcome
  {
    match frame
    case Unparsable => Stop(NotJson)
    case Parsed(value) =>
      if !value.JObject? then Stop(NotAnObject)
      else
        var clientUserId := Get(value.members, "user_id", JStr(""));
        var clientSessionId := Get(value.members, "session_id", JStr(""));
        var message := Get(value.members, "message", JStr(""));
        if clientUserId != JStr(userId) || clientSessionId != JStr(sessionId) then
          Continue(history, [UnauthorizedFrame])
        else if !Truthy(message) then
          Continue(history, [])
        else
          match agent(message, history)
          case Failure(reason) => Stop(AgentFailed(reason))
          case Success(run) => Continue(run.allMessages, [SendText(run.data)])
  }

  /** The frame a well-behaved client sends: the server's ids and a message. */
  function AddressedFrame(userId: string, sessionId: string, message: Json): Frame {
    Parsed(JObject([("user_id", JStr(userId)), ("session_id", JStr(sessionId)), ("message", message)]))
  }

  /** An addressed frame with an empty message is skipped: no agent call, no reply, the
      history kept. With a message, the agent runs once on it and the history, the history
      becomes the run's messages and the run's text is the one reply; a failing run ends
      the loop. */
  lemma AddressedFrameStep(userId: string, sessionId: string, agent: Agent, history: seq<ModelMessage>, message: Json)
    ensures var step := Step(userId, sessionId, agent, history, AddressedFrame(userId, sessionId, message));
      && (!Truthy(message) ==> step == Continue(history, []))
      && (Truthy(message) && agent(message, history).Success? ==>
            step == Continue(agent(message, history).value.allMessages, [SendText(agent(message, history).value.data)]))
      && (Truthy(message) && agent(message, history).Failure? ==> step == Stop(AgentFailed(agent(message, history).error)))
  {
    var members := [("user_id", JStr(userId)), ("session_id", JStr(sessionId)), ("message", message)];
    assert Get(members, "message", JStr("")) == message;
    assert members[..2] == [("user_id", JStr(userId)), ("session_id", JStr(sessionId))];
    assert Get(members, "session_id", JStr("")) == JStr(sessionId);
    assert members[..2][..1] == [("user_id", JStr(userId))];
    assert Get(members[..2][..1], "user_id", JStr("")) == JStr(userId);
    assert Get(members[..2], "user_id", JStr("")) == JStr(userId);
    assert Get(members, "user_id", JStr("")) == JStr(userId);
  }

  /** A frame without ids reads them as `""`: unless the server's own ids are empty, it is
      answered `Unauthorized` whatever its message. */
  lemma MissingIdsRejected(userId: string, sessionId: string, agent: Agent, history: seq<ModelMessage>, message: Json)
    requires userId != "" || sessionId != ""
    ensures Step(userId, sessionId, agent, history, Parsed(JObject([("message", message)])))
         == Continue(history, [UnauthorizedFrame])
  {
    var members := [("message", message)];
    assert Get(members, "session_id", JStr("")) == JStr("");
    assert Get(members, "user_id", JStr("")) == JStr("");
  }

  /** The loop's state after a sequence of frames: the history, everything sent, and why
      it stopped. */
  datatype Conversation = Conversation(history: seq<ModelMessage>, sent: seq<OutFrame>, end: LoopEnd)

  /** The loop over the frames the client sends, in order; it stops at the first frame
      that raises, and with `Disconnected` when the frames run out. */
  function Converse(userId: string, sessionId: string, agent: Agent, history: seq<ModelMessage>, frames: seq<Frame>)
    : Conversation
    decreases |frames|
  {
    if frames == [] then Conversation(history, [], Disconnected)
    else
      match Step(userId, sessionId, agent, history, frames[0])
      case Stop(end) => Conversation(history, [], end)
      case Continue(next, out) =>
        var rest := Converse(userId, sessionId, agent, next, frames[1..]);
        Conversation(rest.history, out + rest.sent, rest.end)
  }

  /** A frame the server does not accept as coming from this session. */
  predicate Misaddressed(userId: string, sessionId: string, frame: Frame) {
    frame.Parsed? && frame.value.JObject? &&
      (Get(frame.value.members, "user_id", JStr("")) != JStr(userId)
        || Get(frame.value.members, "session_id", JStr("")) != JStr(sessionId))
  }

  /** Misaddressed frames never reach the agent: each is answered `Unauthorized`, the
      history stays as it was and the connection stays open. */
  lemma {:induction false} MisaddressedFramesChangeNothing(userId: string, sessionId: string, agent: Agent,
                                                          history: seq<ModelMessage>, frames: seq<Frame>)
    requires forall i :: 0 <= i < |frames| ==> Misaddressed(userId, sessionId, frames[i])
    ensures Converse(userId, sessionId, agent, history, frames)
         == Conversation(history, seq(|frames|, _ => UnauthorizedFrame), Disconnected)
    decreases |frames|
  {
    if frames != [] {
      MisaddressedFramesChangeNothing(userId, sessionId, agent, history, frames[1..]);
      assert [UnauthorizedFrame] + seq(|frames| - 1, _ => UnauthorizedFrame) == seq(|frames|, _ => UnauthorizedFrame);
    }
  }

  /** Every frame is answered by at most one frame. */
  lemma {:induction false} AtMostOneReplyPerFrame(userId: string, sessionId: string, agent: Agent,
                                                  history: seq<ModelMessage>, frames: seq<Frame>)
    ensures |Converse(userId, sessionId, agent, history, frames).sent| <= |frames|
    decreases |frames|
  {
    if frames != [] {
      match Step(userId, sessionId, agent, history, frames[0])
      case Stop(_) =>
      case Continue(next, _) => AtMostOneReplyPerFrame(userId, sessionId, agent, next, frames[1..]);
    }
  }

  /** Turns are strictly ordered: a conversation over `a + b` is the conversation over
      `a`, continued from its history over `b`, unless an exception ended it within `a`. */
  lemma {:induction false} ConverseAppend(userId: string, sessionId: string, agent: Agent,
                                          history: seq<ModelMessage>, a: seq<Frame>, b: seq<Frame>)
    ensures var first := Converse(userId, sessionId, agent, history, a);
      var whole := Converse(userId, sessionId, agent, history, a + b);
      if first.end == Disconnected then
        var second := Converse(userId, sessionId, agent, first.history, b);
        whole == Conversation(second.history, first.sent + second.sent, second.end)
      else whole == first
    decreases |a|
  {
    if a == [] {
      assert a + b == b;
    } else {
      assert (a + b)[0] == a[0] && (a + b)[1..] == a[1..] + b;
      match Step(userId, sessionId, agent, history, a[0])
      case Stop(_) =>
      case Continue(next, out) =>
        ConverseAppend(userId, sessionId, agent, next, a[1..], b);
        var first := Converse(userId, sessionId, agent, next, a[1..]);
        var second := Converse(userId, sessionId, agent, first.history, b);
        assert out + (first.sent + second.sent) == (out + first.sent) + second.sent;
    }
  }

  /** The history is replaced, never edited: after the loop it is the message list of the
      last run the agent made, or the history the loop started with if it made none. */
  lemma {:induction false} HistoryIsLastRun(userId: string, sessionId: string, agent: Agent,
                                            history: seq<ModelMessage>, frames: seq<Frame>)
    ensures var h := Converse(userId, sessionId, agent, history, frames).history;
      h == history || exists m, prior :: agent(m, prior).Success? && h == agent(m, prior).value.allMessages
    decreases |frames|
  {
    if frames != [] {
      match Step(userId, sessionId, agent, history, frames[0])
      case Stop(_) =>
      case Continue(next, _) =>
        HistoryIsLastRun(userId, sessionId, agent, next, frames[1..]);
    }
  }

  // ---------------------------------------------------------------- the endpoint

  /** The `while True` receive loop: frames are taken one at a time, in order, until one
      raises or none are left. */
  method Listen(userId: string, sessionId: string, agent: Agent, history: seq<ModelMessage>, frames: seq<Frame>)
    returns (messageHistory: seq<ModelMessage>, sent: seq<OutFrame>, end: LoopEnd)
    ensures Conversation(messageHistory, sent, end) == Converse(userId, sessionId, agent, history, frames)
  {
    messageHistory, sent, end := history, [], Disconnected;
    var i := 0;
    while i < |frames|
      invariant 0 <= i <= |frames|
      invariant var rest := Converse(userId, sessionId, agent, messageHistory, frames[i..]);
        Converse(userId, sessionId, agent, history, frames) == Conversation(rest.history, sent + rest.sent, rest.end)
      decreases |frames| - i
    {
      assert frames[i..][0] == frames[i] && frames[i..][1..] == frames[i + 1..];
      var step := Step(userId, sessionId, agent, messageHistory, frames[i]);
      if step.Stop? {
        end := step.end;
        return;
      }
      ghost var rest := Converse(userId, sessionId, agent, step.history, frames[i + 1..]);
      assert sent + (step.out + rest.sent) == (sent + step.out) + rest.sent;
      messageHistory := step.history;
      sent := sent + step.out;
      i := i + 1;
    }
    assert frames[i..] == [];
  }

  /** A `conversation_id` header's text read as an integer, as the database's `eq("id",
      ...)` filter and pydantic's `int` field both read it: an optional `-` and decimal
      digits, nothing else. */
  function HeaderId(text: string): (r: Option<int>)
    ensures r.Some? ==> text != []
  {
    match ParseInt(text)
    case Some((JInt(id), rest)) => if rest == [] then Some(id) else None
    case _ => None
  }

  /** The header a client builds with `str(id)` reads back as that id. */
  lemma HeaderIdOfIntToString(id: int)
    ensures HeaderId(IntToString(id)) == Some(id)
  {
    ParseIntOfIntToString(id, []);
    assert IntToString(id) + [] == IntToString(id);
  }

  /** One or more decimal digits and nothing else. */
  predicate AllDigits(digits: string) {
    digits != [] && forall i :: 0 <= i < |digits| ==> IsDigit(digits[i])
  }

  /** Integer text as the id filter reads it: an optional `-`, then one or more decimal
      digits and nothing else. */
  predicate IntegerText(text: string) {
    if text != [] && text[0] == '-' then AllDigits(text[1..]) else AllDigits(text)
  }

  /** `HeaderId` reads exactly the integer texts, and each as its sign and digits say;
      every other text (trailing characters, a lone `-`, the empty text) gives `None`. */
  lemma HeaderIdIsIntegerText(text: string)
    ensures HeaderId(text).Some? <==> IntegerText(text)
    ensures IntegerText(text) ==>
      HeaderId(text) == Some(if text[0] == '-' then -(ParseNat(text[1..]) as int) else ParseNat(text))
  {
    if text != [] && text[0] == '-' {
      ParseDigitsWhole(text[1..]);
    } else {
      ParseDigitsWhole(text);
    }
  }

  /** The digit reader consumes the whole text exactly when it is all digits. */
  lemma ParseDigitsWhole(digits: string)
    ensures (ParseDigits(digits).Some? && ParseDigits(digits).value.1 == []) <==> AllDigits(digits)
    ensures AllDigits(digits) ==> ParseDigits(digits) == Some((ParseNat(digits), []))
  {
    var n := DigitCount(digits);
    if n < |digits| {
      assert !IsDigit(digits[n]);
      assert digits[n..] != [];
    } else {
      assert digits[..n] == digits;
      assert digits[n..] == [];
    }
  }

  /** The history the `conversation_id` header leads to: `[]` when the header is missing
      or empty; otherwise what `get_conversation` loads for it, where a header that is not
      an integer makes the hosted query fail with `queryError`. */
  function InitialHistory(rows: seq<Row>, codec: Codec, header: Option<string>, queryError: string)
    : (r: Result<seq<ModelMessage>, string>)
    ensures header.None? || header.value == "" ==> r == Success([])
    ensures header.Some? && header.value != "" && HeaderId(header.value).None? ==> r == Failure(queryError)
    ensures header.Some? && HeaderId(header.value).Some? ==> r == StoredHistory(rows, codec, HeaderId(header.value).value)
  {
    match header
    case None => Success([])
    case Some(text) =>
      if text == "" then Success([])
      else
        match HeaderId(text)
        case None => Failure(queryError)
        case Some(id) => StoredHistory(rows, codec, id)
  }

  /** The `id` of `ConversationScehma(id=conversation_id, ...)` when the endpoint saves: a
      missing header stays `None`, integer text becomes that integer, and any other text
      (in particular the empty header) fails pydantic's validation, so nothing is saved:
      `None` here. */
  function SchemaId(header: Option<string>): (r: Option<Option<int>>)
    ensures header.None? ==> r == Some(None)
    ensures header.Some? ==> (r.Some? <==> HeaderId(header.value).Some?)
    ensures header.Some? && r.Some? ==> r.value == HeaderId(header.value)
    ensures header == Some("") ==> r.None?
  {
    match header
    case None => Some(None)
    case Some(text) =>
      match HeaderId(text)
      case None => None
      case Some(id) => Some(Some(id))
  }

  /** The frame sent when the connection cannot be set up, before it is closed. */
  function ConnectErrorFrame(text: string): OutFrame {
    SendJson(JObject([("error", JStr(text))]))
  }

  /** The first frame of an accepted connection: the ids every later frame must carry. */
  function HelloFrame(userId: string, sessionId: string): OutFrame {
    SendJson(JObject([("user_id", JStr(userId)), ("session_id", JStr(sessionId))]))
  }

  /**
    `websocket_endpoint`. The `Authorization` header is looked up as it is in the token
    cache; if that or loading the stored history fails, one error frame is sent and the
    socket closed. Otherwise the server sends its user id and a fresh session id
    (`sessionId`, the `uuid4()` of the source) and runs the loop over `frames`. On the way
    out, a non-empty history is saved under title `"Chat"`, stamped `now`, with the id the
    `conversation_id` header gives; when that header is the empty text the save fails
    validation and nothing is written (`saved` is false).
   */
  method WebSocketEndpoint(sessions: Sessions, table: ConversationTable, codec: Codec, agent: Agent,
                           authorization: Option<string>, conversationId: Option<string>, queryError: string,
                           sessionId: string, now: string, frames: seq<Frame>)
    returns (sent: seq<OutFrame>, end: Option<LoopEnd>, saved: bool)
    requires sessions.Valid() && table.Valid()
    modifies table
    ensures table.Valid()
    ensures table.nextId == if saved && SchemaId(conversationId).Some? && SchemaId(conversationId).value.None?
                            then old(table.nextId) + 1 else old(table.nextId)
    ensures authorization.None? || authorization.value !in sessions.cache ==>
      && sent == [ConnectErrorFrame(ExceptionText(UnknownToken))] && end.None? && !saved
      && table.rows == old(table.rows)
    ensures authorization.Some? && authorization.value in sessions.cache ==>
      var userId := sessions.cache[authorization.value].userId.value;
      match InitialHistory(old(table.rows), codec, conversationId, queryError)
      case Failure(reason) =>
        sent == [ConnectErrorFrame(reason)] && end.None? && !saved && table.rows == old(table.rows)
      case Success(history) =>
        var c := Converse(userId, sessionId, agent, history, frames);
        var id := SchemaId(conversationId);
        && sent == [HelloFrame(userId, sessionId)] + c.sent
        && end == Some(c.end)
        && saved == (c.history != [] && id.Some?)
        && table.rows == if !saved then old(table.rows)
                         else Upserted(old(table.rows), Row(if id.value.Some? then id.value.value else old(table.nextId),
                                                            ChatTitle, userId, codec.dump(c.history), now))
  {
    saved := false;
    var found := sessions.GetSupabaseWb(authorization);
    if found.Failure? {
      sent := [ConnectErrorFrame(ExceptionText(found.error))];
      end := None;
      return;
    }
    var loaded: Result<seq<ModelMessage>, string> := Success([]);
    if conversationId.Some? && conversationId.value != "" {
      var id := HeaderId(conversationId.value);
      if id.None? {
        loaded := Failure(queryError);
      } else {
        loaded := GetConversation(table, codec, id.value);
      }
    }
    if loaded.Failure? {
      sent := [ConnectErrorFrame(loaded.error)];
      end := None;
      return;
    }
    var userId := found.value.userId.value;
    var history, replies, stop := Listen(userId, sessionId, agent, loaded.value, frames);
    sent := [HelloFrame(userId, sessionId)] + replies;
    end := Some(stop);
    if history != [] {
      var id := SchemaId(conversationId);
      if id.Some? {
        var written := UpsertConversation(table, userId, ChatTitle, codec.dump(history), id.value, now);
        saved := true;
      }
    }
  }

  // ---------------------------------------------------------------- the HTTP reads

  /** `str(e)` for the exceptions `to_chat_message` raises. The message's own `repr` is
      abbreviated to its class name. */
  function ConversionText(e: ConversionError): string {
    match e
    case IndexError => "list index out of range"
    case UnexpectedModelBehavior(m) =>
      "Unexpected message type for chat app: " + (if m.ModelRequest? then "ModelRequest" else "ModelResponse")
  }

  /** `history[k]` is the first message that cannot be converted. */
  predicate FirstFailure(history: seq<ModelMessage>, k: int) {
    0 <= k < |history| && !IsChatShaped(history[k]) && forall i :: 0 <= i < k ==> IsChatShaped(history[i])
  }

  /** `[to_chat_message(m) for m in conversation]`: every message converted in order, or
      the error of the first one that cannot be. */
  function ToChatMessages(history: seq<ModelMessage>): (r: Result<seq<ChatMessage>, ConversionError>)
    ensures r.Success? <==> forall i :: 0 <= i < |history| ==> IsChatShaped(history[i])
    ensures r.Success? ==> (|r.value| == |history| &&
      forall i :: 0 <= i < |history| ==> Success(r.value[i]) == ToChatMessage(history[i]))
    ensures r.Failure? ==> exists k :: FirstFailure(history, k) && Failure(r.error) == ToChatMessage(history[k])
  {
    if history == [] then Success([])
    else
      match ToChatMessage(history[0])
      case Failure(e) => Failure(e)
      case Success(first) =>
        match ToChatMessages(history[1..])
        case Failure(e) =>
          assert forall i :: 1 <= i < |history| ==> history[1..][i - 1] == history[i];
          Failure(e)
        case Success(rest) => Success([first] + rest)
  }

  /** `get_conversation_api`: the stored history as chat messages. A bad header or
      unknown token is the 401 of its dependency; any failure inside the handler, in
      loading or in converting any message, becomes 500. */
  method GetConversationApi(sessions: Sessions, table: ConversationTable, codec: Codec,
                            authorization: string, conversationId: int)
    returns (r: Result<seq<ChatMessage>, HttpError>)
    requires table.Valid()
    ensures !StartsWith(authorization, BearerPrefix) ==> r == Failure(MalformedHeader)
    ensures StartsWith(authorization, BearerPrefix) && GetAccessToken(authorization).value !in sessions.cache ==>
      r == Failure(UnknownToken)
    ensures StartsWith(authorization, BearerPrefix) && GetAccessToken(authorization).value in sessions.cache ==>
      match StoredHistory(table.rows, codec, conversationId)
      case Failure(reason) => r == Failure(HttpError(500, "Failed to fetch conversation: " + reason))
      case Success(history) =>
        match ToChatMessages(history)
        case Failure(e) => r == Failure(HttpError(500, "Failed to fetch conversation: " + ConversionText(e)))
        case Success(messages) => r == Success(messages)
  {
    var manager := sessions.Authenticate(authorization);
    if manager.Failure? {
      return Failure(manager.error);
    }
    var conversation := GetConversation(table, codec, conversationId);
    if conversation.Failure? {
      return Failure(HttpError(500, "Failed to fetch conversation: " + conversation.error));
    }
    match ToChatMessages(conversation.value)
    case Failure(e) =>
      r := Failure(HttpError(500, "Failed to fetch conversation: " + ConversionText(e)));
    case Success(messages) =>
      r := Success(messages);
  }

  /** `get_conversations_api`: the conversation list, newest first. A bad header or
      unknown token is the 401 of its dependency; a failure of the hosted query (its
      text in `queryFailure`) becomes 500. */
  method GetConversationsApi(sessions: Sessions, table: ConversationTable, authorization: string,
                             queryFailure: Option<string>)
    returns (r: Result<seq<Conversations>, HttpError>)
    ensures !StartsWith(authorization, BearerPrefix) ==> r == Failure(MalformedHeader)
    ensures StartsWith(authorization, BearerPrefix) && GetAccessToken(authorization).value !in sessions.cache ==>
      r == Failure(UnknownToken)
    ensures StartsWith(authorization, BearerPrefix) && GetAccessToken(authorization).value in sessions.cache ==>
      match queryFailure
      case Some(reason) => r == Failure(HttpError(500, "Failed to fetch conversations: " + reason))
      case None =>
        && r.Success?
        && (forall i, j :: 0 <= i < j < |r.value| ==> TextLe(r.value[j].updatedAt, r.value[i].updatedAt))
        && multiset(r.value) == multiset(Summaries(table.rows))
  {
    var manager := sessions.Authenticate(authorization);
    if manager.Failure? {
      return Failure(manager.error);
    }
    if queryFailure.Some? {
      return Failure(HttpError(500, "Failed to fetch conversations: " + queryFailure.value));
    }
    var conversations := GetConversations(table);
    r := Success(conversations);
  }
}
