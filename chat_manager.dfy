/**
  Conversation persistence and message conversion: listing a user's conversations,
  loading one conversation's history, writing a conversation row, and turning an agent
  message envelope into the `ChatMessage` the front end shows.
 */
module ChatManager {
  import opened Results
  import opened Json
  import opened Backend
  import opened ChatModels

  // ---------------------------------------------------------------- listing

  /** `Conversations(**row)` for a selected row. */
  function Summary(row: Row): Conversations {
    Conversations(row.id, row.title, row.updatedAt)
  }

  function Summaries(rows: seq<Row>): (r: seq<Conversations>)
    ensures |r| == |rows|
    ensures forall i :: 0 <= i < |rows| ==> r[i] == Summary(rows[i])
  {
    if rows == [] then [] else [Summary(rows[0])] + Summaries(rows[1..])
  }

  lemma {:induction false} SummariesInsert(row: Row, rows: seq<Row>)
    ensures multiset(Summaries(InsertNewestFirst(row, rows))) == multiset(Summaries(rows)) + multiset{Summary(row)}
  {
    if rows == [] || TextLe(rows[0].updatedAt, row.updatedAt) {
      assert Summaries([row] + rows) == [Summary(row)] + Summaries(rows);
    } else {
      SummariesInsert(row, rows[1..]);
      assert Summaries([rows[0]] + InsertNewestFirst(row, rows[1..]))
          == [Summary(rows[0])] + Summaries(InsertNewestFirst(row, rows[1..]));
      assert Summaries(rows) == [Summary(rows[0])] + Summaries(rows[1..]);
    }
  }

  /** Ordering the rows reorders their summaries and loses none. */
  lemma {:induction false} SummariesOrder(rows: seq<Row>)
    ensures multiset(Summaries(OrderNewestFirst(rows))) == multiset(Summaries(rows))
  {
    if rows != [] {
      SummariesOrder(rows[1..]);
      SummariesInsert(rows[0], OrderNewestFirst(rows[1..]));
      assert Summaries(rows) == [Summary(rows[0])] + Summaries(rows[1..]);
    }
  }

  /** `get_conversations`: one entry per row of the table, newest `updated_at` first. The
      query carries no user filter; which rows a user may see is the hosted store's
      access policy, not part of this model. */
  method GetConversations(table: ConversationTable) returns (r: seq<Conversations>)
    ensures forall i, j :: 0 <= i < j < |r| ==> TextLe(r[j].updatedAt, r[i].updatedAt)
    ensures multiset(r) == multiset(Summaries(table.rows))
  {
    var data := table.SelectNewestFirst();
    r := Summaries(data);
    SummariesOrder(table.rows);
  }

  // ---------------------------------------------------------------- loading

  /** The history stored under `conversationId`: `[]` when no row has that id, else
      what the codec makes of that row's text. */
  function StoredHistory(rows: seq<Row>, codec: Codec, conversationId: int): Result<seq<ModelMessage>, string> {
    var found := RowsWithId(rows, conversationId);
    if found == [] then Success([]) else codec.validate(found[0].messages)
  }

  /** `get_conversation`: the decoded history of the conversation, `[]` when no row has
      that id; a stored text the codec rejects raises its validation error. */
  method GetConversation(table: ConversationTable, codec: Codec, conversationId: int)
    returns (r: Result<seq<ModelMessage>, string>)
    requires table.Valid()
    ensures (forall i :: 0 <= i < |table.rows| ==> table.rows[i].id != conversationId) ==> r == Success([])
    ensures forall i :: 0 <= i < |table.rows| && table.rows[i].id == conversationId ==>
      r == codec.validate(table.rows[i].messages)
    ensures r == StoredHistory(table.rows, codec, conversationId)
  {
    var data := table.SelectById(conversationId);
    if data == [] {
      return Success([]);
    }
    var messages: seq<ModelMessage> := [];
    var parsed := codec.validate(data[0].messages);
    match parsed
    case Failure(e) =>
      r := Failure(e);
    case Success(decoded) =>
      messages := messages + decoded;
      assert messages == decoded;
      r := Success(messages);
  }

  // ---------------------------------------------------------------- writing

  /** `ConversationScehma(...).model_dump(exclude_none=True)` for the row
      `upsert_conversation` writes. */
  function ConversationRecord(userId: string, title: string, conversationHistory: string,
                              conversationId: Option<int>, now: string): (record: map<string, Json>)
    ensures IsConversationRecord(record)
    ensures "id" in record <==> conversationId.Some?
    ensures conversationId.Some? ==> record["id"] == JInt(conversationId.value)
    ensures record.Keys == {"title", "user_id", "messages", "updated_at"} + (if conversationId.Some? then {"id"} else {})
    ensures record["title"] == JStr(title) && record["user_id"] == JStr(userId)
    ensures record["messages"] == JStr(conversationHistory) && record["updated_at"] == JStr(now)
  {
    var schema := ConversationSchema(conversationId, title, userId, conversationHistory, now);
    var record := map["title" := JStr(schema.title), "user_id" := JStr(schema.userId),
                      "messages" := JStr(schema.messages), "updated_at" := JStr(schema.updatedAt)];
    match schema.id
    case None => record
    case Some(id) => record["id" := JInt(id)]
  }

  /** `upsert_conversation`: writes the whole history as one row, stamped `now`, under the
      conversation id, or under the id sequence's next value when there is none. The row
      already holding that id is overwritten, otherwise the row is added. */
  method UpsertConversation(table: ConversationTable, userId: string, title: string,
                            conversationHistory: string, conversationId: Option<int>, now: string)
    returns (written: Row)
    requires table.Valid()
    modifies table
    ensures table.Valid()
    ensures conversationId.Some? ==> written.id == conversationId.value
    ensures conversationId.None? ==> written.id == old(table.nextId)
    ensures table.nextId == if conversationId.None? then old(table.nextId) + 1 else old(table.nextId)
    ensures written == Row(written.id, title, userId, conversationHistory, now)
    ensures table.rows == Upserted(old(table.rows), written)
  {
    var record := ConversationRecord(userId, title, conversationHistory, conversationId, now);
    written := table.Upsert(record);
  }

  /** Persistence round trip: once a history is written under a conversation id, loading
      that id gives the history back, provided the SDK's codec reads back what it writes.
      The table then holds exactly one row with that id. */
  lemma SaveThenLoad(rows: seq<Row>, codec: Codec, userId: string, title: string,
                     history: seq<ModelMessage>, id: int, now: string)
    requires UniqueIds(rows) && RoundTrips(codec)
    ensures var written := Row(id, title, userId, codec.dump(history), now);
      && RowsWithId(Upserted(rows, written), id) == [written]
      && codec.validate(RowsWithId(Upserted(rows, written), id)[0].messages) == Success(history)
  {
    UpsertedCorrect(rows, Row(id, title, userId, codec.dump(history), now));
  }

  // ---------------------------------------------------------------- conversion

  /** `to_chat_message` fails with `IndexError` on an envelope without parts, and with
      `UnexpectedModelBehavior` on any other shape it does not represent. */
  datatype ConversionError = IndexError | UnexpectedModelBehavior(message: ModelMessage)

  /** The shapes a chat message can be made from: a request led by a user prompt, or a
      response led by text. */
  predicate IsChatShaped(m: ModelMessage) {
    match m
    case ModelRequest(parts) => |parts| > 0 && parts[0].UserPromptPart?
    case ModelResponse(parts, _) => |parts| > 0 && parts[0].TextPart?
  }

  predicate HasNoParts(m: ModelMessage) {
    match m
    case ModelRequest(parts) => parts == []
    case ModelResponse(parts, _) => parts == []
  }

  /** `to_chat_message`: classifies an envelope on its kind and its first part only. */
  function ToChatMessage(m: ModelMessage): (r: Result<ChatMessage, ConversionError>)
    ensures r.Success? <==> IsChatShaped(m)
    ensures HasNoParts(m) ==> r == Failure(IndexError)
    ensures !HasNoParts(m) && !IsChatShaped(m) ==> r == Failure(UnexpectedModelBehavior(m))
    ensures r.Success? && m.ModelRequest? ==>
      r.value == ChatMessage(User, m.requestParts[0].timestamp, m.requestParts[0].content)
    ensures r.Success? && m.ModelResponse? ==>
      r.value == ChatMessage(Model, m.timestamp, m.responseParts[0].content)
  {
    match m
    case ModelRequest(parts) =>
      if |parts| == 0 then Failure(IndexError)
      else (
        match parts[0]
        case UserPromptPart(content, timestamp) => Success(ChatMessage(User, timestamp, content))
        case _ => Failure(UnexpectedModelBehavior(m)))
    case ModelResponse(parts, timestamp) =>
      if |parts| == 0 then Failure(IndexError)
      else (
        match parts[0]
        case TextPart(content) => Success(ChatMessage(Model, timestamp, content))
        case _ => Failure(UnexpectedModelBehavior(m)))
  }

  /** The envelope the SDK builds for a chat message: the reference inverse of
      `ToChatMessage`. */
  function Envelope(c: ChatMessage): ModelMessage {
    match c.role
    case User => ModelRequest([UserPromptPart(c.content, c.timestamp)])
    case Model => ModelResponse([TextPart(c.content)], c.timestamp)
  }

  /** Every chat message survives the trip through its envelope. */
  lemma ToChatMessageOfEnvelope(c: ChatMessage)
    ensures ToChatMessage(Envelope(c)) == Success(c)
  {
  }

  /** Two envelopes of the same kind with the same first part (and, for responses, the
      same timestamp). */
  predicate SameLead(m: ModelMessage, n: ModelMessage) {
    match (m, n)
    case (ModelRequest(p), ModelRequest(q)) => |p| > 0 && |q| > 0 && p[0] == q[0]
    case (ModelResponse(p, t), ModelResponse(q, u)) => |p| > 0 && |q| > 0 && p[0] == q[0] && t == u
    case _ => false
  }

  /** Only the first part is read: envelopes that differ only after it convert alike. */
  lemma OnlyFirstPartMatters(m: ModelMessage, n: ModelMessage)
    requires SameLead(m, n)
    ensures ToChatMessage(m).Success? == ToChatMessage(n).Success?
    ensures ToChatMessage(m).Success? ==> ToChatMessage(m) == ToChatMessage(n)
  {
  }
}
