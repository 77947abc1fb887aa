# A verified model of the hina02/ai chat back end

This project models in Dafny the parts of the hina02/ai FastAPI back end that are
sequential and self-contained, and proves properties of them:

- **Sessions and bearer tokens** (`routers/supabase.py`). The `Authorization: Bearer <token>`
  header is parsed as the source parses it: a test for the `"Bearer "` prefix, then the
  second piece of `split("Bearer ")`. This is stricter and looser than RFC 6750 in places:
  the scheme is case-sensitive, exactly one space follows it, and the token ends at the
  next `"Bearer "`. The process-wide cache maps an
  access token to a signed-in `SupabaseManager`. Sign-in and refresh fill it, and sign-out
  empties one entry. The lazily created development manager is also modelled
  (module `SupabaseRouter`, class `Sessions`).
- **Conversations** (`managers/chat.py`). The conversation list comes newest first. One
  conversation's history is loaded, and a conversation row is written. An agent message
  envelope is turned into the front end's `ChatMessage` (module `ChatManager`). The hosted
  `conversation` table is a sequence of rows with unique ids (module `Backend`).
- **The chat endpoints** (`routers/chat.py`). The WebSocket conversation connects first.
  Each frame must then carry the server-issued user id and session id, one agent run
  happens per accepted message, and the history is saved when the socket closes. Two HTTP
  reads map every failure inside the handler to HTTP 500 (module `ChatRouter`).
- **Character profiles** (`managers/char_chat.py`). Profiles are read through and written
  through a disk cache that sits in front of the hosted entity store. This includes the
  key mix-up in `get_ai_profile` (module `CharChat`).
- **The agent registry** (`deps/agent_factory.py` and its verbatim copy at
  `agent_factory.py:12-33`). `AgentFactory` is an insertion-ordered name-to-agent
  dictionary with list, create-or-replace and run operations (module `AgentRegistry`).
  The orchestrator sample builds its deps with a keyword argument that the `FactoryDeps`
  dataclass does not declare (module `Orchestrator`).

The external services are parameters:

- The hosted auth service is a record of functions (`Backend.HostedAuth`).
- The agent SDK's JSON codec for message histories is a `dump`/`validate` pair
  (`ChatModels.Codec`). Its round trip is the hypothesis `RoundTrips`, used only where it is
  needed and never proved.
- An agent run is an uninterpreted function (`ChatRouter.Agent`, `AgentRegistry.Runner`,
  `Orchestrator.Orchestrate`).
- The clock and `uuid4()` are the values `now` and `sessionId`.

JSON values, Python's `dict.get` and truthiness, `json.dumps` and pydantic's JSON string
quoting are in module `Json`, together with a reader of JSON text (`json.loads`, on
integer numbers) that is proved to read back everything `json.dumps` writes. Results and options are in module `Results`, and
`HTTPException` and responses are in module `Http`.

## Model

| member | source | states |
|---|---|---|
| SupabaseRouter.GetAccessToken | routers/supabase.py:14-18 | fails with 401 "Authorization header missing or invalid" exactly when the header does not start with `"Bearer "`; otherwise the token directly follows the prefix, holds no `"Bearer "`, and is followed by the end of the header or by the next `"Bearer "` (the second piece of `split("Bearer ")`) |
| SupabaseRouter.BearerRoundTrip | routers/supabase.py:16-18 | for every token without `"Bearer "` in it, parsing `"Bearer " + token` gives the token back |
| SupabaseRouter.Split | routers/supabase.py:18 | Python's `str.split` yields at least one piece, and at least two when the separator occurs |
| SupabaseRouter.JoinSplit | routers/supabase.py:18 | joining the pieces of a split with the separator gives the text back |
| SupabaseRouter.SplitPiecesFree | routers/supabase.py:18 | no piece of a split contains the separator |
| SupabaseRouter.IndexOf | routers/supabase.py:18 | the first index where the separator occurs, or none when it does not occur |
| SupabaseRouter.Sessions.constructor | routers/supabase.py:8-9 | at start-up there is no development manager and the cache is empty |
| SupabaseRouter.Sessions.NewManager | routers/supabase.py:48 | `SupabaseManager()` is a new instance with no session, distinct from every earlier one |
| SupabaseRouter.Sessions.GetSupabaseDev | routers/supabase.py:21-28 | the first call creates the development manager, stores it in the global before signing in, and signs it in; later calls return that manager and sign in nothing; a failed sign-in raises 401 but leaves the global set; the cache is untouched |
| SupabaseRouter.Sessions.GetSupabase | routers/supabase.py:31-35 | returns the cached manager exactly when the token is a key, otherwise 401 "Invalid or expired token"; changes nothing |
| SupabaseRouter.Sessions.GetSupabaseWb | routers/supabase.py:38-42 | the same lookup on the raw, possibly missing, WebSocket header value; changes nothing |
| SupabaseRouter.Sessions.Authenticate | routers/supabase.py:31-35 | the `Depends(get_supabase)` chain: a malformed header gives the parser's 401, an unknown token gives the lookup's 401, and otherwise the cached manager |
| SupabaseRouter.Sessions.SignIn | routers/supabase.py:45-65 | on success the new access token maps to the new signed-in manager, every other entry is unchanged, the body is `{"access_token": ...}` and the refresh cookie is set; a failed sign-in is a 401 and the cache is unchanged |
| SupabaseRouter.Sessions.Refresh | routers/supabase.py:68-78 | on success the new access token is added and nothing is removed; no cookie is set; a failure is a 401 with the cache unchanged |
| SupabaseRouter.Sessions.SignOut | routers/supabase.py:81-101 | a malformed header or an uncached token is a 401 and a failing hosted sign-out is a 500, all with the cache unchanged; otherwise exactly that token's entry is removed, the body is `{"message": "Sign out"}` and the cookie is deleted |
| SupabaseRouter.SignInThenSignOut | routers/supabase.py:45-101 | after sign-in yields token t and sign-out with `Bearer t`, looking t up is rejected with 401 again |
| SupabaseRouter.RefreshKeepsOldToken | routers/supabase.py:71-76 | after a refresh, the superseded access token still finds its old manager |
| SupabaseRouter.DevSignsInOnce | routers/supabase.py:24-28 | two calls of the development lookup return the same manager, and the second never asks the hosted service |
| Backend.SignInWithPassword | managers/supabase.py:13-24 | a successful hosted sign-in gives its tokens; any failure becomes 401 with the failure's text |
| Backend.RefreshAccessToken | managers/supabase.py:26-35 | the same translation for a refresh |
| Backend.TextLeTotal | managers/chat.py:22 | the text order used for `updated_at` is total |
| Backend.TextLeTransitive | managers/chat.py:22 | the text order used for `updated_at` is transitive |
| Backend.TextLe | managers/chat.py:22 | the text order on `updated_at`; total and transitive by the two lemmas above |
| Backend.InsertNewestFirstCorrect | managers/chat.py:22 | inserting a row into a newest-first list keeps it newest first and adds exactly that row |
| Backend.OrderNewestFirstCorrect | managers/chat.py:19-24 | ordering the rows sorts them by `updated_at`, descending, and is a permutation of them |
| Backend.OrderNewestFirst | managers/chat.py:22 | `order("updated_at", desc=True)`, an insertion sort; specified by Backend.OrderNewestFirstCorrect |
| Backend.RowsWithId | managers/chat.py:29-34 | the `eq("id", ...)` selection keeps only rows of the table with that id, and is empty exactly when no row has it |
| Backend.UpsertedCorrect | managers/chat.py:59 | after an upsert, ids stay unique, exactly one row has the written id and it is the written row, and every other id selects what it selected before |
| Backend.UpsertedAddsIffNew | managers/chat.py:59 | an upsert adds one row exactly when no row has the written id, and otherwise keeps the table's size |
| Backend.Upserted | managers/chat.py:59 | the table after `ON CONFLICT (id) DO UPDATE`; specified by Backend.UpsertedCorrect and Backend.UpsertedAddsIffNew |
| Backend.ConversationTable.constructor | managers/chat.py:20 | the table starts empty and the id sequence at 1 |
| Backend.ConversationTable.Upsert | managers/chat.py:59 | a record with an `id` writes that id and leaves the sequence alone; a record without one takes the sequence's next value and advances it; the row holding the id is overwritten, otherwise the row is added; ids stay unique |
| Backend.ConversationTable.SelectById | managers/chat.py:29-34 | at most one row; none exactly when no row has the id; otherwise that row |
| Backend.ConversationTable.SelectNewestFirst | managers/chat.py:19-24 | every row once, newest `updated_at` first (ties in the order `OrderNewestFirst` gives) |
| ChatManager.Summaries | managers/chat.py:25 | one `Conversations(**row)` per row, in the same order |
| ChatManager.SummariesOrder | managers/chat.py:19-25 | reordering the rows only reorders their summaries |
| ChatManager.GetConversations | managers/chat.py:18-25 | the listing is newest first and is a permutation of the summaries of all rows |
| ChatManager.GetConversation | managers/chat.py:28-41 | `[]` when no row has the id; otherwise the codec's decoding of that row's text, including its validation error |
| ChatManager.StoredHistory | managers/chat.py:28-41 | the history one id selects: `[]` without a row, otherwise the codec's decoding; the method GetConversation is proved against it |
| ChatManager.ConversationRecord | managers/chat.py:52-58 | the record has an `id` key exactly when a conversation id is given, holding that id; title, user id and messages pass through unchanged, stamped `now` |
| ChatManager.UpsertConversation | managers/chat.py:44-59 | the table afterwards is the upsert of the row built from the arguments, under the given id or the sequence's next value, and only an id-less save advances the sequence |
| ChatManager.SaveThenLoad | managers/chat.py:37-59 | if the codec reads back what it writes, a history saved under an id loads back unchanged from that id |
| ChatManager.ToChatMessage | managers/chat.py:62-75 | a request led by a user prompt becomes a `user` message with that part's timestamp and content; a response led by text becomes a `model` message with the response's timestamp and the part's content; an envelope without parts fails on indexing; every other shape raises `UnexpectedModelBehavior` |
| ChatManager.ToChatMessageOfEnvelope | managers/chat.py:63-74 | every chat message survives conversion from the envelope the SDK builds for it |
| ChatManager.OnlyFirstPartMatters | managers/chat.py:64-71 | envelopes of the same kind with the same first part convert alike |
| ChatRouter.AddressedFrameStep | routers/chat.py:62-74 | a frame with the server's ids and an empty message is skipped with no agent call and no reply; with a message, the history becomes the agent run's messages and its text is the one reply; a failing run ends the loop |
| ChatRouter.Step | routers/chat.py:60-74 | one pass of the receive loop; its cases are stated by AddressedFrameStep, MissingIdsRejected and MisaddressedFramesChangeNothing |
| ChatRouter.MissingIdsRejected | routers/chat.py:62-68 | missing ids read as `""`, so such a frame is answered `Unauthorized` |
| ChatRouter.MisaddressedFramesChangeNothing | routers/chat.py:66-68 | frames with another user or session id each get one `{"error": "Unauthorized"}`; the history is unchanged and the loop goes on |
| ChatRouter.AtMostOneReplyPerFrame | routers/chat.py:59-74 | the loop never sends more frames than it receives |
| ChatRouter.ConverseAppend | routers/chat.py:59-74 | turns are strictly sequential: the loop over `a + b` is the loop over `a` continued over `b` from its history, unless `a` raised |
| ChatRouter.HistoryIsLastRun | routers/chat.py:72-73 | the final history is the starting one or the full message list of an agent run; it is replaced, never edited |
| ChatRouter.Converse | routers/chat.py:58-76 | the loop as a fold of Step over the frames, stopping at the first run that raises; the loop lemmas above are about it |
| ChatRouter.Listen | routers/chat.py:58-76 | the receive loop computes exactly the conversation `Converse` defines over the frames |
| ChatRouter.HeaderId | routers/chat.py:43-44 | the `conversation_id` text read as an integer; HeaderIdIsIntegerText states which texts it reads and their values |
| ChatRouter.HeaderIdIsIntegerText | routers/chat.py:43-44 | a header reads as an id exactly when it is an optional `-` followed by one or more digits and nothing else, and then as the signed value of those digits; trailing text, a lone `-` and `""` give none |
| ChatRouter.HeaderIdOfIntToString | routers/chat.py:43-44 | the decimal text of every id reads back as that id |
| ChatRouter.InitialHistory | routers/chat.py:43-44 | `[]` for a missing or empty header; a query failure for text that is not an integer; otherwise the stored history of that id |
| ChatRouter.SchemaId | managers/chat.py:52-58 | the schema's `id`: `None` for a missing header, the integer for integer text, and a validation failure (no save) for any other text, the empty header included |
| ChatRouter.WebSocketEndpoint | routers/chat.py:34-82 | an unknown token or a failed history load sends one error frame and closes, with nothing processed or saved; otherwise the first frame carries the server's ids, the history starts as `[]` (missing or empty header) or as the stored history of the header's id, the loop runs, and the history is saved under title "Chat" exactly when it is non-empty and the header passes the schema's validation, under the header's id or the sequence's next value, which advances only for an id-less save |
| ChatRouter.ToChatMessages | routers/chat.py:99 | every message converts, in order, exactly when each is chat-shaped; otherwise the error of the first one that is not |
| ChatRouter.ConversionText | routers/chat.py:101 | `str(e)` of a conversion failure, inside the 500's detail |
| Http.ExceptionText | routers/chat.py:46 | `str(HTTPException)`: the status code, `": "`, then the detail |
| ChatRouter.GetConversationApi | routers/chat.py:93-101 | the dependency's 401s pass through; a load or conversion failure becomes 500 "Failed to fetch conversation: ..."; otherwise the converted messages |
| ChatRouter.GetConversationsApi | routers/chat.py:85-90 | the dependency's 401s pass through; a query failure becomes 500 "Failed to fetch conversations: ..."; otherwise the newest-first listing of all rows |
| CharChat.Serialize | managers/char_chat.py:29-31 | the name, then `"'s profile: "`, then exactly the profile's `json.dumps`, which is printable ASCII and which `json.loads` reads back as the profile |
| CharChat.ModelDumpJson | managers/char_chat.py:73 | `model_dump_json()` is a JSON string literal that decodes back to the serialized text |
| CharChat.Subscript | managers/char_chat.py:49 | `record[key]` succeeds exactly on an object holding the key, and gives the key's value; `KeyError` on another object, `TypeError` on anything else |
| CharChat.ProfileOf | managers/char_chat.py:49 | a missing or falsy record gives `{}`; otherwise the record's `"profile"` value, or the subscript's error |
| CharChat.FromRecord | managers/char_chat.py:71 | `Character(**record)` on an object succeeds exactly when its `name` is text and its `profile` (default `{}`) is an object, and then takes those; an object that fails gives `ValidationError` |
| CharChat.CharacterProfileHitIgnoresStore | managers/char_chat.py:67-73 | a cache hit returns the cached character and never consults the store |
| CharChat.AiProfileAsWritten | managers/char_chat.py:43-51 | `get_ai_profile` as written on the cache and store; specified by AiProfileAsWrittenMixesUpKeys and SystemPromptsAsWritten |
| CharChat.AiProfile | managers/char_chat.py:43-51 | `get_ai_profile` corrected; specified by AiProfileFillsAiKey and AiProfileAgreesWhenNamesMatch |
| CharChat.UserProfile | managers/char_chat.py:54-63 | `get_user_profile` on the cache and store; specified by UserProfileFillsUserKey and UserProfileFillThenHit |
| CharChat.CharacterProfile | managers/char_chat.py:66-73 | `get_character_profile` on the cache and store; specified by CharacterProfileFillsFromRecord and the three other CharacterProfile lemmas |
| CharChat.UserProfileFillsUserKey | managers/char_chat.py:54-63 | a miss caches `Character(user_name, record["profile"])` (or the empty profile when nothing truthy is stored) under `user_name` and no other key, and returns its prompt; a failing subscript caches nothing; later lookups hit |
| CharChat.CharacterProfileFillsFromRecord | managers/char_chat.py:66-73 | a miss with a truthy record returns and caches `Character(**record)` under that character's own name and no other key; a validation failure caches nothing |
| CharChat.UpdatedCharacter | managers/char_chat.py:80 | the character cached by an update, with `{"profile": <text>}`; read back by UpdateThenRead |
| CharChat.CharacterProfileMissWithoutRecord | managers/char_chat.py:70-72 | a miss with no truthy record caches and returns the requested name with an empty profile |
| CharChat.CharacterProfileFillThenHit | managers/char_chat.py:67-73 | after a fill, the next lookup of the same name hits and answers the same, whatever the store holds; a record whose name differs is cached under its own name only |
| CharChat.UserProfileFillThenHit | managers/char_chat.py:54-63 | a miss caches the user's character under `user_name`, and later lookups hit with the same answer |
| CharChat.AiProfileAsWrittenMixesUpKeys | managers/char_chat.py:44-51 | as written, a miss for `ai_name` names the user in the role prompt, caches the AI's profile under `user_name`, leaves `ai_name` uncached, and the following user prompt shows the AI's profile |
| CharChat.AiProfileFillsAiKey | managers/char_chat.py:44-51 | corrected, a miss caches the AI's own character under `ai_name` only, and later calls hit with the same answer |
| CharChat.AiProfileAgreesWhenNamesMatch | managers/char_chat.py:45-50 | the two versions agree when `ai_name` equals `user_name` |
| CharChat.UpdateThenRead | managers/char_chat.py:76-83 | after an update, every profile lookup of that name returns the character with `{"profile": <text>}` |
| CharChat.ProfileStore.constructor | managers/char_chat.py:34 | the disk cache starts empty over a given entity store |
| CharChat.ProfileStore.GetAiProfileAsWritten | managers/char_chat.py:43-51 | implements `get_ai_profile` as written, with the store unchanged |
| CharChat.ProfileStore.GetAiProfile | managers/char_chat.py:43-51 | implements the corrected `get_ai_profile`, with the store unchanged |
| CharChat.ProfileStore.GetUserProfile | managers/char_chat.py:54-63 | implements `get_user_profile`: the reply and new cache are those of UserProfile, so a hit returns the cached character and a miss caches the stored profile under `user_name` (UserProfileFillsUserKey); the store is unchanged |
| CharChat.ProfileStore.GetCharacterProfile | managers/char_chat.py:66-73 | implements `get_character_profile`: the reply and new cache are those of CharacterProfile, so a hit returns the cached character and a miss caches the character built from the stored record (CharacterProfileFillsFromRecord); the store is unchanged |
| CharChat.ProfileStore.UpdateCharacterProfile | managers/char_chat.py:76-83 | writes the store entry, then caches the character with `{"profile": <text>}` under the name, and answers "Character profile updated" |
| CharChat.SystemPromptsAsWritten | managers/char_chat.py:43-63 | on a fresh cache, one run's two system prompts both present the AI's stored profile under the user's name |
| AgentRegistry.Keys | deps/agent_factory.py:11 | the names in insertion order, one per entry |
| AgentRegistry.Lookup | deps/agent_factory.py:14 | `agents.get(name)` finds nothing exactly when the name is not a key; otherwise the agent stored under it |
| AgentRegistry.AssignLookup | deps/agent_factory.py:23 | after `agents[name] = agent` the name gives that agent and every other name what it gave before |
| AgentRegistry.Assign | deps/agent_factory.py:23 | `agents[name] = agent` on an insertion-ordered dict; specified by the three Assign lemmas |
| AgentRegistry.AssignKeys | deps/agent_factory.py:23 | assigning to an existing name keeps the name list; a new name is appended |
| AgentRegistry.AssignDistinct | deps/agent_factory.py:23 | names stay distinct under assignment |
| AgentRegistry.AgentFactory.constructor | deps/agent_factory.py:7-8 | a factory starts with no agents |
| AgentRegistry.AgentFactory.FromAgents | agent_factory.py:87 | `AgentFactory(agents=...)` from a dict literal holds exactly those agents |
| AgentRegistry.AgentFactory.GetAgentNames | deps/agent_factory.py:10-11 | exactly the registered names, in insertion order, without duplicates (also agent_factory.py:15-16, a verbatim copy) |
| AgentRegistry.AgentFactory.RunAgent | deps/agent_factory.py:13-19 | an unregistered name gives "Agent not found" and runs nothing; a registered one gives that agent's run on the instruction (also agent_factory.py:18-24) |
| AgentRegistry.AgentFactory.CreateAgent | deps/agent_factory.py:21-24 | registers a new `gemini-1.5-pro` agent with that name and prompt under the name, replacing any previous one, leaving the rest, and answers "Success" (also agent_factory.py:26-29) |
| AgentRegistry.AgentFactory.SaveAgent | deps/agent_factory.py:26-28 | has no effect (also agent_factory.py:31-33) |
| AgentRegistry.CreateThenRun | deps/agent_factory.py:10-24 | after creating an agent, its name is listed (appended only if new) and running the name runs the new agent |
| Orchestrator.UnexpectedKeyword | agent_factory.py:36-38 | the first keyword argument that names no dataclass field, or none when every keyword is a field |
| Orchestrator.NewFactoryDeps | agent_factory.py:36-38 | building `FactoryDeps` succeeds exactly when every keyword is `factory`, and then holds the given agents |
| Orchestrator.RunOrchestratorSampleAsWritten | agent_factory.py:82-91 | as written, the sample raises `TypeError` for `tools` before the orchestrator runs, whatever the orchestrator would do |
| Orchestrator.RunOrchestratorSample | agent_factory.py:82-91 | corrected, the orchestrator runs once on the sample prompt with deps that hold the two default agents |
| Json.Get | routers/chat.py:62-64 | `dict.get(key, default)` on a decoded JSON object: the default when the key is absent, otherwise the value of its last occurrence |
| Json.Truthy | routers/chat.py:69 | Python's truthiness of a decoded JSON value (`if not message`, `if message_history`) |
| Json.Escape | managers/char_chat.py:73 | the escaping of a JSON string's characters, with or without `ensure_ascii`; inverted by the scanner, by Json.QuoteRoundTrip |
| Json.Quote | managers/char_chat.py:73 | a JSON string literal; read back by Json.QuoteRoundTrip |
| Json.Dumps | managers/char_chat.py:31 | `json.dumps` with its defaults; printable ASCII by Json.DumpsIsPrintableAscii and read back by Json.LoadsDumps |
| Json.Loads | managers/char_chat.py:31 | `json.loads` on integer-only JSON text: a value followed only by whitespace (leading-zero integers and lone-surrogate escapes differ, see Left out); reads back every `Dumps` output |
| Json.LoadsDumps | managers/char_chat.py:31 | `json.loads(json.dumps(v))` gives `v` back, for every value |
| Json.QuoteRoundTrip | managers/char_chat.py:73 | a JSON string literal, escaped with or without `ensure_ascii`, is read back by the string scanner of `json.loads` as its text |
| Json.DumpsIsPrintableAscii | managers/char_chat.py:31 | `json.dumps` with its defaults writes only printable ASCII |

## Left out

- Logging (`logfire`, `print`) is not modelled.
- Concurrency is not modelled. The session cache is an unsynchronised dict shared by async handlers, and every operation here runs in sequence.
- `SupabaseManager`'s calls to the hosted auth client are answers of `Backend.HostedAuth`. `get_user_id` is the user id recorded at sign-in.
- `get_entity` and `save_entity` are called by managers/char_chat.py but are not defined in managers/supabase.py. The store is a map from name to record. The record that `save_entity` keeps for a profile text is a parameter.
- The agent SDK is outside the model: agent runs, `all_messages()` and the message-history JSON codec. The codec's round trip is the `RoundTrips` hypothesis.
- `datetime.now()`, `datetime.today()` and `uuid.uuid4()` are the parameters `now` and `sessionId`.
- Backend.TextLe: `updated_at` is ordered as text. This matches time order on the fixed `isoformat()` layout. The database's own timestamp ordering is not modelled.
- Backend.ConversationTable: row-level access rules of the hosted store (which rows a user may see) are not modelled. The listing covers every row.
- ChatManager.GetConversation: a failure of the hosted query itself is not modelled. Only the codec's validation failure is.
- ChatRouter.WebSocketEndpoint: the `conversation_id` header is read as text. A missing or empty header loads `[]`; an empty header then fails the schema's validation on save, so nothing is saved. A non-integer header is a failed query whose text is the parameter `queryError`. Text that Postgres or pydantic would also accept as an integer beyond an optional `-` and digits (surrounding spaces, a `+`) is treated as a non-integer, and bigint overflow is not modelled.
- ChatRouter.WebSocketEndpoint: failures while sending a frame, and a client that closes mid-turn, are not modelled. A disconnect is the end of the frame sequence.
- SupabaseRouter.GetAccessToken: a request without an `Authorization` header is rejected by FastAPI's `Header(...)` with 422 before the function runs (routers/supabase.py:14). That is not modelled: the function takes the header's text.
- SupabaseRouter.Sessions.Refresh: a request without a `refresh_token` cookie is rejected by FastAPI's `Cookie(...)` with 422 before `refresh` runs (routers/supabase.py:69). That is not modelled: the method takes the cookie's text.
- Json.Loads: the integer reader accepts any run of digits, so `"01"` reads as 1 where `json.loads` (number pattern `-?(0|[1-9][0-9]*)`) raises "Extra data". It also rejects a `\u` escape of a lone surrogate (a high half not followed by a low-half escape, or a lone low half), which `json.loads` accepts. Neither form is ever produced by `Dumps`, so `LoadsDumps` is unaffected; `ChatRouter.HeaderId` relies on the digit reader accepting leading zeros.
- Backend.ConversationTable.SelectNewestFirst: Postgres leaves the order of rows with equal `updated_at` open. The model fixes the order `OrderNewestFirst` gives them.
- Backend.ConversationTable.Upsert: a client-chosen id (the WebSocket `conversation_id` header) does not advance the sequence, so a later id-less save can take an id that a row already has and overwrite that row. The model keeps this behaviour and does not rule it out.
- Json: a `JObject` may hold duplicate keys, which the Python dict that `json.dumps` receives cannot. `Get` gives the last occurrence, as `json.loads` keeps it.
- ChatRouter.ConversionText: the text of `UnexpectedModelBehavior` abbreviates the message's `repr` to its class name.
- Json: floating-point JSON numbers are not modelled. JSON numbers are integers only.
- The orchestrator's three tools (agent_factory.py:57-69) only forward to `AgentFactory`, which is modelled. The sample tools `get_today` and `get_weather`, the agents' prompts and the orchestrator's own behaviour are not modelled.
- `routers/char_chat.py`, `routers/test.py` and `main.py` repeat the load, run and save turn without gating. The graph-database managers, the sandbox and web-search tools and `config.py` are not part of this model.

## Findings

| source | as written | input that shows it | evidently intended | confidence | as-written member | corrected member |
|---|---|---|---|---|---|---|
| managers/char_chat.py:48-50 | on a cache miss for `ai_name` it builds `Character(name=user_name)` from the AI's stored profile and caches it under `user_name` | empty cache; the store holds `Alice` with profile `{"tone": "calm"}`; `ai_name` is `Alice` and `user_name` is `Bob`: the role prompt says "Play a role as Bob", `Bob` is cached with Alice's profile, `Alice` stays uncached, and the user prompt shows Alice's profile | build the AI's character as `Character(name=ai_name)` and cache it under `ai_name` | not executed; high | CharChat.ProfileStore.GetAiProfileAsWritten | CharChat.ProfileStore.GetAiProfile |
| agent_factory.py:87 | `FactoryDeps(tools=[], factory=...)` passes `tools`, which the dataclass (lines 36-38) does not declare | any call of `run_orchestrator_sample()` raises `TypeError: FactoryDeps.__init__() got an unexpected keyword argument 'tools'` before the orchestrator runs | `FactoryDeps(factory=AgentFactory(agents=default_agents))` | not executed; high | Orchestrator.RunOrchestratorSampleAsWritten | Orchestrator.RunOrchestratorSample |
