/**
  The character-chat profiles: a `Character` (a name and a JSON profile) and the two
  maps the chat agent reads them from, the local disk cache keyed by character name and
  the hosted store's `character` entities. Each profile lookup reads through the cache
  and fills it on a miss; an update writes through to the store and then the cache.
 */
module CharChat {
  import opened Results
  import opened Json

  /** `Character`: a name and a profile, a JSON object. The profile is only checked to be
      an object when a `Character` is built from a stored record; assigning to it later
      is not checked, so it is any JSON value here. */
  datatype Character = Character(name: string, profile: Json)

  const ProfileMarker: string := "'s profile: "

  /** `serialize_character`: the name, `"'s profile: "`, then `json.dumps` of the profile,
      which is printable ASCII and reads back as the profile whatever the profile holds. */
  function Serialize(c: Character): (s: string)
    ensures |s| >= |c.name| + |ProfileMarker|
    ensures s[..|c.name|] == c.name
    ensures s[|c.name|..|c.name| + |ProfileMarker|] == ProfileMarker
    ensures s[|c.name| + |ProfileMarker|..] == Dumps(c.profile)
    ensures Loads(s[|c.name| + |ProfileMarker|..]) == Some(c.profile)
    ensures PrintableAscii(s[|c.name| + |ProfileMarker|..])
  {
    DumpsIsPrintableAscii(c.profile);
    LoadsDumps(c.profile);
    var s := c.name + ProfileMarker + Dumps(c.profile);
    assert s[|c.name| + |ProfileMarker|..] == Dumps(c.profile);
    s
  }

  /** `char.model_dump_json()`: the serializer returns text, so the model dumps as one
      JSON string, which decodes back to the serialized text. */
  function ModelDumpJson(c: Character): (j: string)
    ensures Unquote(j) == Some(Serialize(c))
  {
    QuoteRoundTrip(Serialize(c), false);
    Quote(Serialize(c), false)
  }

  /** The exceptions a lookup can raise while reading a stored record. */
  datatype ToolError =
    | KeyError(key: string)   // the record is an object without that key
    | TypeError               // the record is not an object
    | ValidationError         // `Character(**record)` rejects the record's fields

  /** `record[key]` on a JSON value. */
  function Subscript(record: Json, key: string): (r: Result<Json, ToolError>)
    ensures r.Success? <==> record.JObject? && HasKey(record.members, key)
    ensures record.JObject? && !HasKey(record.members, key) ==> r == Failure(KeyError(key))
    ensures !record.JObject? ==> r == Failure(TypeError)
    ensures r.Success? ==> r.value == Get(record.members, key, JNull)
  {
    match record
    case JObject(members) =>
      if HasKey(members, key) then Success(Get(members, key, JNull)) else Failure(KeyError(key))
    case _ => Failure(TypeError)
  }

  /** What `get_entity("character", name)` returns: the stored record, or `None`. */
  function Entity(entities: map<string, Json>, name: string): Option<Json> {
    if name in entities then Some(entities[name]) else None
  }

  /** `char_data["profile"] if char_data else {}`. */
  function ProfileOf(record: Option<Json>): (r: Result<Json, ToolError>)
    ensures record.None? || !Truthy(record.value) ==> r == Success(JObject([]))
    ensures record.Some? && Truthy(record.value) ==> r == Subscript(record.value, "profile")
  {
    match record
    case None => Success(JObject([]))
    case Some(data) => if Truthy(data) then Subscript(data, "profile") else Success(JObject([]))
  }

  /** `Character(**record)`: the record must be an object whose `name` is text and whose
      `profile`, when present, is an object; other keys are ignored. */
  function FromRecord(record: Json): (r: Result<Character, ToolError>)
    ensures !record.JObject? ==> r == Failure(TypeError)
    ensures record.JObject? ==>
      (r.Success? <==> Get(record.members, "name", JNull).JStr? && Get(record.members, "profile", JObject([])).JObject?)
    ensures record.JObject? && r.Failure? ==> r.error == ValidationError
    ensures r.Success? ==> Get(record.members, "name", JNull) == JStr(r.value.name) && r.value.profile.JObject?
    ensures r.Success? && HasKey(record.members, "profile") ==> r.value.profile == Get(record.members, "profile", JNull)
    ensures r.Success? && !HasKey(record.members, "profile") ==> r.value.profile == JObject([])
  {
    match record
    case JObject(members) =>
      var name := Get(members, "name", JNull);
      var profile := Get(members, "profile", JObject([]));
      if !name.JStr? || !profile.JObject? then Failure(ValidationError)
      else
        assert !HasKey(members, "name") ==> name == JNull;
        Success(Character(name.s, profile))
    case _ => Failure(TypeError)
  }

  /** A tool's answer and the cache after it. */
  datatype Lookup = Lookup(reply: Result<string, ToolError>, cache: map<string, Character>)

  function RolePrompt(c: Character): string {
    "# Play a role as " + c.name + ". Your Personality: " + ModelDumpJson(c)
  }

  function UserPrompt(c: Character): string {
    "Recognize User Personality: " + ModelDumpJson(c)
  }

  /** `get_ai_profile` as written: it looks up `ai_name`, but on a miss it builds a
      character named `user_name` from the AI's stored profile and caches it under
      `user_name`. */
  function AiProfileAsWritten(cache: map<string, Character>, entities: map<string, Json>,
                              aiName: string, userName: string): Lookup
  {
    if aiName in cache then Lookup(Success(RolePrompt(cache[aiName])), cache)
    else
      match ProfileOf(Entity(entities, aiName))
      case Failure(e) => Lookup(Failure(e), cache)
      case Success(profile) =>
        var c := Character(userName, profile);
        Lookup(Success(RolePrompt(c)), cache[c.name := c])
  }

  /** `get_ai_profile` as evidently intended: the character built on a miss is the AI's,
      named and cached under `ai_name`. */
  function AiProfile(cache: map<string, Character>, entities: map<string, Json>,
                     aiName: string, userName: string): Lookup
  {
    if aiName in cache then Lookup(Success(RolePrompt(cache[aiName])), cache)
    else
      match ProfileOf(Entity(entities, aiName))
      case Failure(e) => Lookup(Failure(e), cache)
      case Success(profile) =>
        var c := Character(aiName, profile);
        Lookup(Success(RolePrompt(c)), cache[c.name := c])
  }

  /** `get_user_profile`: the user's character from the cache, or built from the user's
      stored profile and cached under `user_name`. */
  function UserProfile(cache: map<string, Character>, entities: map<string, Json>, userName: string): Lookup {
    if userName in cache then Lookup(Success(UserPrompt(cache[userName])), cache)
    else
      match ProfileOf(Entity(entities, userName))
      case Failure(e) => Lookup(Failure(e), cache)
      case Success(profile) =>
        var c := Character(userName, profile);
        Lookup(Success(UserPrompt(c)), cache[userName := c])
  }

  /** `get_character_profile`: the cached character, or the one the stored record
      describes (an empty profile under the requested name when nothing truthy is
      stored), cached under its own name. */
  function CharacterProfile(cache: map<string, Character>, entities: map<string, Json>, name: string): Lookup {
    if name in cache then Lookup(Success(ModelDumpJson(cache[name])), cache)
    else
      var record := Entity(entities, name);
      var built := if record.None? || !Truthy(record.value) then Success(Character(name, JObject([])))
                   else FromRecord(record.value);
      match built
      case Failure(e) => Lookup(Failure(e), cache)
      case Success(c) => Lookup(Success(ModelDumpJson(c)), cache[c.name := c])
  }

  const ProfileUpdated := "Character profile updated"

  /** The character `udpate_character_profile` caches: the raw profile text wrapped in an
      object under `"profile"`. */
  function UpdatedCharacter(name: string, profile: string): Character {
    Character(name, JObject([("profile", JStr(profile))]))
  }

  // ---------------------------------------------------------------- properties

  /** A hit answers from the cache alone: the store is not consulted. */
  lemma CharacterProfileHitIgnoresStore(cache: map<string, Character>, e1: map<string, Json>, e2: map<string, Json>, name: string)
    requires name in cache
    ensures CharacterProfile(cache, e1, name) == CharacterProfile(cache, e2, name)
    ensures CharacterProfile(cache, e1, name).reply == Success(ModelDumpJson(cache[name]))
  {
  }

  /** A miss with nothing truthy stored fills the cache with an empty profile under the
      requested name. */
  lemma CharacterProfileMissWithoutRecord(cache: map<string, Character>, entities: map<string, Json>, name: string)
    requires name !in cache && (name !in entities || !Truthy(entities[name]))
    ensures var l := CharacterProfile(cache, entities, name);
      l.cache == cache[name := Character(name, JObject([]))]
      && Unquote(l.reply.value) == Some(name + ProfileMarker + "{}")
  {
    assert Dumps(JObject([])) == "{}";
  }

  /** Once filled, the cache answers every later lookup of the same name the same way,
      whatever the store holds by then. A record whose `name` differs from the one asked
      for is cached under its own name, and the next lookup misses again. */
  lemma CharacterProfileFillThenHit(cache: map<string, Character>, entities: map<string, Json>,
                                    later: map<string, Json>, name: string)
    requires CharacterProfile(cache, entities, name).reply.Success?
    ensures var first := CharacterProfile(cache, entities, name);
      (name in first.cache ==> CharacterProfile(first.cache, later, name) == first)
      && (name !in cache && name !in first.cache ==>
            exists other :: other != name && other in first.cache && first.cache == cache[other := first.cache[other]])
  {
    var first := CharacterProfile(cache, entities, name);
    if name !in cache {
      var record := Entity(entities, name);
      var built := if record.None? || !Truthy(record.value) then Success(Character(name, JObject([])))
                   else FromRecord(record.value);
      var c := built.value;
      assert first.cache == cache[c.name := c];
      if name in first.cache {
        assert c.name == name;
      } else {
        assert c.name != name && c.name in first.cache;
      }
    }
  }

  /** `get_user_profile` fills and then hits like any read-through cache. */
  lemma UserProfileFillThenHit(cache: map<string, Character>, entities: map<string, Json>,
                               later: map<string, Json>, userName: string)
    requires UserProfile(cache, entities, userName).reply.Success?
    ensures var first := UserProfile(cache, entities, userName);
      && userName in first.cache
      && first.cache[userName].name == (if userName in cache then cache[userName].name else userName)
      && UserProfile(first.cache, later, userName) == first
  {
  }

  /** A miss for the user reads the stored record: its `"profile"` (or `{}` when nothing
      truthy is stored) becomes the user's character, cached under `user_name` and no other
      key, and later calls hit; a record `["profile"]` cannot read fails and caches nothing. */
  lemma UserProfileFillsUserKey(cache: map<string, Character>, entities: map<string, Json>,
                                later: map<string, Json>, userName: string)
    requires userName !in cache
    ensures var l := UserProfile(cache, entities, userName);
      match ProfileOf(Entity(entities, userName))
      case Success(profile) =>
        && l.reply == Success(UserPrompt(Character(userName, profile)))
        && l.cache == cache[userName := Character(userName, profile)]
        && UserProfile(l.cache, later, userName) == l
      case Failure(e) => l == Lookup(Failure(e), cache)
  {
  }

  /** A miss with a truthy stored record builds the character from that record, as
      `Character(**char_data)` does, and caches it under the record's own name and no other
      key; a record that fails validation caches nothing. */
  lemma CharacterProfileFillsFromRecord(cache: map<string, Character>, entities: map<string, Json>,
                                        later: map<string, Json>, name: string)
    requires name !in cache && name in entities && Truthy(entities[name])
    ensures var l := CharacterProfile(cache, entities, name);
      match FromRecord(entities[name])
      case Success(c) =>
        && l.reply == Success(ModelDumpJson(c))
        && l.cache == cache[c.name := c]
        && (c.name == name ==> CharacterProfile(l.cache, later, name) == l)
      case Failure(e) => l == Lookup(Failure(e), cache)
  {
  }

  /** The mix-up of `get_ai_profile` as written: on a miss for the AI, the role prompt
      names the user, the AI's profile is cached under the user's name, the AI's name is
      still not cached (so the next run that builds the system prompts misses again), and
      the user-profile prompt that follows in the same run presents the AI's profile as
      the user's. */
  lemma AiProfileAsWrittenMixesUpKeys(cache: map<string, Character>, entities: map<string, Json>,
                                      aiName: string, userName: string)
    requires aiName !in cache && aiName != userName
    requires ProfileOf(Entity(entities, aiName)).Success?
    ensures var profile := ProfileOf(Entity(entities, aiName)).value;
      var l := AiProfileAsWritten(cache, entities, aiName, userName);
      && l.reply == Success(RolePrompt(Character(userName, profile)))
      && aiName !in l.cache
      && l.cache[userName] == Character(userName, profile)
      && UserProfile(l.cache, entities, userName).reply == Success(UserPrompt(Character(userName, profile)))
  {
  }

  /** The corrected `get_ai_profile`: a miss caches the AI's own character under its name,
      touching no other key, and every later call is a hit with the same answer. */
  lemma AiProfileFillsAiKey(cache: map<string, Character>, entities: map<string, Json>, later: map<string, Json>,
                            aiName: string, userName: string)
    requires aiName !in cache
    requires ProfileOf(Entity(entities, aiName)).Success?
    ensures var profile := ProfileOf(Entity(entities, aiName)).value;
      var l := AiProfile(cache, entities, aiName, userName);
      && l.reply == Success(RolePrompt(Character(aiName, profile)))
      && l.cache == cache[aiName := Character(aiName, profile)]
      && AiProfile(l.cache, later, aiName, userName) == l
  {
  }

  /** The two versions differ only on a miss for a name other than the user's. */
  lemma AiProfileAgreesWhenNamesMatch(cache: map<string, Character>, entities: map<string, Json>, name: string)
    ensures AiProfileAsWritten(cache, entities, name, name) == AiProfile(cache, entities, name, name)
  {
  }

  /** After an update, every lookup of that name answers with the updated character,
      until something else overwrites it. */
  lemma UpdateThenRead(cache: map<string, Character>, entities: map<string, Json>, name: string, profile: string,
                       userName: string)
    ensures var c := UpdatedCharacter(name, profile);
      var cache' := cache[name := c];
      && CharacterProfile(cache', entities, name) == Lookup(Success(ModelDumpJson(c)), cache')
      && UserProfile(cache', entities, name) == Lookup(Success(UserPrompt(c)), cache')
      && AiProfile(cache', entities, name, userName) == Lookup(Success(RolePrompt(c)), cache')
  {
  }

  // ---------------------------------------------------------------- the caches

  /** The two maps a character-chat run works on: `cache`, the disk cache, and `entities`,
      the hosted store's `character` entities by name. Each lookup method is specified by
      the function of the same name above: its reply and the new cache are that
      function's `Lookup`, and the store is left as it was. */
  class ProfileStore {
    var cache: map<string, Character>
    var entities: map<string, Json>

    constructor (entities: map<string, Json>)
      ensures this.cache == map[] && this.entities == entities
    {
      this.cache := map[];
      this.entities := entities;
    }

    /** `get_ai_profile` as written. */
    method GetAiProfileAsWritten(aiName: string, userName: string) returns (reply: Result<string, ToolError>)
      modifies this
      ensures Lookup(reply, cache) == AiProfileAsWritten(old(cache), old(entities), aiName, userName)
      ensures entities == old(entities)
    {
      if aiName in cache {
        return Success(RolePrompt(cache[aiName]));
      }
      var profile := ProfileOf(Entity(entities, aiName));
      if profile.Failure? {
        return Failure(profile.error);
      }
      var c := Character(userName, profile.value);
      cache := cache[c.name := c];
      reply := Success(RolePrompt(c));
    }

    /** `get_ai_profile`, with the AI's character built and cached under `ai_name`. */
    method GetAiProfile(aiName: string, userName: string) returns (reply: Result<string, ToolError>)
      modifies this
      ensures Lookup(reply, cache) == AiProfile(old(cache), old(entities), aiName, userName)
      ensures entities == old(entities)
    {
      if aiName in cache {
        return Success(RolePrompt(cache[aiName]));
      }
      var profile := ProfileOf(Entity(entities, aiName));
      if profile.Failure? {
        return Failure(profile.error);
      }
      var c := Character(aiName, profile.value);
      cache := cache[c.name := c];
      reply := Success(RolePrompt(c));
    }

    /** `get_user_profile`. */
    method GetUserProfile(userName: string) returns (reply: Result<string, ToolError>)
      modifies this
      ensures Lookup(reply, cache) == UserProfile(old(cache), old(entities), userName)
      ensures entities == old(entities)
    {
      if userName in cache {
        return Success(UserPrompt(cache[userName]));
      }
      var profile := ProfileOf(Entity(entities, userName));
      if profile.Failure? {
        return Failure(profile.error);
      }
      var c := Character(userName, profile.value);
      cache := cache[userName := c];
      reply := Success(UserPrompt(c));
    }

    /** `get_character_profile`. */
    method GetCharacterProfile(name: string) returns (reply: Result<string, ToolError>)
      modifies this
      ensures Lookup(reply, cache) == CharacterProfile(old(cache), old(entities), name)
      ensures entities == old(entities)
    {
      if name in cache {
        return Success(ModelDumpJson(cache[name]));
      }
      var record := Entity(entities, name);
      var c: Character;
      if record.Some? && Truthy(record.value) {
        var built := FromRecord(record.value);
        if built.Failure? {
          return Failure(built.error);
        }
        c := built.value;
      } else {
        c := Character(name, JObject([]));
      }
      cache := cache[c.name := c];
      reply := Success(ModelDumpJson(c));
    }

    /** `udpate_character_profile`: the store is written first (with the record the store
        keeps for that text, `stored`), then the cache gets the profile text wrapped under
        `"profile"`. */
    method UpdateCharacterProfile(name: string, profile: string, stored: Json) returns (reply: string)
      modifies this
      ensures entities == old(entities)[name := stored]
      ensures cache == old(cache)[name := UpdatedCharacter(name, profile)]
      ensures reply == ProfileUpdated
    {
      entities := entities[name := stored];
      var c := UpdatedCharacter(name, profile);
      cache := cache[c.name := c];
      reply := ProfileUpdated;
    }
  }

  /** The two system prompts of one run with the source's `get_ai_profile`, in the order
      the agent declares them, on a fresh cache. */
  method SystemPromptsAsWritten(entities: map<string, Json>, aiName: string, userName: string)
    returns (role: Result<string, ToolError>, user: Result<string, ToolError>)
    requires aiName != userName
    requires ProfileOf(Entity(entities, aiName)).Success?
    ensures var profile := ProfileOf(Entity(entities, aiName)).value;
      role == Success(RolePrompt(Character(userName, profile)))
      && user == Success(UserPrompt(Character(userName, profile)))
  {
    var store := new ProfileStore(entities);
    role := store.GetAiProfileAsWritten(aiName, userName);
    AiProfileAsWrittenMixesUpKeys(map[], entities, aiName, userName);
    user := store.GetUserProfile(userName);
  }
}
