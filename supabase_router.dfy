/**
  The authentication router: parsing of the `Authorization: Bearer <token>` header
  (section 2.1 of RFC 6750), and the process-wide cache that maps an access token to the
  `SupabaseManager` signed in with it, filled by sign-in and refresh and emptied by
  sign-out.
 */
module SupabaseRouter {
  import opened Results
  import opened Http
  import opened Json
  import opened Backend

  const BearerPrefix: string := "Bearer "

  const MalformedHeader := HttpError(401, "Authorization header missing or invalid")
  const UnknownToken := HttpError(401, "Invalid or expired token")

  predicate StartsWith(s: string, prefix: string) {
    |prefix| <= |s| && s[..|prefix|] == prefix
  }

  /** `sep` occurs in `s` starting at index `i`. */
  predicate OccursAt(s: string, sep: string, i: nat) {
    i + |sep| <= |s| && s[i..i + |sep|] == sep
  }

  ghost predicate Contains(s: string, sep: string) {
    exists i: nat :: OccursAt(s, sep, i)
  }

  lemma OccursAtShift(s: string, sep: string, i: nat)
    requires s != []
    ensures OccursAt(s[1..], sep, i) <==> OccursAt(s, sep, i + 1)
  {
    if i + |sep| <= |s[1..]| {
      assert s[1..][i..i + |sep|] == s[i + 1..i + 1 + |sep|];
    }
  }

  /** `s.find(sep)`: the first index where `sep` occurs. */
  function IndexOf(s: string, sep: string): (r: Option<nat>)
    requires |sep| > 0
    ensures r.Some? ==> OccursAt(s, sep, r.value) && forall j: nat :: j < r.value ==> !OccursAt(s, sep, j)
    ensures r.None? ==> !Contains(s, sep)
  {
    if |s| < |sep| then None
    else if s[..|sep|] == sep then Some(0)
    else
      var r := IndexOf(s[1..], sep);
      assert forall i: nat :: 1 <= i ==> (OccursAt(s, sep, i) <==> OccursAt(s[1..], sep, i - 1)) by {
        forall i: nat | 1 <= i ensures OccursAt(s, sep, i) <==> OccursAt(s[1..], sep, i - 1) {
          OccursAtShift(s, sep, i - 1);
        }
      }
      assert !OccursAt(s, sep, 0);
      match r
      case None => None
      case Some(k) => Some(k + 1)
  }

  /** Python's `s.split(sep)`: the pieces between non-overlapping occurrences of `sep`,
      found left to right. */
  function Split(s: string, sep: string): (parts: seq<string>)
    requires |sep| > 0
    ensures |parts| >= 1
    ensures IndexOf(s, sep).Some? ==> |parts| >= 2
    decreases |s|
  {
    match IndexOf(s, sep)
    case None => [s]
    case Some(i) => [s[..i]] + Split(s[i + |sep|..], sep)
  }

  /** `sep.join(parts)`: the reference inverse of `Split`. */
  function Join(parts: seq<string>, sep: string): string
    requires |parts| >= 1
  {
    if |parts| == 1 then parts[0] else parts[0] + sep + Join(parts[1..], sep)
  }

  /** Splitting loses nothing: joining the pieces gives the text back. */
  lemma {:induction false} JoinSplit(s: string, sep: string)
    requires |sep| > 0
    ensures Join(Split(s, sep), sep) == s
    decreases |s|
  {
    match IndexOf(s, sep)
    case None =>
    case Some(i) =>
      JoinSplit(s[i + |sep|..], sep);
      assert s == s[..i] + sep + s[i + |sep|..];
  }

  /** A prefix that ends before the first occurrence of `sep` holds no occurrence of it. */
  lemma PrefixBeforeFirstOccurrence(s: string, sep: string, i: nat)
    requires |sep| > 0 && i <= |s|
    requires forall j: nat :: j < i ==> !OccursAt(s, sep, j)
    ensures !Contains(s[..i], sep)
  {
    forall j: nat | OccursAt(s[..i], sep, j) ensures false {
      assert s[..i][j..j + |sep|] == s[j..j + |sep|];
      assert OccursAt(s, sep, j);
    }
  }

  /** No piece of a split holds the separator. */
  lemma {:induction false} SplitPiecesFree(s: string, sep: string)
    requires |sep| > 0
    ensures forall k :: 0 <= k < |Split(s, sep)| ==> !Contains(Split(s, sep)[k], sep)
    decreases |s|
  {
    match IndexOf(s, sep)
    case None =>
    case Some(i) =>
      PrefixBeforeFirstOccurrence(s, sep, i);
      SplitPiecesFree(s[i + |sep|..], sep);
  }

  /** `get_access_token`: the header must start with `"Bearer "`; the token is
      `authorization.split("Bearer ")[1]`, the text after the prefix up to the next
      `"Bearer "`, if any. */
  function GetAccessToken(authorization: string): (r: Result<string, HttpError>)
    ensures r.Failure? <==> !StartsWith(authorization, BearerPrefix)
    ensures r.Failure? ==> r.error == MalformedHeader
    ensures r.Success? ==>
      && StartsWith(authorization, BearerPrefix + r.value)
      && !Contains(r.value, BearerPrefix)
      && (|authorization| == |BearerPrefix + r.value|
          || OccursAt(authorization, BearerPrefix, |BearerPrefix + r.value|))
  {
    if !StartsWith(authorization, BearerPrefix) then Failure(MalformedHeader)
    else
      assert OccursAt(authorization, BearerPrefix, 0);
      var rest := authorization[|BearerPrefix|..];
      assert Split(authorization, BearerPrefix) == [""] + Split(rest, BearerPrefix);
      var token := Split(rest, BearerPrefix)[0];
      SplitPiecesFree(rest, BearerPrefix);
      assert token == Split(authorization, BearerPrefix)[1];
      assert authorization == BearerPrefix + rest;
      match IndexOf(rest, BearerPrefix)
      case None =>
        Success(token)
      case Some(i) =>
        assert rest[i..i + |BearerPrefix|] == authorization[|BearerPrefix| + i..|BearerPrefix| + i + |BearerPrefix|];
        Success(token)
  }

  /** A well-formed header round-trips: the token a client puts after `"Bearer "` is the
      token the server reads, as long as it does not itself hold `"Bearer "`. */
  lemma BearerRoundTrip(token: string)
    requires !Contains(token, BearerPrefix)
    ensures GetAccessToken(BearerPrefix + token) == Success(token)
  {
    var r := GetAccessToken(BearerPrefix + token);
    assert StartsWith(BearerPrefix + token, BearerPrefix);
    assert (BearerPrefix + token)[..|BearerPrefix + r.value|][|BearerPrefix|..] == r.value;
    assert token[..|r.value|] == r.value;
  }

  /**
    The module-level state of the router: the lazily created development manager
    (`supabase`) and `supabase_manager_cache`. `created` counts the `SupabaseManager`
    instances made so far, which gives each a distinct identity.
   */
  class Sessions {
    var supabase: Option<Manager>
    var cache: map<string, Manager>
    var created: nat

    /** Every cached manager is signed in, and every manager is one this state created. */
    ghost predicate Valid()
      reads this
    {
      && (forall t :: t in cache ==> cache[t].handle < created && cache[t].userId.Some?)
      && (supabase.Some? ==> supabase.value.handle < created)
    }

    constructor ()
      ensures Valid() && supabase == None && cache == map[] && created == 0
    {
      supabase := None;
      cache := map[];
      created := 0;
    }

    /** `SupabaseManager()`: a new instance, not yet signed in. */
    method NewManager() returns (m: Manager)
      modifies this`created
      ensures m == Manager(old(created), None) && created == old(created) + 1
    {
      m := Manager(created, None);
      created := created + 1;
    }

    /** `get_supabase_dev`: the first call creates the development manager and signs it in
        with the configured credentials; every later call returns that same manager and
        signs in nothing. The global is assigned before the sign-in, so a failed sign-in
        still leaves it set, to a manager with no session. */
    method GetSupabaseDev(auth: HostedAuth, email: string, password: string) returns (r: Result<Manager, HttpError>)
      requires Valid()
      modifies this
      ensures Valid() && cache == old(cache)
      ensures old(supabase).Some? ==> r == Success(old(supabase).value) && supabase == old(supabase) && created == old(created)
      ensures old(supabase).None? ==> created == old(created) + 1 && supabase.Some? && supabase.value.handle == old(created)
      ensures old(supabase).None? ==> match SignInWithPassword(auth, email, password)
        case Success(tokens) => supabase.value.userId == Some(tokens.userId) && r == Success(supabase.value)
        case Failure(e) => supabase.value.userId == None && r == Failure(e)
    {
      if supabase.None? {
        var m := NewManager();
        supabase := Some(m);
        match SignInWithPassword(auth, email, password)
        case Success(tokens) =>
          supabase := Some(Manager(m.handle, Some(tokens.userId)));
        case Failure(e) =>
          r := Failure(e);
          return;
      }
      r := Success(supabase.value);
    }

    /** `get_supabase`: the manager cached under the token, or 401. */
    method GetSupabase(accessToken: string) returns (r: Result<Manager, HttpError>)
      ensures accessToken in cache ==> r == Success(cache[accessToken])
      ensures accessToken !in cache ==> r == Failure(UnknownToken)
    {
      if accessToken in cache {
        r := Success(cache[accessToken]);
      } else {
        r := Failure(UnknownToken);
      }
    }

    /** `get_supabase_wb`: the same lookup, on the raw `Authorization` header value of a
        WebSocket handshake, which may be missing. The header is not parsed, so it finds
        a manager only when the header holds the bare token. */
    method GetSupabaseWb(accessToken: Option<string>) returns (r: Result<Manager, HttpError>)
      ensures accessToken.Some? && accessToken.value in cache ==> r == Success(cache[accessToken.value])
      ensures accessToken.None? || accessToken.value !in cache ==> r == Failure(UnknownToken)
    {
      if accessToken.Some? && accessToken.value in cache {
        r := Success(cache[accessToken.value]);
      } else {
        r := Failure(UnknownToken);
      }
    }

    /** `Depends(get_supabase)`: the header is parsed, then the token looked up. */
    method Authenticate(authorization: string) returns (r: Result<Manager, HttpError>)
      ensures !StartsWith(authorization, BearerPrefix) ==> r == Failure(MalformedHeader)
      ensures StartsWith(authorization, BearerPrefix) ==>
        var token := GetAccessToken(authorization).value;
        r == if token in cache then Success(cache[token]) else Failure(UnknownToken)
    {
      match GetAccessToken(authorization)
      case Failure(e) =>
        r := Failure(e);
      case Success(token) =>
        r := GetSupabase(token);
    }

    /** `signin`: a new manager signs in; on success it is cached under the new access
        token, the token is returned and the refresh token set as a cookie. A failed
        sign-in raises 401 and leaves the cache as it was. */
    method SignIn(auth: HostedAuth, email: string, password: string) returns (r: Result<Response, HttpError>)
      requires Valid()
      modifies this
      ensures Valid() && supabase == old(supabase) && created == old(created) + 1
      ensures match SignInWithPassword(auth, email, password)
        case Failure(e) => r == Failure(e) && cache == old(cache)
        case Success(tokens) =>
          && cache == old(cache)[tokens.accessToken := Manager(old(created), Some(tokens.userId))]
          && r == Success(Response(JObject([("access_token", JStr(tokens.accessToken))]), SetCookie(tokens.refreshToken)))
    {
      var m := NewManager();
      match SignInWithPassword(auth, email, password)
      case Failure(e) =>
        r := Failure(e);
      case Success(tokens) =>
        cache := cache[tokens.accessToken := Manager(m.handle, Some(tokens.userId))];
        r := Success(Response(JObject([("access_token", JStr(tokens.accessToken))]), SetCookie(tokens.refreshToken)));
    }

    /** `refresh`: a new manager takes over the session of the refresh token and is cached
        under the new access token. Nothing is removed: the entry of the access token it
        supersedes stays. The rotated refresh token is not sent back as a cookie. */
    method Refresh(auth: HostedAuth, refreshToken: string) returns (r: Result<Response, HttpError>)
      requires Valid()
      modifies this
      ensures Valid() && supabase == old(supabase) && created == old(created) + 1
      ensures match RefreshAccessToken(auth, refreshToken)
        case Failure(e) => r == Failure(e) && cache == old(cache)
        case Success(tokens) =>
          && cache == old(cache)[tokens.accessToken := Manager(old(created), Some(tokens.userId))]
          && r == Success(Response(JObject([("access_token", JStr(tokens.accessToken))]), KeepCookie))
    {
      var m := NewManager();
      match RefreshAccessToken(auth, refreshToken)
      case Failure(e) =>
        r := Failure(e);
      case Success(tokens) =>
        cache := cache[tokens.accessToken := Manager(m.handle, Some(tokens.userId))];
        r := Success(Response(JObject([("access_token", JStr(tokens.accessToken))]), KeepCookie));
    }

    /** `signout`: the header's token must be cached; the manager's hosted session is ended
        and exactly that entry is removed, and the refresh cookie deleted. An uncached
        token raises 401 at the lookup; a failure of the hosted sign-out is not an
        `HTTPException` and surfaces as 500. Neither touches the cache. */
    method SignOut(auth: HostedAuth, authorization: string) returns (r: Result<Response, HttpError>)
      requires Valid()
      modifies this
      ensures Valid() && supabase == old(supabase) && created == old(created)
      ensures match GetAccessToken(authorization)
        case Failure(e) => r == Failure(e) && cache == old(cache)
        case Success(token) =>
          if token !in old(cache) then r == Failure(UnknownToken) && cache == old(cache)
          else if auth.signOut(token).Some? then r == Failure(InternalServerError) && cache == old(cache)
          else (r == Success(Response(JObject([("message", JStr("Sign out"))]), DeleteCookie))
                && cache == old(cache) - {token})
    {
      match GetAccessToken(authorization)
      case Failure(e) =>
        r := Failure(e);
      case Success(token) =>
        var found := GetSupabase(token);
        if found.Failure? {
          r := Failure(found.error);
          return;
        }
        if auth.signOut(token).Some? {
          r := Failure(InternalServerError);
          return;
        }
        cache := cache - {token};
        r := Success(Response(JObject([("message", JStr("Sign out"))]), DeleteCookie));
    }
  }

  /** A client of the router: after a sign-in that yields token `t` and a sign-out with
      `Bearer t`, the token no longer authenticates. */
  method SignInThenSignOut(s: Sessions, auth: HostedAuth, email: string, password: string)
    returns (after: Result<Manager, HttpError>)
    requires s.Valid()
    requires auth.signIn(email, password).Success?
    requires !Contains(auth.signIn(email, password).value.accessToken, BearerPrefix)
    requires auth.signOut(auth.signIn(email, password).value.accessToken).None?
    modifies s
    ensures after == Failure(UnknownToken)
  {
    var token := auth.signIn(email, password).value.accessToken;
    var signedIn := s.SignIn(auth, email, password);
    var before := s.GetSupabase(token);
    assert before.Success?;
    BearerRoundTrip(token);
    var signedOut := s.SignOut(auth, BearerPrefix + token);
    assert signedOut.Success?;
    after := s.GetSupabase(token);
  }

  /** A client of the router: a refresh leaves the superseded access token usable. */
  method RefreshKeepsOldToken(s: Sessions, auth: HostedAuth, oldToken: string, refreshToken: string)
    returns (stillThere: Result<Manager, HttpError>)
    requires s.Valid() && oldToken in s.cache
    requires auth.refresh(refreshToken).Success?
    requires auth.refresh(refreshToken).value.accessToken != oldToken
    modifies s
    ensures stillThere == Success(old(s.cache[oldToken]))
  {
    var refreshed := s.Refresh(auth, refreshToken);
    stillThere := s.GetSupabase(oldToken);
  }

  /** A client of the router: the development manager is signed in at most once; a second
      call returns the first call's manager whatever the hosted service would answer now. */
  method DevSignsInOnce(s: Sessions, first: HostedAuth, second: HostedAuth, email: string, password: string)
    returns (a: Result<Manager, HttpError>, b: Result<Manager, HttpError>)
    requires s.Valid() && s.supabase.None?
    requires first.signIn(email, password).Success?
    modifies s
    ensures a.Success? && b == a
  {
    a := s.GetSupabaseDev(first, email, password);
    b := s.GetSupabaseDev(second, email, password);
  }
}
