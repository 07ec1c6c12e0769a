/**
 * The request guard of `app/core/authentication.py`: resolving the signed-in
 * user from the session (clearing a stale or unusable `user_id`) and the
 * decision `require_user` makes for a request without a user — pass, redirect
 * to `/setup` or `/login`, or answer 401.
 */
module Authentication {

  import opened Common
  import opened Text
  import opened Identity
  import Utils

  // ----- the session ----------------------------------------------------

  const UserIdKey := "user_id"

  /**
   * The id the session's value stands for: an int as it is (a bool counts as
   * one), else what `int(value)` gives; `None`, lists and dicts raise
   * `TypeError` and a non-numeral string `ValueError`, which both mean no id.
   */
  function CoerceUserId(v: Value): (r: Option<int>)
    ensures v.IntValue? ==> r == Some(v.i)
    ensures v.NullValue? || v.ListValue? || v.DictValue? ==> r.None?
    ensures v.StrValue? ==> r == ParseInt(v.s)
  {
    match v
    case IntValue(i) => Some(i)
    case BoolValue(b) => Some(if b then 1 else 0)
    case FloatValue(x) => Some(Utils.Truncate(x))
    case StrValue(s) => ParseInt(s)
    case _ => None
  }

  /** The user the session names, if its `user_id` coerces to the id of a stored user. */
  function SessionUser(entries: map<string, Value>, users: seq<User>): (r: Option<User>)
    ensures r.Some? ==> (r.value in users && UserIdKey in entries
      && CoerceUserId(entries[UserIdKey]) == Some(r.value.id))
  {
    if UserIdKey !in entries then None
    else
      var id := CoerceUserId(entries[UserIdKey]);
      if id.None? then None
      else
        var k := FindById(users, id.value);
        if k.None? then None else Some(users[k.value])
  }

  /**
   * The session after `get_auth_context`: a `user_id` that names no user
   * is removed, unless it is `None` (which is neither an int nor "not None").
   */
  function CleanSession(entries: map<string, Value>, users: seq<User>): (r: map<string, Value>)
    ensures r.Keys <= entries.Keys
    ensures forall key :: key in r ==> r[key] == entries[key]
    ensures forall key :: key in entries && key != UserIdKey ==> key in r
    ensures UserIdKey in r <==> (UserIdKey in entries
      && (SessionUser(entries, users).Some? || entries[UserIdKey].NullValue?))
  {
    if UserIdKey !in entries then entries
    else if SessionUser(entries, users).Some? then entries
    else if entries[UserIdKey].NullValue? then entries
    else entries - {UserIdKey}
  }

  /** After cleaning, the session either holds no usable id or names an existing user. */
  lemma CleanSessionLeavesNoStaleId(entries: map<string, Value>, users: seq<User>)
    ensures var cleaned := CleanSession(entries, users);
      UserIdKey in cleaned && CoerceUserId(cleaned[UserIdKey]).Some? ==>
        FindById(users, CoerceUserId(cleaned[UserIdKey]).value).Some?
  {
    var cleaned := CleanSession(entries, users);
    if UserIdKey in cleaned && CoerceUserId(cleaned[UserIdKey]).Some? {
      assert cleaned[UserIdKey] == entries[UserIdKey];
    }
  }

  /** Cleaning a cleaned session changes nothing, and the resolved user stays the same. */
  lemma CleanSessionIdempotent(entries: map<string, Value>, users: seq<User>)
    ensures CleanSession(CleanSession(entries, users), users) == CleanSession(entries, users)
    ensures SessionUser(CleanSession(entries, users), users) == SessionUser(entries, users)
  {
  }

  /** What a request learns about authentication. */
  datatype AuthContext = AuthContext(user: Option<User>, needsSetup: bool)

  /** The request's session (Starlette stores it as a JSON object in a signed cookie). */
  class RequestSession {
    var entries: map<string, Value>

    constructor (entries: map<string, Value>)
      ensures this.entries == entries
    {
      this.entries := entries;
    }
  }

  /**
   * `get_auth_context(request, db)`: the session's user, and whether setup
   * is still needed (no user exists); a stale `user_id` is popped.
   */
  method GetAuthContext(session: RequestSession, users: seq<User>) returns (context: AuthContext)
    modifies session
    ensures context.user == SessionUser(old(session.entries), users)
    ensures context.needsSetup <==> users == []
    ensures session.entries == CleanSession(old(session.entries), users)
  {
    var user: Option<User> := None;
    var resolved: Option<int> := None;
    if UserIdKey in session.entries {
      resolved := CoerceUserId(session.entries[UserIdKey]);
    }
    if resolved.Some? {
      var k := FindById(users, resolved.value);
      if k.Some? {
        user := Some(users[k.value]);
      } else {
        session.entries := session.entries - {UserIdKey};
      }
    } else if UserIdKey in session.entries && !session.entries[UserIdKey].NullValue? {
      session.entries := session.entries - {UserIdKey};
    }
    context := AuthContext(user, |users| == 0);
  }

  // ----- require_user ---------------------------------------------------

  /** An incoming request; header names are lower case, as Starlette looks them up. */
  datatype Request = Request(path: string, httpMethod: string, headers: map<string, string>)

  /** A header's value, "" when it is absent. */
  function Header(request: Request, name: string): string
  {
    if name in request.headers then request.headers[name] else ""
  }

  predicate IsGet(request: Request) { Upper(request.httpMethod) == "GET" }

  /**
   * `_is_api_like_request`: an `/api` path, JSON accepted or sent, an htmx
   * request, an XMLHttpRequest, or a non-GET that does not accept HTML.
   */
  predicate IsApiLike(request: Request)
  {
    var accept := Lower(Header(request, "accept"));
    var contentType := Lower(Header(request, "content-type"));
    || StartsWith(request.path, "/api")
    || Contains(accept, "application/json")
    || Contains(contentType, "application/json")
    || Lower(Header(request, "hx-request")) == "true"
    || Lower(Header(request, "x-requested-with")) == "xmlhttprequest"
    || (!IsGet(request) && !Contains(accept, "text/html"))
  }

  predicate IsLoginPath(path: string) { path == "/login" || path == "/login/register" }

  /** The `HTTPException` `require_user` raises. */
  datatype Denial = Redirect(status: int, location: string) | Unauthorized(detail: string)

  /** 302 for a GET, 303 (see other) for anything else. */
  function RedirectStatus(request: Request): (status: int)
    ensures status == 302 <==> IsGet(request)
    ensures status == 302 || status == 303
  {
    if !IsGet(request) then 303 else 302
  }

  /** `require_user(request, context)`. */
  function RequireUser(request: Request, context: AuthContext): (r: Result<User, Denial>)
    ensures r.Ok? <==> context.user.Some?
    ensures r.Ok? ==> r.value == context.user.value
    ensures r.Err? && r.error.Redirect? ==>
      && r.error.status == RedirectStatus(request)
      && (r.error.location == "/setup" || r.error.location == "/login")
      && r.error.location != request.path
    ensures r.Err? && r.error.Unauthorized? ==> r.error.detail == "Authentication required."
  {
    if context.user.Some? then Ok(context.user.value)
    else if context.needsSetup && request.path != "/setup" then Err(Redirect(RedirectStatus(request), "/setup"))
    else if IsApiLike(request) then Err(Unauthorized("Authentication required."))
    else if !IsLoginPath(request.path) then Err(Redirect(RedirectStatus(request), "/login"))
    else Err(Unauthorized("Authentication required."))
  }

  /** While setup is pending, every anonymous request outside `/setup` is sent there, API or not. */
  lemma SetupComesFirst(request: Request, context: AuthContext)
    requires context.user.None?
    ensures RequireUser(request, context).Err? && RequireUser(request, context).error.Redirect?
      && RequireUser(request, context).error.location == "/setup"
      <==> context.needsSetup && request.path != "/setup"
  {
  }

  /** Once set up, an API-like anonymous request gets 401 and is never redirected. */
  lemma ApiRequestsGetUnauthorized(request: Request, context: AuthContext)
    requires context.user.None? && !context.needsSetup
    ensures RequireUser(request, context).Err? && RequireUser(request, context).error.Unauthorized?
      <==> IsApiLike(request) || IsLoginPath(request.path)
  {
  }

  /** The login pages themselves are never redirected to `/login`. */
  lemma LoginPagesDoNotLoop(request: Request, context: AuthContext)
    requires IsLoginPath(request.path)
    ensures RequireUser(request, context) != Err(Redirect(RedirectStatus(request), "/login"))
  {
  }

  /** A request under `/api` is never redirected to the login page. */
  lemma ApiPathIsApiLike(request: Request)
    requires StartsWith(request.path, "/api")
    ensures IsApiLike(request)
  {
  }

  /** A plain browser GET of a page, signed out after setup, is redirected to `/login` with 302. */
  lemma BrowserGetRedirectsToLogin(path: string, context: AuthContext)
    requires context.user.None? && !context.needsSetup
    requires !StartsWith(path, "/api") && !IsLoginPath(path)
    ensures RequireUser(Request(path, "GET", map["accept" := "text/html"]), context) == Err(Redirect(302, "/login"))
  {
    var request := Request(path, "GET", map["accept" := "text/html"]);
    BrowserGetNotApiLike(request);
    assert IsGet(request);
  }

  lemma BrowserGetNotApiLike(request: Request)
    requires !StartsWith(request.path, "/api")
    requires request.httpMethod == "GET" && request.headers == map["accept" := "text/html"]
    ensures !IsApiLike(request) && IsGet(request)
  {
    BrowserGetHeaders(request);
    NoCapitals("text/html");
    UpperGet();
    HtmlIsNotJson();
  }

  lemma BrowserGetHeaders(request: Request)
    requires request.headers == map["accept" := "text/html"]
    ensures Header(request, "accept") == "text/html"
    ensures Header(request, "content-type") == "" && Header(request, "hx-request") == ""
    ensures Header(request, "x-requested-with") == ""
  {
  }

  lemma UpperGet()
    ensures Upper("GET") == "GET"
  {
  }

  lemma HtmlIsNotJson()
    ensures !Contains("text/html", "application/json") && !Contains("", "application/json")
    ensures Contains("text/html", "text/html")
  {
    ContainsAt("text/html", "text/html", 0);
  }

  /** A string without ASCII capitals is its own lower case. */
  lemma NoCapitals(s: string)
    requires forall i :: 0 <= i < |s| ==> !IsUpperAscii(s[i])
    ensures Lower(s) == s
  {
  }
}
