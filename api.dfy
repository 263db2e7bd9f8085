/**
 * The frontend's REST client: the requests it sends to the backend, how a reply becomes
 * a value or an error (`handleResponse`), and how an authentication reply becomes a
 * signed-in user (`wrapAuthResponse`). The network itself is outside the model: a reply
 * is an input, given as its `ok` flag and what its JSON body turned out to be.
 */
module Api {
  import opened Wrappers
  import opened Text

  const ApiUrl := "http://localhost:8080/api"

  // ---------------------------------------------------------------- requests

  datatype Verb = Get | Post | Put | Delete

  /** A request as `fetchWithCreds` sends it: cookies are always included, and a JSON body
      goes with the writes. */
  datatype Request = Request(verb: Verb, url: string, credentials: bool, jsonBody: bool)

  function WithCreds(verb: Verb, url: string, jsonBody: bool): (r: Request)
    ensures r.credentials
  {
    Request(verb, url, true, jsonBody)
  }

  function RegisterRequest(): Request { WithCreds(Post, ApiUrl + "/auth/register", true) }
  function LoginRequest(): Request { WithCreds(Post, ApiUrl + "/auth/login", true) }
  function CurrentUserRequest(): Request { WithCreds(Get, ApiUrl + "/auth/me", false) }
  function EventsRequest(userId: int): Request { WithCreds(Get, ApiUrl + "/events?userId=" + IntToString(userId), false) }
  function CreateEventRequest(): Request { WithCreds(Post, ApiUrl + "/events", true) }
  function UpdateEventRequest(id: int): Request { WithCreds(Put, EventUrl(id), true) }
  function DeleteEventRequest(id: int): Request { WithCreds(Delete, EventUrl(id), false) }

  const EventsPrefix := ApiUrl + "/events/"

  /** `${API_URL}/events/${id}`. */
  function EventUrl(id: int): string {
    EventsPrefix + IntToString(id)
  }

  /** Different event ids give different update and delete URLs. */
  lemma EventUrlInjective(a: int, b: int)
    requires EventUrl(a) == EventUrl(b)
    ensures a == b
  {
    var ua, ub := EventUrl(a), EventUrl(b);
    assert ua[|EventsPrefix|..] == IntToString(a);
    assert ub[|EventsPrefix|..] == IntToString(b);
    IntToStringInjective(a, b);
  }

  // ---------------------------------------------------------------- backend routes

  /** A mapping of the backend's event controller: the verb, the controller's base URL
      (`@RequestMapping("/api/events")`) and whether the handler's own mapping adds the
      `/{id}` segment that binds its `@PathVariable Long id`. */
  datatype Mapping = Mapping(verb: Verb, base: string, idSegment: bool)

  const EventsBase := ApiUrl + "/events"

  /** As written, `@PutMapping` and `@DeleteMapping` carry no path of their own. */
  const UpdateMappingAsWritten := Mapping(Put, EventsBase, false)
  const DeleteMappingAsWritten := Mapping(Delete, EventsBase, false)

  /** The evident intent: `@PutMapping("/{id}")` and `@DeleteMapping("/{id}")`. */
  const UpdateMapping := Mapping(Put, EventsBase, true)
  const DeleteMapping := Mapping(Delete, EventsBase, true)

  const LongMin := -0x8000_0000_0000_0000
  const LongMax := 0x7FFF_FFFF_FFFF_FFFF

  /** Converting a path segment to a `Long`, for the decimal forms the client sends: an
      optional sign, at least one digit, and a value within the 64-bit range. */
  function ParseLong(s: string): (r: Option<int>)
    ensures r.Some? ==> LongMin <= r.value <= LongMax
  {
    var v: Option<int> :=
      if s != [] && AllDigits(s) then Some(DigitsValue(s))
      else if |s| >= 2 && (s[0] == '-' || s[0] == '+') && AllDigits(s[1..]) then
        var d: int := DigitsValue(s[1..]);
        Some(if s[0] == '-' then -d else d)
      else None;
    if v.Some? && LongMin <= v.value <= LongMax then v else None
  }

  /** Whether a request's URL matches a mapping's path: the base itself, or, with an `/{id}`
      segment, the base followed by one non-empty segment. */
  predicate MatchesPath(m: Mapping, url: string) {
    if m.idSegment then
      |url| > |m.base| + 1 && url[..|m.base| + 1] == m.base + "/" && '/' !in url[|m.base| + 1..]
    else url == m.base
  }

  /** The id a mapping's handler receives for a request, or None when the request does not
      reach the handler with its `id` bound (no match, or no template to bind it from). */
  function ReachedId(m: Mapping, r: Request): (id: Option<int>)
    ensures id.Some? ==> r.verb == m.verb && MatchesPath(m, r.url) && m.idSegment
  {
    if r.verb == m.verb && m.idSegment && MatchesPath(m, r.url) then ParseLong(r.url[|m.base| + 1..])
    else None
  }

  /** The decimal text of an id is a digit string, possibly after a '-', so it holds no '/'. */
  lemma NoSlashInId(id: int)
    ensures '/' !in IntToString(id)
  {
    var n: nat := if id < 0 then -id else id;
    var t := NatToString(n);
    assert forall k :: 0 <= k < |t| ==> IsDigit(t[k]);
    if id < 0 {
      assert IntToString(id) == "-" + t;
    }
  }

  lemma ParseLongOfDigits(d: string)
    requires d != [] && AllDigits(d)
    ensures ParseLong(d) == (if DigitsValue(d) <= LongMax then Some(DigitsValue(d) as int) else None)
    ensures ParseLong("-" + d) == (if LongMin <= -(DigitsValue(d) as int) then Some(-(DigitsValue(d) as int)) else None)
  {
    var s := "-" + d;
    assert s[1..] == d;
    assert !IsDigit(s[0]);
  }

  /** A printed id converts back to a `Long` exactly when it lies in the 64-bit range. */
  lemma ParseLongOfIntToString(id: int)
    ensures ParseLong(IntToString(id)) == if LongMin <= id <= LongMax then Some(id) else None
  {
    var n: nat := if id < 0 then -id else id;
    DigitsValueOfNatToString(n);
    ParseLongOfDigits(NatToString(n));
  }

  /** As written, the URL the client's `updateEvent` and `deleteEvent` build matches no
      mapping: both mappings stand for the bare `/api/events`, and the id's segment is left
      over. So no update or delete reaches its handler with the event's id. */
  lemma EventRoutesAsWritten(id: int)
    ensures !MatchesPath(UpdateMappingAsWritten, UpdateEventRequest(id).url)
    ensures !MatchesPath(DeleteMappingAsWritten, DeleteEventRequest(id).url)
    ensures ReachedId(UpdateMappingAsWritten, UpdateEventRequest(id)) == None
    ensures ReachedId(DeleteMappingAsWritten, DeleteEventRequest(id)) == None
  {
    assert |EventUrl(id)| > |EventsBase|;
  }

  /** With the `/{id}` segments, an update or a delete reaches its handler with the id the
      client put in the URL, whenever that id is a `Long`. */
  lemma EventRoutesRoundTrip(id: int)
    ensures ReachedId(UpdateMapping, UpdateEventRequest(id)) == if LongMin <= id <= LongMax then Some(id) else None
    ensures ReachedId(DeleteMapping, DeleteEventRequest(id)) == if LongMin <= id <= LongMax then Some(id) else None
  {
    var u := EventUrl(id);
    assert EventsBase + "/" == EventsPrefix;
    assert u[..|EventsPrefix|] == EventsPrefix;
    assert u[|EventsPrefix|..] == IntToString(id);
    NoSlashInId(id);
    ParseLongOfIntToString(id);
  }

  /** `API_URL` with its first "/api" removed. */
  lemma DropApiSuffix(host: string)
    requires 'i' !in host
    ensures ReplaceFirst(host + "/api", "/api", "") == host
  {
    var s := host + "/api";
    forall j | 0 <= j < |host|
      ensures !OccursAt(s, "/api", j)
    {
      assert s[j + 3] != 'i';
      assert s[j..j + 4][3] == s[j + 3];
    }
    assert OccursAt(s, "/api", |host|);
  }

  /** `getGoogleOAuthUrl`, for the configured API URL. */
  function GoogleOAuthUrl(apiUrl: string): string {
    ReplaceFirst(apiUrl, "/api", "") + "/oauth2/authorization/google"
  }

  /** For an API URL `<host>/api`, the Google sign-in link is the backend's own OAuth
      entry point `<host>/oauth2/authorization/google`, outside `/api`. */
  lemma GoogleOAuthUrlValue(apiUrl: string, host: string)
    requires apiUrl == host + "/api" && 'i' !in host
    ensures GoogleOAuthUrl(apiUrl) == host + "/oauth2/authorization/google"
  {
    DropApiSuffix(host);
  }

  /** The configured `API_URL` is such a URL, on `http://localhost:8080`. */
  lemma ConfiguredApiUrl()
    ensures ApiUrl == "http://localhost:8080" + "/api" && 'i' !in "http://localhost:8080"
  {
  }

  // ---------------------------------------------------------------- replies

  /** What `response.json()` gave: nothing readable, or an object whose `message` field
      and whose value as the expected type are given. */
  datatype Body<T> = Unreadable | Readable(message: Option<string>, value: T)

  /** How a call fails: an `Error` carrying a message, or the JSON parse error of a
      successful reply with an unreadable body. */
  datatype ApiError = Thrown(message: string) | InvalidJson

  /** `value || fallback` for an optional text. */
  function OrElse(value: Option<string>, fallback: string): (r: string)
    ensures value.Some? && value.value != "" ==> r == value.value
    ensures value.None? || value.value == "" ==> r == fallback
  {
    if value.Some? && value.value != "" then value.value else fallback
  }

  /** `handleResponse`. */
  function HandleResponse<T>(ok: bool, body: Body<T>): (r: Result<T, ApiError>)
    ensures r.Success? <==> ok && body.Readable?
    ensures r.Success? ==> r.value == body.value
    ensures !ok ==> r.Failure? && r.error.Thrown? && r.error.message != ""
    ensures !ok && body.Readable? && body.message.Some? && body.message.value != "" ==>
      r == Failure(Thrown(body.message.value))
    ensures !ok && (body.Unreadable? || body.message.None? || body.message.value == "") ==>
      r == Failure(Thrown("Request failed"))
  {
    if !ok then
      match body
      case Unreadable => Failure(Thrown("Request failed"))
      case Readable(message, _) => Failure(Thrown(OrElse(message, "Request failed")))
    else
      match body
      case Unreadable => Failure(InvalidJson)
      case Readable(_, value) => Success(value)
  }

  // ---------------------------------------------------------------- authentication

  datatype Provider = Local | Google

  datatype User = User(id: int, email: string, displayName: Option<string>, avatarUrl: Option<string>,
                       authProvider: Provider)

  /** The backend's authentication reply; every field may be missing. */
  datatype AuthResponse = AuthResponse(id: Option<int>, email: Option<string>, displayName: Option<string>,
                                       avatarUrl: Option<string>, message: Option<string>)

  datatype LoginResponse = LoginResponse(user: User, message: Option<string>)

  /** `wrapAuthResponse`: a reply without a (non-zero) id or without a (non-empty) email is
      a failure carrying the reply's message, else the user it describes. */
  function WrapAuthResponse(res: AuthResponse, provider: Provider): (r: Result<LoginResponse, ApiError>)
    ensures r.Success? <==> res.id.Some? && res.id.value != 0 && res.email.Some? && res.email.value != ""
    ensures r.Success? ==> r.value.user == User(res.id.value, res.email.value, res.displayName, res.avatarUrl, provider)
                           && r.value.message == res.message
    ensures r.Failure? ==> r.error == Thrown(OrElse(res.message, "Login failed"))
  {
    if res.id.None? || res.id.value == 0 || res.email.None? || res.email.value == "" then
      Failure(Thrown(OrElse(res.message, "Login failed")))
    else
      Success(LoginResponse(User(res.id.value, res.email.value, res.displayName, res.avatarUrl, provider), res.message))
  }

  /** The reply the backend sends for a user. */
  function ResponseFor(u: User, message: Option<string>): AuthResponse {
    AuthResponse(Some(u.id), Some(u.email), u.displayName, u.avatarUrl, message)
  }

  /** A reply describing a user with an id and an email signs that very user in. */
  lemma WrapRoundTrip(u: User, message: Option<string>)
    requires u.id != 0 && u.email != ""
    ensures WrapAuthResponse(ResponseFor(u, message), u.authProvider) == Success(LoginResponse(u, message))
  {
  }

  /** A reply that only carries a message, as the backend's refusals do, surfaces that
      message as the error. */
  lemma RefusalMessage(message: string, provider: Provider)
    requires message != ""
    ensures WrapAuthResponse(AuthResponse(None, None, None, None, Some(message)), provider) == Failure(Thrown(message))
  {
  }

  /** An authentication call: the reply handled, then wrapped. */
  function AuthCall(ok: bool, body: Body<AuthResponse>, provider: Provider): (r: Result<LoginResponse, ApiError>)
    ensures r.Success? ==> ok && body.Readable? && r == WrapAuthResponse(body.value, provider)
    ensures r.Success? ==> r.value.user.authProvider == provider
    ensures ok && body.Readable? ==> r == WrapAuthResponse(body.value, provider)
    ensures !(ok && body.Readable?) ==> r == Failure(HandleResponse(ok, body).error)
  {
    var handled := HandleResponse(ok, body);
    if handled.Failure? then Failure(handled.error) else WrapAuthResponse(handled.value, provider)
  }

  /** `register` and `login` sign in with a local account. */
  function Register(ok: bool, body: Body<AuthResponse>): (r: Result<LoginResponse, ApiError>)
    ensures r.Success? ==> r.value.user.authProvider == Local
  {
    AuthCall(ok, body, Local)
  }

  function Login(ok: bool, body: Body<AuthResponse>): (r: Result<LoginResponse, ApiError>)
    ensures r.Success? ==> r.value.user.authProvider == Local
  {
    AuthCall(ok, body, Local)
  }

  /** `getCurrentUser` is only reached after the Google redirect, so it reports Google. */
  function GetCurrentUser(ok: bool, body: Body<AuthResponse>): (r: Result<LoginResponse, ApiError>)
    ensures r.Success? ==> r.value.user.authProvider == Google
  {
    AuthCall(ok, body, Google)
  }

  /** A refused login (HTTP error) never signs anyone in, and reports the server's message
      when there is one. */
  lemma RefusedLogin(message: Option<string>, value: AuthResponse)
    ensures Login(false, Readable(message, value)) == Failure(Thrown(OrElse(message, "Request failed")))
    ensures Login(false, Unreadable) == Failure(Thrown("Request failed"))
  {
  }
}
