/** The REST client of the admin console: the bearer token kept in
    localStorage, the request headers, and one operation per endpoint that
    builds the request and unwraps the `{data}` / `{error}` envelope of the
    reply. The network is abstract: each operation is handed the reply the
    server gives. */
module Api {
  import opened Wrappers
  import opened Text
  import UriComponent

  /** The localStorage key the bearer token is kept under. */
  const TokenKey := "admin_token"

  /** The API base URL when VITE_API_URL is not configured. */
  const ApiUrl := "http://localhost:4000/api"

  const ContentType := "Content-Type"
  const Authorization := "Authorization"
  const Json := "application/json"

  /** The browser's localStorage: one string-to-string dictionary per origin. */
  class LocalStorage {
    var items: map<string, string>

    constructor (items: map<string, string>)
      ensures this.items == items
    {
      this.items := items;
    }
  }

  /** What `localStorage.getItem('admin_token')` returns for these items. */
  function StoredToken(items: map<string, string>): Option<string> {
    if TokenKey in items then Some(items[TokenKey]) else None
  }

  method GetToken(store: LocalStorage) returns (token: Option<string>)
    ensures token == StoredToken(store.items)
  {
    token := if TokenKey in store.items then Some(store.items[TokenKey]) else None;
  }

  method SetToken(store: LocalStorage, token: string)
    modifies store
    ensures store.items == old(store.items)[TokenKey := token]
    ensures StoredToken(store.items) == Some(token)
  {
    store.items := store.items[TokenKey := token];
  }

  method ClearToken(store: LocalStorage)
    modifies store
    ensures store.items == old(store.items) - {TokenKey}
    ensures StoredToken(store.items) == None
  {
    store.items := store.items - {TokenKey};
  }

  // ---------------------------------------------------------------------
  // Headers and the Bearer scheme (section 2.1 of RFC 6750).

  function BearerCredentials(token: string): string {
    "Bearer " + token
  }

  /** The characters of RFC 6750's b64token, before its '=' padding. */
  predicate B64TokenChar(c: char) {
    || ('A' <= c <= 'Z') || ('a' <= c <= 'z') || ('0' <= c <= '9')
    || c == '-' || c == '.' || c == '_' || c == '~' || c == '+' || c == '/'
  }

  function WithoutPadding(t: string): string
    decreases |t|
  {
    if t != [] && t[|t| - 1] == '=' then WithoutPadding(t[..|t| - 1]) else t
  }

  /** b64token = 1*( ALPHA / DIGIT / "-" / "." / "_" / "~" / "+" / "/" ) *"=" */
  predicate IsB64Token(t: string) {
    var body := WithoutPadding(t);
    body != [] && forall i :: 0 <= i < |body| ==> B64TokenChar(body[i])
  }

  /** credentials = "Bearer" 1*SP b64token, written with a single space. */
  predicate IsBearerCredentials(h: string) {
    |h| >= 7 && h[..7] == "Bearer " && IsB64Token(h[7..])
  }

  /** The header the client builds is well-formed Bearer credentials exactly
      when the stored token is a b64token; the client itself never checks. */
  lemma BearerWellFormed(token: string)
    ensures IsBearerCredentials(BearerCredentials(token)) <==> IsB64Token(token)
    ensures BearerCredentials(token)[7..] == token
  {
    assert BearerCredentials(token)[..7] == "Bearer ";
    assert BearerCredentials(token)[7..] == token;
  }

  /** What getHeaders(includeAuth) returns for the stored items. */
  ghost predicate HeadersFor(h: map<string, string>, items: map<string, string>, includeAuth: bool) {
    && h.Keys <= {ContentType, Authorization}
    && ContentType in h && h[ContentType] == Json
    && (Authorization in h <==> includeAuth && Truthy(StoredToken(items)))
    && (Authorization in h ==> h[Authorization] == BearerCredentials(StoredToken(items).value))
  }

  /** getHeaders: always JSON; Authorization only when asked for and a
      non-empty token is stored. */
  method GetHeaders(store: LocalStorage, includeAuth: bool) returns (headers: map<string, string>)
    ensures HeadersFor(headers, store.items, includeAuth)
    ensures ContentType in headers && headers[ContentType] == Json
    ensures Authorization in headers <==> includeAuth && Truthy(StoredToken(store.items))
  {
    headers := map[ContentType := Json];
    var token := GetToken(store);
    if includeAuth && Truthy(token) {
      headers := headers[Authorization := BearerCredentials(token.value)];
    }
  }

  // ---------------------------------------------------------------------
  // Requests and replies.

  datatype Verb = GET | POST | PATCH

  datatype Request = Request(verb: Verb, url: string, headers: map<string, string>, body: map<string, string>)

  /** A reply: whether the HTTP status was 2xx, and the `data` and `error`
      members of its JSON body (absent members are None). */
  datatype Envelope<T> = Envelope(ok: bool, data: Option<T>, error: Option<string>)

  datatype Endpoint = LoginEndpoint | MeEndpoint | StatsEndpoint | EnrollmentsEndpoint
                    | EnrollmentEndpoint | UpdateStatusEndpoint | DocumentsEndpoint

  /** The message an endpoint throws when the server sent no usable `error`. */
  function Fallback(e: Endpoint): string {
    match e
    case LoginEndpoint => "Login failed"
    case MeEndpoint => "Unauthorized"
    case StatsEndpoint => "Failed to load stats"
    case EnrollmentsEndpoint => "Failed to load enrollments"
    case EnrollmentEndpoint => "Failed to load enrollment"
    case UpdateStatusEndpoint => "Failed to update status"
    case DocumentsEndpoint => "Failed to load documents"
  }

  /** The envelope rule every endpoint applies: a non-2xx reply fails with
      the server's `error` when it is a non-empty string, else with the
      endpoint's fallback; a 2xx reply yields `data` as it is. The message is
      never empty, so the views, which test `if (error)`, always show it. */
  function Unwrap<T>(e: Endpoint, reply: Envelope<T>): (r: Result<Option<T>, string>)
    ensures r.Success? <==> reply.ok
    ensures r.Success? ==> r.value == reply.data
    ensures r.Failure? && Truthy(reply.error) ==> r.error == reply.error.value
    ensures r.Failure? && !Truthy(reply.error) ==> r.error == Fallback(e)
    ensures r.Failure? ==> r.error != ""
  {
    if !reply.ok then Failure(OrElse(reply.error, Fallback(e))) else Success(reply.data)
  }

  // ---------------------------------------------------------------------
  // Endpoints.

  /** The user object the API returns; missing string members are "". */
  datatype Identity = Identity(uid: string, email: string, name: string, role: string)

  /** `data` of a login reply: the token and the user. */
  datatype LoginData = LoginData(token: string, user: Option<Identity>)

  predicate IsAdmin(data: Option<LoginData>) {
    data.Some? && data.value.user.Some? && data.value.user.value.role == "admin"
  }

  /** api.login after the reply: the envelope rule, then the client-side
      role check, which rejects a 2xx reply whose user is not an admin. */
  function LoginResult(reply: Envelope<LoginData>): (r: Result<LoginData, string>)
    ensures r.Success? <==> reply.ok && IsAdmin(reply.data)
    ensures r.Success? ==> reply.data == Some(r.value) && r.value.user.Some? && r.value.user.value.role == "admin"
    ensures !reply.ok ==> r == Failure(Unwrap(LoginEndpoint, reply).error)
    ensures reply.ok && !IsAdmin(reply.data) ==> r == Failure("Admin access required")
    ensures r.Failure? ==> r.error != ""
  {
    match Unwrap(LoginEndpoint, reply)
    case Failure(m) => Failure(m)
    case Success(d) => if IsAdmin(d) then Success(d.value) else Failure("Admin access required")
  }

  /** POST /auth/login with the credentials and no Authorization header. */
  method Login(store: LocalStorage, username: string, password: string, reply: Envelope<LoginData>)
    returns (req: Request, r: Result<LoginData, string>)
    ensures req.verb == POST && req.url == ApiUrl + "/auth/login"
    ensures req.body == map["username" := username, "password" := password]
    ensures req.headers == map[ContentType := Json]
    ensures Authorization !in req.headers
    ensures r == LoginResult(reply)
  {
    var headers := GetHeaders(store, false);
    assert headers.Keys == {ContentType};
    req := Request(POST, ApiUrl + "/auth/login", headers, map["username" := username, "password" := password]);
    r := LoginResult(reply);
  }

  /** A GET request that carries the stored token. */
  ghost predicate AuthorizedGet(req: Request, items: map<string, string>, url: string) {
    req.verb == GET && req.url == url && req.body == map[] && HeadersFor(req.headers, items, true)
  }

  method GetMe<T>(store: LocalStorage, reply: Envelope<T>) returns (req: Request, r: Result<Option<T>, string>)
    ensures AuthorizedGet(req, store.items, ApiUrl + "/auth/me")
    ensures r == Unwrap(MeEndpoint, reply)
  {
    var headers := GetHeaders(store, true);
    req := Request(GET, ApiUrl + "/auth/me", headers, map[]);
    r := Unwrap(MeEndpoint, reply);
  }

  method GetStats<T>(store: LocalStorage, reply: Envelope<T>) returns (req: Request, r: Result<Option<T>, string>)
    ensures AuthorizedGet(req, store.items, ApiUrl + "/admin/stats")
    ensures r == Unwrap(StatsEndpoint, reply)
  {
    var headers := GetHeaders(store, true);
    req := Request(GET, ApiUrl + "/admin/stats", headers, map[]);
    r := Unwrap(StatsEndpoint, reply);
  }

  const EnrollmentsPath := "/admin/enrollments"

  /** The list URL: `?status=` with the encoded status iff the status is a
      non-empty string. */
  function EnrollmentsUrl(status: Option<string>): string {
    if Truthy(status) then ApiUrl + EnrollmentsPath + "?status=" + UriComponent.Encode(status.value)
    else ApiUrl + EnrollmentsPath
  }

  /** The query value carries the status exactly: it holds no character that
      could end the parameter, and decoding it gives the status back. */
  lemma EnrollmentsQuery(status: Option<string>)
    ensures !Truthy(status) ==> EnrollmentsUrl(status) == ApiUrl + EnrollmentsPath
    ensures Truthy(status) ==>
      var q := UriComponent.Encode(status.value);
      && EnrollmentsUrl(status) == ApiUrl + EnrollmentsPath + "?status=" + q
      && (forall i :: 0 <= i < |q| ==> q[i] != '&' && q[i] != '#' && q[i] != '=' && q[i] != '+' && q[i] != ' ')
      && UriComponent.Decode(q) == Some(status.value)
  {
    if Truthy(status) {
      UriComponent.EncodeRoundTrip(status.value);
    }
  }

  method GetEnrollments<T>(store: LocalStorage, status: Option<string>, reply: Envelope<T>)
    returns (req: Request, r: Result<Option<T>, string>)
    ensures AuthorizedGet(req, store.items, EnrollmentsUrl(status))
    ensures r == Unwrap(EnrollmentsEndpoint, reply)
  {
    var url := EnrollmentsUrl(status);
    var headers := GetHeaders(store, true);
    req := Request(GET, url, headers, map[]);
    r := Unwrap(EnrollmentsEndpoint, reply);
  }

  method GetEnrollment<T>(store: LocalStorage, id: string, reply: Envelope<T>)
    returns (req: Request, r: Result<Option<T>, string>)
    ensures AuthorizedGet(req, store.items, ApiUrl + EnrollmentsPath + "/" + id)
    ensures r == Unwrap(EnrollmentEndpoint, reply)
  {
    var headers := GetHeaders(store, true);
    req := Request(GET, ApiUrl + EnrollmentsPath + "/" + id, headers, map[]);
    r := Unwrap(EnrollmentEndpoint, reply);
  }

  method UpdateEnrollmentStatus<T>(store: LocalStorage, id: string, status: string, reply: Envelope<T>)
    returns (req: Request, r: Result<Option<T>, string>)
    ensures req.verb == PATCH && req.url == ApiUrl + EnrollmentsPath + "/" + id + "/status"
    ensures req.body == map["status" := status]
    ensures HeadersFor(req.headers, store.items, true)
    ensures r == Unwrap(UpdateStatusEndpoint, reply)
  {
    var headers := GetHeaders(store, true);
    req := Request(PATCH, ApiUrl + EnrollmentsPath + "/" + id + "/status", headers, map["status" := status]);
    r := Unwrap(UpdateStatusEndpoint, reply);
  }

  method GetDocuments<T>(store: LocalStorage, userId: string, reply: Envelope<T>)
    returns (req: Request, r: Result<Option<T>, string>)
    ensures AuthorizedGet(req, store.items, ApiUrl + "/admin/documents/" + userId)
    ensures r == Unwrap(DocumentsEndpoint, reply)
  {
    var headers := GetHeaders(store, true);
    req := Request(GET, ApiUrl + "/admin/documents/" + userId, headers, map[]);
    r := Unwrap(DocumentsEndpoint, reply);
  }
}
