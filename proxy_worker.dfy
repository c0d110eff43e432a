/** The edge worker that fetches feeds for the crawler: `POST /rss-proxy`
    forwards an arbitrary request described by a JSON body, and
    `GET /request.get` fetches a url with a fixed set of request headers.
    Both are guarded by a shared token. The outbound `fetch` is a parameter
    of the model. */
module ProxyWorker {
  import opened Wrappers
  import opened Text

  /** The JavaScript values the worker inspects. */
  datatype JsValue =
    | Null
    | Undefined
    | Bool(b: bool)
    | Num(n: int)
    | Str(s: string)
    | Obj(fields: map<string, JsValue>)

  /** `isBlank(x)`: `null`, `undefined` or the empty text, compared with `===`. */
  predicate IsBlank(x: JsValue) {
    x == Null || x == Undefined || x == Str("")
  }

  /** JavaScript truthiness, as used by `a || b`. */
  predicate Truthy(x: JsValue) {
    !(x == Null || x == Undefined || x == Bool(false) || x == Num(0) || x == Str(""))
  }

  /** `a || b`. */
  function Or(a: JsValue, b: JsValue): (r: JsValue)
    ensures Truthy(a) ==> r == a
    ensures !Truthy(a) ==> r == b
  {
    if Truthy(a) then a else b
  }

  const DefaultToken := "rss-proxy"

  /** `getEnvToken()`: the `TOKEN` variable, `'rss-proxy'` when it is not
      defined. */
  function EnvToken(env: Option<string>): (r: string)
    ensures env.None? ==> r == DefaultToken
    ensures env.Some? ==> r == env.value
  {
    match env
    case None => DefaultToken
    case Some(t) => t
  }

  /** `isValidToeken(token)`. */
  predicate IsValidToken(token: JsValue, env: Option<string>) {
    !IsBlank(token) && token == Str(EnvToken(env))
  }

  // ---- headers ------------------------------------------------------------

  /** A `Headers` object as its entries, in order; names are lower case. */
  type Headers = seq<(string, string)>

  /** The values of the entries named `name`, in order. */
  function Values(h: Headers, name: string): seq<string>
    decreases |h|
  {
    if h == [] then [] else (if h[0].0 == name then [h[0].1] else []) + Values(h[1..], name)
  }

  /** A name has no values exactly when no entry has that name. */
  lemma {:induction false} ValuesNone(h: Headers, name: string)
    ensures Values(h, name) == [] <==> forall i :: 0 <= i < |h| ==> h[i].0 != name
    decreases |h|
  {
    if h != [] {
      ValuesNone(h[1..], name);
      assert forall i :: 1 <= i < |h| ==> h[i] == h[1..][i - 1];
    }
  }

  /** `values.join(', ')`. */
  function JoinComma(vs: seq<string>): string {
    if |vs| == 0 then "" else if |vs| == 1 then vs[0] else vs[0] + ", " + JoinComma(vs[1..])
  }

  /** `headers.get(name)`: the values of every entry with that name joined
      with `, `, `null` when there is none. */
  function HeaderGet(h: Headers, name: string): (r: JsValue)
    ensures r == Null || r.Str?
    ensures r.Str? <==> exists i :: 0 <= i < |h| && h[i].0 == name
    ensures |Values(h, name)| == 1 ==> r == Str(Values(h, name)[0])
  {
    var vs := Values(h, name);
    ValuesNone(h, name);
    if vs == [] then Null else Str(JoinComma(vs))
  }

  lemma {:induction false} ValuesAppend(h: Headers, e: (string, string), name: string)
    ensures Values(h + [e], name) == Values(h, name) + (if e.0 == name then [e.1] else [])
    decreases |h|
  {
    if h == [] {
      assert Values([e], name) == (if e.0 == name then [e.1] else []) + Values([], name);
    } else {
      var first: seq<string> := if h[0].0 == name then [h[0].1] else [];
      var last: seq<string> := if e.0 == name then [e.1] else [];
      assert (h + [e])[0] == h[0] && (h + [e])[1..] == h[1..] + [e];
      assert Values(h + [e], name) == first + Values(h[1..] + [e], name);
      ValuesAppend(h[1..], e, name);
      assert first + (Values(h[1..], name) + last) == (first + Values(h[1..], name)) + last;
    }
  }

  lemma {:induction false} JoinCommaAppend(vs: seq<string>, v: string)
    requires vs != []
    ensures JoinComma(vs + [v]) == JoinComma(vs) + ", " + v
    decreases |vs|
  {
    var t := vs + [v];
    assert t[0] == vs[0] && t[1..] == vs[1..] + [v];
    if |vs| == 1 {
      assert JoinComma(t) == vs[0] + ", " + JoinComma([v]);
    } else {
      assert JoinComma(t) == vs[0] + ", " + JoinComma(vs[1..] + [v]);
      JoinCommaAppend(vs[1..], v);
    }
  }

  /** `headers.append(name, v)` followed by `headers.get(name)` gives `v`
      after the values the name already had, or `v` alone; other names read
      as before. */
  lemma {:induction false} HeaderGetAppend(h: Headers, name: string, v: string, other: string)
    ensures HeaderGet(h + [(name, v)], name) ==
      if HeaderGet(h, name).Str? then Str(HeaderGet(h, name).s + ", " + v) else Str(v)
    ensures other != name ==> HeaderGet(h + [(name, v)], other) == HeaderGet(h, other)
  {
    ValuesAppend(h, (name, v), name);
    ValuesAppend(h, (name, v), other);
    if other != name {
      assert Values(h + [(name, v)], other) == Values(h, other) + [];
      assert Values(h, other) + [] == Values(h, other);
    }
    if Values(h, name) != [] {
      JoinCommaAppend(Values(h, name), v);
    }
  }

  const ProxyRequestHeaders: seq<string> := [
    "user-agent", "accept", "accept-encoding", "accept-language",
    "etag", "if-modified-since", "cache-control", "pragma"]

  const ProxyResponseHeaders: seq<string> := [
    "content-encoding", "content-type", "cache-control", "etag", "last-modified",
    "expires", "age", "pragma", "server", "date"]

  /** The entries the copy loop appends for the first `n` listed names:
      those with a non-blank value, in list order. */
  function Listed(names: seq<string>, source: Headers, n: nat): Headers
    requires n <= |names|
  {
    if n == 0 then []
    else
      var value := HeaderGet(source, names[n - 1]);
      Listed(names, source, n - 1) + (if IsBlank(value) then [] else [(names[n - 1], value.s)])
  }

  /** `for (let name of LIST) { ...; if (!isBlank(value)) out.append(name, value) }`. */
  method CopyListed(names: seq<string>, source: Headers) returns (out: Headers)
    ensures out == Listed(names, source, |names|)
  {
    out := [];
    for i := 0 to |names|
      invariant out == Listed(names, source, i)
    {
      var value := HeaderGet(source, names[i]);
      if !IsBlank(value) {
        out := out + [(names[i], value.s)];
      }
    }
  }

  /** A copied entry is a listed name with the non-blank value the source
      gives it. */
  lemma {:induction false} ListedSound(names: seq<string>, source: Headers, n: nat, name: string, value: string)
    requires n <= |names| && (name, value) in Listed(names, source, n)
    ensures name in names[..n] && value != "" && HeaderGet(source, name) == Str(value)
    decreases n
  {
    var nm := names[n - 1];
    var v := HeaderGet(source, nm);
    var last := if IsBlank(v) then [] else [(nm, v.s)];
    assert Listed(names, source, n) == Listed(names, source, n - 1) + last;
    if (name, value) in Listed(names, source, n - 1) {
      ListedSound(names, source, n - 1, name, value);
      var k :| 0 <= k < n - 1 && names[..n - 1][k] == name;
      assert names[..n][k] == name;
    } else {
      assert (name, value) == (nm, v.s) && v.Str?;
      assert names[..n][n - 1] == name;
    }
  }

  /** A listed name with a non-blank value is copied. */
  lemma {:induction false} ListedComplete(names: seq<string>, source: Headers, n: nat, name: string, value: string)
    requires n <= |names| && name in names[..n] && HeaderGet(source, name) == Str(value) && value != ""
    ensures (name, value) in Listed(names, source, n)
    decreases n
  {
    var nm := names[n - 1];
    var v := HeaderGet(source, nm);
    var last := if IsBlank(v) then [] else [(nm, v.s)];
    assert Listed(names, source, n) == Listed(names, source, n - 1) + last;
    if name == nm {
      assert last == [(name, value)];
    } else {
      var k :| 0 <= k < n && names[..n][k] == name;
      assert k < n - 1 && names[..n - 1][k] == name;
      ListedComplete(names, source, n - 1, name, value);
    }
  }

  /** Both directions: an entry is copied exactly when its name is listed
      and the source gives it that non-blank value. */
  lemma {:induction false} ListedExact(names: seq<string>, source: Headers, n: nat, name: string, value: string)
    requires n <= |names|
    ensures (name, value) in Listed(names, source, n) <==>
      name in names[..n] && value != "" && HeaderGet(source, name) == Str(value)
  {
    if (name, value) in Listed(names, source, n) {
      ListedSound(names, source, n, name, value);
    }
    if name in names[..n] && value != "" && HeaderGet(source, name) == Str(value) {
      ListedComplete(names, source, n, name, value);
    }
  }

  // ---- requests and responses ------------------------------------------------

  /** What `request.json()` gives: a value, or a body that does not parse. */
  datatype BodyJson = Unparseable | Parsed(value: JsValue)

  datatype Request = Request(
    verb: string, pathname: string, query: map<string, string>,
    headers: Headers, json: BodyJson)

  /** What the worker passes to `fetch`. */
  datatype FetchHeaders = HeaderList(list: Headers) | HeaderValue(value: JsValue)

  datatype FetchRequest = FetchRequest(url: JsValue, verb: JsValue, headers: FetchHeaders, body: JsValue)

  /** What `fetch` resolves to, or the text (`e.stack || e`) of the error it
      throws. */
  datatype FetchOutcome =
    | Fetched(status: int, headers: Headers, body: string)
    | FetchFailed(text: string)

  /** A response, or an exception the handler does not catch (the platform
      then answers for the worker). */
  datatype Outcome =
    | Reply(status: int, headers: Headers, body: string)
    | Thrown

  const PlainText: Headers := [("content-type", "text/plain;charset=utf-8")]

  /** `errorResponse(status, message)`. */
  function ErrorResponse(status: int, message: string): (r: Outcome)
    ensures r.Reply? && r.status == status && r.body == message && r.headers == PlainText
  {
    Reply(status, PlainText, message)
  }

  /** `searchParams.get(key)`. */
  function QueryGet(query: map<string, string>, key: string): JsValue {
    if key in query then Str(query[key]) else Null
  }

  /** `params[key]`: `undefined` for a missing key and for a primitive,
      a `TypeError` (None) for `null`. */
  function Prop(v: JsValue, key: string): Option<JsValue> {
    match v
    case Null => None
    case Undefined => None
    case Obj(fields) => Some(if key in fields then fields[key] else Undefined)
    case _ => Some(Undefined)
  }

  const StatusHeader := "x-rss-proxy-status"

  // ---- GET /request.get ----------------------------------------------------

  /** What `handleRequestGet` answers. */
  function RequestGetSpec(req: Request, env: Option<string>, fetch: FetchRequest -> FetchOutcome): Outcome {
    var url := QueryGet(req.query, "url");
    if IsBlank(url) then ErrorResponse(400, "url is required")
    else if !IsValidToken(QueryGet(req.query, "token"), env) then ErrorResponse(403, "invalid token")
    else
      var sent := Listed(ProxyRequestHeaders, req.headers, |ProxyRequestHeaders|);
      match fetch(FetchRequest(url, Str("GET"), HeaderList(sent), Undefined))
      case FetchFailed(_) => Thrown
      case Fetched(status, headers, body) =>
        Reply(status, Listed(ProxyResponseHeaders, headers, |ProxyResponseHeaders|), body)
  }

  method HandleRequestGet(req: Request, env: Option<string>, fetch: FetchRequest -> FetchOutcome) returns (r: Outcome)
    ensures r == RequestGetSpec(req, env, fetch)
  {
    var url := QueryGet(req.query, "url");
    if IsBlank(url) {
      return ErrorResponse(400, "url is required");
    }
    var token := QueryGet(req.query, "token");
    if !IsValidToken(token, env) {
      return ErrorResponse(403, "invalid token");
    }
    var requestHeaders := CopyListed(ProxyRequestHeaders, req.headers);
    var origin := fetch(FetchRequest(url, Str("GET"), HeaderList(requestHeaders), Undefined));
    if origin.FetchFailed? {
      return Thrown;
    }
    var responseHeaders := CopyListed(ProxyResponseHeaders, origin.headers);
    return Reply(origin.status, responseHeaders, origin.body);
  }

  // ---- POST /rss-proxy -------------------------------------------------------

  /** The request `handleRssProxy` sends: method defaults to `'GET'`,
      headers to `{}`. */
  function ProxyFetch(url: JsValue, params: JsValue): FetchRequest
    requires Prop(params, "method").Some?
  {
    FetchRequest(
      url,
      Or(Prop(params, "method").value, Str("GET")),
      HeaderValue(Or(Prop(params, "headers").value, Obj(map[]))),
      Prop(params, "body").value)
  }

  /** The headers of the reply: every origin entry, then the status; or a
      single `ERROR` status when `fetch` threw. */
  function ProxyHeadersSpec(outcome: FetchOutcome): Headers {
    match outcome
    case Fetched(status, headers, _) => headers + [(StatusHeader, DecimalString(status))]
    case FetchFailed(_) => [(StatusHeader, "ERROR")]
  }

  function RssProxySpec(req: Request, env: Option<string>, fetch: FetchRequest -> FetchOutcome): Outcome {
    var contentType := HeaderGet(req.headers, "content-type");
    if IsBlank(contentType) || !Contains(contentType.s, "application/json") then
      ErrorResponse(400, "content-type: application/json is required")
    else if req.json.Unparseable? then ErrorResponse(400, "invalid request body")
    else
      var params := req.json.value;
      match Prop(params, "token")
      case None => Thrown
      case Some(token) =>
        if !IsValidToken(token, env) then ErrorResponse(403, "invalid token")
        else
          var url := Prop(params, "url").value;
          if IsBlank(url) then ErrorResponse(400, "url is required")
          else
            var outcome := fetch(ProxyFetch(url, params));
            var body := match outcome case Fetched(_, _, b) => b case FetchFailed(t) => t;
            Reply(200, ProxyHeadersSpec(outcome), body)
  }

  /** The header loop of `handleRssProxy`. */
  method ProxyHeaders(outcome: FetchOutcome) returns (out: Headers)
    ensures out == ProxyHeadersSpec(outcome)
  {
    out := [];
    if outcome.Fetched? {
      var entries := outcome.headers;
      for i := 0 to |entries|
        invariant out == entries[..i]
      {
        assert entries[..i + 1] == entries[..i] + [entries[i]];
        out := out + [entries[i]];
      }
      assert entries[..|entries|] == entries;
      out := out + [(StatusHeader, DecimalString(outcome.status))];
    } else {
      out := out + [(StatusHeader, "ERROR")];
    }
  }

  method HandleRssProxy(req: Request, env: Option<string>, fetch: FetchRequest -> FetchOutcome) returns (r: Outcome)
    ensures r == RssProxySpec(req, env, fetch)
  {
    var contentType := HeaderGet(req.headers, "content-type");
    if IsBlank(contentType) || !Contains(contentType.s, "application/json") {
      return ErrorResponse(400, "content-type: application/json is required");
    }
    if req.json.Unparseable? {
      return ErrorResponse(400, "invalid request body");
    }
    var params := req.json.value;
    var token := Prop(params, "token");
    if token.None? {
      return Thrown;
    }
    if !IsValidToken(token.value, env) {
      return ErrorResponse(403, "invalid token");
    }
    var url := Prop(params, "url").value;
    if IsBlank(url) {
      return ErrorResponse(400, "url is required");
    }
    var outcome := fetch(ProxyFetch(url, params));
    var body := match outcome case Fetched(_, _, b) => b case FetchFailed(t) => t;
    var headers := ProxyHeaders(outcome);
    return Reply(200, headers, body);
  }

  // ---- routing ----------------------------------------------------------------

  datatype Route = RssProxy | RequestGet | NotFound

  function RouteOf(verb: string, pathname: string): (r: Route)
    ensures r == RssProxy <==> verb == "POST" && pathname == "/rss-proxy"
    ensures r == RequestGet <==> verb == "GET" && pathname == "/request.get"
  {
    if verb == "POST" && pathname == "/rss-proxy" then RssProxy
    else if verb == "GET" && pathname == "/request.get" then RequestGet
    else NotFound
  }

  function HandleSpec(req: Request, env: Option<string>, fetch: FetchRequest -> FetchOutcome): Outcome {
    match RouteOf(req.verb, req.pathname)
    case RssProxy => RssProxySpec(req, env, fetch)
    case RequestGet => RequestGetSpec(req, env, fetch)
    case NotFound => ErrorResponse(404, "404 Not Found")
  }

  /** `handleRequest(request)`. */
  method HandleRequest(req: Request, env: Option<string>, fetch: FetchRequest -> FetchOutcome) returns (r: Outcome)
    ensures r == HandleSpec(req, env, fetch)
  {
    if req.verb == "POST" && req.pathname == "/rss-proxy" {
      r := HandleRssProxy(req, env, fetch);
    } else if req.verb == "GET" && req.pathname == "/request.get" {
      r := HandleRequestGet(req, env, fetch);
    } else {
      r := ErrorResponse(404, "404 Not Found");
    }
  }

  // ---- properties ---------------------------------------------------------------

  /** Only the two routes are served; everything else is a 404. */
  lemma {:induction false} OnlyTwoRoutes(req: Request, env: Option<string>, fetch: FetchRequest -> FetchOutcome)
    ensures (!(req.verb == "POST" && req.pathname == "/rss-proxy") &&
      !(req.verb == "GET" && req.pathname == "/request.get")) ==>
      HandleSpec(req, env, fetch) == ErrorResponse(404, "404 Not Found")
    ensures req.verb == "POST" && req.pathname == "/rss-proxy" ==>
      HandleSpec(req, env, fetch) == RssProxySpec(req, env, fetch)
    ensures req.verb == "GET" && req.pathname == "/request.get" ==>
      HandleSpec(req, env, fetch) == RequestGetSpec(req, env, fetch)
  {
  }

  /** A token is accepted exactly when it is the configured text, which must
      itself be non-empty; by default that is `'rss-proxy'`. */
  lemma {:induction false} TokenRule(token: JsValue, env: Option<string>)
    ensures IsValidToken(token, env) <==> EnvToken(env) != "" && token == Str(EnvToken(env))
    ensures IsValidToken(token, None) <==> token == Str(DefaultToken)
    ensures !IsValidToken(Null, env) && !IsValidToken(Undefined, env) && !IsValidToken(Num(0), env)
  {
  }

  /** On the GET route the url is checked before the token. */
  lemma {:induction false} GetChecksOrder(req: Request, env: Option<string>, fetch: FetchRequest -> FetchOutcome)
    ensures IsBlank(QueryGet(req.query, "url")) ==>
      RequestGetSpec(req, env, fetch) == ErrorResponse(400, "url is required")
    ensures !IsBlank(QueryGet(req.query, "url")) && !IsValidToken(QueryGet(req.query, "token"), env) ==>
      RequestGetSpec(req, env, fetch) == ErrorResponse(403, "invalid token")
  {
  }

  /** On the POST route: content type, then the JSON body, then the token,
      then the url. */
  lemma {:induction false} PostChecksOrder(req: Request, env: Option<string>, fetch: FetchRequest -> FetchOutcome)
    requires req.json.Parsed? && req.json.value.Obj?
    ensures var ct := HeaderGet(req.headers, "content-type");
      var p := req.json.value.fields;
      var token := if "token" in p then p["token"] else Undefined;
      var url := if "url" in p then p["url"] else Undefined;
      var r := RssProxySpec(req, env, fetch);
      (IsBlank(ct) || !Contains(ct.s, "application/json") ==>
        r == ErrorResponse(400, "content-type: application/json is required")) &&
      (ct.Str? && Contains(ct.s, "application/json") && !IsValidToken(token, env) ==>
        r == ErrorResponse(403, "invalid token")) &&
      (ct.Str? && Contains(ct.s, "application/json") && IsValidToken(token, env) && IsBlank(url) ==>
        r == ErrorResponse(400, "url is required")) &&
      (ct.Str? && Contains(ct.s, "application/json") && IsValidToken(token, env) && !IsBlank(url) ==>
        r.Reply? && r.status == 200)
  {
  }

  /** A body that does not parse is refused once the content type is right. */
  lemma {:induction false} UnparseableBody(req: Request, env: Option<string>, fetch: FetchRequest -> FetchOutcome)
    requires req.json.Unparseable?
    ensures var ct := HeaderGet(req.headers, "content-type");
      ct.Str? && Contains(ct.s, "application/json") ==>
        RssProxySpec(req, env, fetch) == ErrorResponse(400, "invalid request body")
  {
  }

  /** On success the origin's headers come back in full, followed by its
      status; on a fetch error only the `ERROR` mark, with the error text as
      body; the reply status is 200 either way. */
  lemma {:induction false} ProxyReply(req: Request, env: Option<string>, fetch: FetchRequest -> FetchOutcome)
    requires RssProxySpec(req, env, fetch).Reply? && RssProxySpec(req, env, fetch).status == 200
    requires req.json.Parsed?
    ensures var r := RssProxySpec(req, env, fetch);
      var url := Prop(req.json.value, "url").value;
      var outcome := fetch(ProxyFetch(url, req.json.value));
      (outcome.Fetched? ==> (r.headers[..|outcome.headers|] == outcome.headers &&
        r.headers[|outcome.headers|..] == [(StatusHeader, DecimalString(outcome.status))] &&
        r.body == outcome.body)) &&
      (outcome.FetchFailed? ==> r.headers == [(StatusHeader, "ERROR")] && r.body == outcome.text)
  {
    var url := Prop(req.json.value, "url").value;
    var outcome := fetch(ProxyFetch(url, req.json.value));
    if outcome.Fetched? {
      var h := outcome.headers + [(StatusHeader, DecimalString(outcome.status))];
      assert h[..|outcome.headers|] == outcome.headers;
    }
  }

  /** The defaults of the forwarded request: a missing or empty method is
      `'GET'`, missing headers are `{}`, and the url and body are passed as
      given. */
  lemma {:induction false} ProxyDefaults(url: JsValue, fields: map<string, JsValue>)
    ensures var f := ProxyFetch(url, Obj(fields));
      f.url == url &&
      ("method" !in fields ==> f.verb == Str("GET")) &&
      ("headers" !in fields ==> f.headers == HeaderValue(Obj(map[]))) &&
      ("method" in fields && Truthy(fields["method"]) ==> f.verb == fields["method"]) &&
      f.body == (if "body" in fields then fields["body"] else Undefined)
  {
  }

  /** The GET route forwards only listed request headers with a value, and
      returns only listed response headers with a value, with the origin
      status. */
  lemma {:induction false} GetForwarding(req: Request, env: Option<string>, fetch: FetchRequest -> FetchOutcome, name: string, value: string)
    requires !IsBlank(QueryGet(req.query, "url")) && IsValidToken(QueryGet(req.query, "token"), env)
    ensures var sent := Listed(ProxyRequestHeaders, req.headers, |ProxyRequestHeaders|);
      (name, value) in sent <==> name in ProxyRequestHeaders && value != "" && HeaderGet(req.headers, name) == Str(value)
    ensures var outcome := fetch(FetchRequest(QueryGet(req.query, "url"), Str("GET"),
        HeaderList(Listed(ProxyRequestHeaders, req.headers, |ProxyRequestHeaders|)), Undefined));
      var r := RequestGetSpec(req, env, fetch);
      outcome.Fetched? ==> (r.Reply? && r.status == outcome.status &&
        ((name, value) in r.headers <==>
          name in ProxyResponseHeaders && value != "" && HeaderGet(outcome.headers, name) == Str(value)))
  {
    ListedExact(ProxyRequestHeaders, req.headers, |ProxyRequestHeaders|, name, value);
    assert ProxyRequestHeaders[..|ProxyRequestHeaders|] == ProxyRequestHeaders;
    assert ProxyResponseHeaders[..|ProxyResponseHeaders|] == ProxyResponseHeaders;
    var outcome := fetch(FetchRequest(QueryGet(req.query, "url"), Str("GET"),
      HeaderList(Listed(ProxyRequestHeaders, req.headers, |ProxyRequestHeaders|)), Undefined));
    if outcome.Fetched? {
      ListedExact(ProxyResponseHeaders, outcome.headers, |ProxyResponseHeaders|, name, value);
    }
  }
}
