/** router.go: the response `csrfErrorHandler` sends, the CSRF middleware's
    settings, and the route table `initRouter` registers together with the
    order in which Fiber offers a request to the registered handlers. */
module Router {
  import opened Outcomes
  import opened Strings
  import opened Env
  import opened Http
  import Strconv
  import Config

  // ---------------------------------------------------------------------
  // csrfErrorHandler

  /** What `c.Accepts("html", "json")` settles on; "" and every other
      answer fall into `AcceptsOther`. */
  datatype Negotiated = AcceptsHtml | AcceptsJson | AcceptsOther

  /** A logrus entry: level, message and fields. */
  datatype LogEntry = LogEntry(level: string, message: string, fields: map<string, string>)

  const ForbiddenText := "403 Forbidden"

  /** The error log entry and the 403 response for a request that failed
      the CSRF check, from the client's address, the original URL and the
      middleware's error. */
  function CsrfErrorHandler(accepts: Negotiated, ip: string, url: string, err: string): (r: (LogEntry, Response))
    ensures r.1.status == StatusForbidden && r.1.location == None
    ensures r.1.body == Json(map["error" := ForbiddenText]) <==> accepts == AcceptsJson
    ensures r.1.body == Page(ErrorView) <==> accepts == AcceptsHtml
    ensures r.1.body == Text(ForbiddenText) <==> accepts == AcceptsOther
    ensures accepts == AcceptsHtml ==>
      r.1.locals == map["title" := "Error", "error" := ForbiddenText, "errorCode" := "403"]
    ensures accepts != AcceptsHtml ==> r.1.locals == map[]
    ensures r.0.level == "error" && r.0.message == "CSRF Error"
    ensures "ip" in r.0.fields && r.0.fields["ip"] == ip
    ensures "request" in r.0.fields && r.0.fields["request"] == url
    ensures "error" in r.0.fields && r.0.fields["error"] == err
  {
    var entry := LogEntry("error", "CSRF Error", map[
      "service" := "app",
      "context" := "router.csrfErrorHandler",
      "error" := err,
      "ip" := ip,
      "request" := url]);
    var response :=
      match accepts
      case AcceptsJson => Response(StatusForbidden, Json(map["error" := ForbiddenText]), map[], None)
      case AcceptsHtml =>
        var locals := map["title" := "Error", "error" := ForbiddenText, "errorCode" := "403"];
        Render(locals, ErrorView, StatusForbidden)
      case AcceptsOther => Response(StatusForbidden, Text(ForbiddenText), map[], None);
    (entry, response)
  }

  /** The texts the handler writes agree with the status it sends: the
      message is the code and its reason phrase, and the error page's
      `errorCode` is the code in decimal. */
  lemma ForbiddenTextsAgreeWithStatus(accepts: Negotiated, ip: string, url: string, err: string)
    ensures var r := CsrfErrorHandler(accepts, ip, url, err).1;
      && ForbiddenText == Strconv.FormatInt(r.status) + " " + StatusText(r.status)
      && (accepts == AcceptsHtml ==> r.locals["errorCode"] == Strconv.FormatInt(r.status))
  {
    ForbiddenSpelled();
  }

  lemma ForbiddenSpelled()
    ensures Strconv.FormatInt(StatusForbidden) == "403"
    ensures ForbiddenText == "403" + " " + StatusText(StatusForbidden)
  {
    assert Strconv.Decimal(4) == "4";
    assert Strconv.Decimal(40) == "40";
    assert Strconv.Decimal(403) == "403";
  }

  // ---------------------------------------------------------------------
  // The CSRF middleware's settings

  const Minute: int := 60 * 1_000_000_000

  /** The fields of `csrf.Config` the program sets (the session store and
      the error handler aside); the expiration is in nanoseconds. */
  datatype CsrfConfig = CsrfConfig(
    keyLookup: string,
    cookieName: string,
    cookieSameSite: string,
    cookieSecure: bool,
    cookieHttpOnly: bool,
    contextKey: string,
    expiration: int)

  const CsrfSettings := CsrfConfig(
    keyLookup := "form:csrf",
    cookieName := "__Host-csrf",
    cookieSameSite := "Lax",
    cookieSecure := true,
    cookieHttpOnly := true,
    contextKey := "csrf",
    expiration := 30 * Minute)

  /** Where a `KeyLookup` says the token or session id is carried. */
  datatype Source = Header | Form | Query | RouteParam | Cookie

  function SourceName(s: Source): string {
    match s
    case Header => "header"
    case Form => "form"
    case Query => "query"
    case RouteParam => "param"
    case Cookie => "cookie"
  }

  /** A `"<source>:<key>"` lookup string as the middlewares read it: split
      at ':', exactly two pieces, a known source. */
  function ParseKeyLookup(lookup: string): (r: Result<(Source, string), string>)
    ensures r.Success? ==> SourceName(r.value.0) + ":" + r.value.1 == lookup
  {
    var pieces := Split(lookup, ':');
    if |pieces| != 2 then Failure("KeyLookup must be in the form of <source>:<key>")
    else
      var name := pieces[0];
      var source :=
        if name == "header" then Some(Header)
        else if name == "form" then Some(Form)
        else if name == "query" then Some(Query)
        else if name == "param" then Some(RouteParam)
        else if name == "cookie" then Some(Cookie)
        else None;
      if source.None? then Failure("source is not supported")
      else
        JoinSplit(lookup, ':');
        Success((source.value, pieces[1]))
  }

  /** Any source and a key without ':' are read back from their lookup
      string. */
  lemma ParseKeyLookupOf(s: Source, key: string)
    requires ':' !in key
    ensures ParseKeyLookup(SourceName(s) + ":" + key) == Success((s, key))
  {
    var name := SourceName(s);
    assert ':' !in name;
    SplitFirst(name, key, ':');
    SplitSingle(key, ':');
    assert name + ":" + key == name + [':'] + key;
  }

  /** The CSRF middleware reads the token from the form field `csrf`. */
  lemma CsrfTokenInForm()
    ensures ParseKeyLookup(CsrfSettings.keyLookup) == Success((Form, "csrf"))
  {
    CsrfLookupSpelled();
    ParseKeyLookupOf(Form, "csrf");
  }

  lemma CsrfLookupSpelled()
    ensures SourceName(Form) + ":" + "csrf" == CsrfSettings.keyLookup
    ensures ':' !in "csrf"
  {
  }

  /** The CSRF cookie is named with the `__Host-` prefix, which browsers
      accept only on Secure cookies, and it is marked Secure and HTTP-only. */
  lemma CsrfCookieIsHostBound()
    ensures HasPrefix(CsrfSettings.cookieName, "__Host-") && CsrfSettings.cookieSecure && CsrfSettings.cookieHttpOnly
  {
  }

  /** By default the session id travels in the `__Host-session` cookie. */
  lemma SessionKeyLookupIsHostCookie()
    ensures ParseKeyLookup(Config.SessionKeyLookup) == Success((Cookie, "__Host-session"))
  {
    SessionLookupSpelled();
    ParseKeyLookupOf(Cookie, "__Host-session");
  }

  lemma SessionLookupSpelled()
    ensures SourceName(Cookie) + ":" + "__Host-session" == Config.SessionKeyLookup
    ensures ':' !in "__Host-session"
  {
  }

  /** The session cookie defaults to the `__Host-` lookup and to Secure and
      HTTP-only, as that prefix requires. */
  lemma SessionCookieDefaults()
    ensures Config.Defaults()["session.key-lookup"] == Config.Str(Config.SessionKeyLookup)
    ensures Config.Defaults()["session.cookie-secure"] == Config.Flag(true)
    ensures Config.Defaults()["session.cookie-http-only"] == Config.Flag(true)
  {
  }

  /** The CSRF token expires after half an hour. */
  lemma CsrfExpiration()
    ensures CsrfSettings.expiration == 1800 * 1_000_000_000
  {
  }

  // ---------------------------------------------------------------------
  // Route paths as Fiber reads them

  /** A route path is literal text and `:name` parameters. */
  datatype Part = Const(text: string) | Param(name: string)

  /** The first index at or after `from` holding `c`, or `|s|`. */
  function IndexFrom(s: string, c: char, from: nat): (r: nat)
    requires from <= |s|
    ensures from <= r <= |s|
    ensures r < |s| ==> s[r] == c
    ensures forall i :: from <= i < r ==> s[i] != c
    decreases |s| - from
  {
    if from == |s| || s[from] == c then from else IndexFrom(s, c, from + 1)
  }

  /** The route parser: a parameter runs from ':' to the next '/', literal
      text runs to the next ':'. */
  function ParseRoute(s: string): (parts: seq<Part>)
    decreases |s|
  {
    if s == "" then []
    else if s[0] == ':' then
      var k := IndexFrom(s, '/', 1);
      [Param(s[1..k])] + ParseRoute(s[k..])
    else
      var k := IndexFrom(s, ':', 1);
      [Const(s[..k])] + ParseRoute(s[k..])
  }

  /** How one part is written. */
  function PartText(p: Part): string {
    match p
    case Const(t) => t
    case Param(n) => ":" + n
  }

  /** How a parsed route is written. */
  function Spell(parts: seq<Part>): string
    decreases |parts|
  {
    if parts == [] then "" else PartText(parts[0]) + Spell(parts[1..])
  }

  /** How much of a route its first part takes. */
  function FirstPartLength(s: string): (k: nat)
    requires s != ""
    ensures 1 <= k <= |s|
  {
    if s[0] == ':' then IndexFrom(s, '/', 1) else IndexFrom(s, ':', 1)
  }

  /** One step of parsing, as written back: the text of the first part is
      the route's text up to where the next part starts. */
  lemma SpellFirstPart(s: string)
    requires s != ""
    ensures Spell(ParseRoute(s)) == s[..FirstPartLength(s)] + Spell(ParseRoute(s[FirstPartLength(s)..]))
  {
    var k := FirstPartLength(s);
    var p := if s[0] == ':' then Param(s[1..k]) else Const(s[..k]);
    var parts := ParseRoute(s);
    assert parts == [p] + ParseRoute(s[k..]);
    assert parts[1..] == ParseRoute(s[k..]);
    if s[0] == ':' {
      assert ":" + s[1..k] == s[..k];
    }
  }

  /** Parsing loses nothing: the parts spell the route back. */
  lemma {:induction false} SpellParseRoute(s: string)
    ensures Spell(ParseRoute(s)) == s
    decreases |s|
  {
    if s != "" {
      var k := FirstPartLength(s);
      SpellFirstPart(s);
      SpellParseRoute(s[k..]);
      assert s[..k] + s[k..] == s;
    }
  }

  /** The first index at which `sub` occurs in `s`, or -1. */
  function Find(s: string, sub: string): (r: int)
    ensures -1 <= r <= |s|
    ensures r >= 0 ==> r + |sub| <= |s| && s[r..r + |sub|] == sub
    decreases |s|
  {
    if HasPrefix(s, sub) then 0
    else if s == "" then -1
    else
      var f := Find(s[1..], sub);
      if f == -1 then -1 else f + 1
  }

  /** How much of the path a parameter takes: up to the next '/' when it is
      the last part, else up to the first occurrence of the literal text
      that follows it; when that literal is longer than one character and
      is only found past a '/', nothing (so the route does not match). */
  function ParamLength(path: string, rest: seq<Part>): (k: nat)
    ensures k <= |path|
  {
    if rest == [] then IndexFrom(path, '/', 0)
    else match rest[0]
      case Const(t) =>
        var f := Find(path, t);
        if f == -1 then |path| else if |t| > 1 && '/' in path[..f] then 0 else f
      case Param(_) => |path|
  }

  /** Whether a parsed route matches the whole of a path; a parameter takes
      at least one character. */
  predicate MatchParts(parts: seq<Part>, path: string)
    decreases |parts|
  {
    if parts == [] then path == ""
    else match parts[0]
      case Const(t) => HasPrefix(path, t) && MatchParts(parts[1..], path[|t|..])
      case Param(_) =>
        var k := ParamLength(path, parts[1..]);
        k >= 1 && MatchParts(parts[1..], path[k..])
  }

  /** In a route that matches, a parameter followed by nothing or by a
      literal longer than one character took no '/': "/admin/pages/a/b"
      is not a page id. */
  lemma ParamTakesNoSlash(name: string, rest: seq<Part>, path: string)
    requires MatchParts([Param(name)] + rest, path)
    requires rest == [] || (rest[0].Const? && |rest[0].text| > 1)
    ensures '/' !in path[..ParamLength(path, rest)]
  {
    assert ([Param(name)] + rest)[1..] == rest;
    var k := ParamLength(path, rest);
    if rest != [] && Find(path, rest[0].text) == -1 {
      assert false;
    }
    assert forall i :: 0 <= i < k ==> path[..k][i] == path[i];
  }

  /** A route that starts with literal text only matches paths that start
      with it. */
  lemma MatchStartsWithLiteral(route: string, lit: string, path: string)
    requires HasPrefix(route, lit) && lit != "" && ':' !in lit
    requires MatchParts(ParseRoute(route), path)
    ensures HasPrefix(path, lit)
  {
    assert route[0] == lit[0];
    var k := IndexFrom(route, ':', 1);
    assert forall i :: 0 <= i < |lit| ==> route[i] == lit[i];
    assert k >= |lit|;
    assert ParseRoute(route)[0] == Const(route[..k]);
    assert route[..k][..|lit|] == lit;
  }

  /** The lower-casing Fiber applies to paths: ASCII only. */
  predicate IsLowerPath(s: string) {
    forall i :: 0 <= i < |s| ==> LowerChar(s[i]) == s[i]
  }

  /** `register`'s reading of a route path: "" is "/", a leading '/' is
      added when missing, the path is lower-cased and, unless it is "/",
      loses its trailing slashes. */
  function PrettyPath(raw: string): string {
    var p := if raw == "" then "/" else if raw[0] != '/' then "/" + raw else raw;
    var lower := ToLower(p);
    if |lower| > 1 then TrimRight(lower, '/') else lower
  }

  /** `Static`'s reading of its prefix: as `PrettyPath`, but only one
      trailing slash is dropped. */
  function StaticPrefix(raw: string): string {
    var p := if raw == "" then "/" else if raw[0] != '/' then "/" + raw else raw;
    var lower := ToLower(p);
    if |lower| > 1 && lower[|lower| - 1] == '/' then lower[..|lower| - 1] else lower
  }

  /** The path Fiber matches a request against: lower-cased, trailing
      slashes dropped unless the path is a single character. */
  function DetectionPath(path: string): string {
    var lower := ToLower(path);
    if |lower| > 1 then TrimRight(lower, '/') else lower
  }

  /** A path that is already in normal form is read as itself. */
  lemma PrettyPathOfNormal(raw: string)
    requires raw != "" && raw[0] == '/' && IsLowerPath(raw)
    requires |raw| == 1 || raw[|raw| - 1] != '/'
    ensures PrettyPath(raw) == raw && StaticPrefix(raw) == raw
  {
    assert ToLower(raw) == raw;
  }

  /** Normalising keeps a lower-case prefix that does not end in '/'. */
  lemma PrettyPathKeepsPrefix(raw: string, lit: string)
    requires raw != "" && raw[0] == '/' && HasPrefix(raw, lit)
    requires lit != "" && IsLowerPath(lit) && lit[|lit| - 1] != '/'
    ensures HasPrefix(PrettyPath(raw), lit)
  {
    var lower := ToLower(raw);
    assert forall i :: 0 <= i < |lit| ==> lower[i] == lit[i];
    if |lower| > 1 {
      var t := TrimRight(lower, '/');
      assert lower[|lit| - 1] != '/';
      assert |t| >= |lit|;
      assert t[..|lit|] == lower[..|lit|];
    }
  }

  /** `getGroupPath`: a group's prefix joined with a path. */
  function GroupPath(prefix: string, path: string): string {
    if |path| == 0 then prefix
    else if path[0] != '/' then TrimRight(prefix, '/') + "/" + path
    else TrimRight(prefix, '/') + path
  }

  lemma GroupPathJoins(prefix: string, path: string)
    requires path != "" && path[0] == '/'
    requires prefix == "" || prefix[|prefix| - 1] != '/'
    ensures GroupPath(prefix, path) == prefix + path
  {
  }

  // ---------------------------------------------------------------------
  // The route table

  /** The handlers `initRouter` registers, in the source's names. */
  datatype Handler =
    | StaticFiles(root: string)
    | IndexPage
    | CsrfGuard
    | AdminIndexPage | AdminPagesPage | AdminPagePage | AdminSectionsPage | AdminSectionPage
    | VersionHeader
    | GetPages | GetPage | GetSections | GetSection
    | NotFound

  predicate IsAdminPage(h: Handler) {
    h.AdminIndexPage? || h.AdminPagesPage? || h.AdminPagePage? || h.AdminSectionsPage? || h.AdminSectionPage?
  }

  predicate IsApiHandler(h: Handler) {
    h.GetPages? || h.GetPage? || h.GetSections? || h.GetSection?
  }

  /** `Use` (every method, prefix match), `Static` (GET and HEAD, prefix
      match) and `Get` (GET and HEAD, whole-path match). */
  datatype Kind = Use | Static | Get

  datatype Registration = Registration(kind: Kind, path: string, handler: Handler)

  datatype Request = Request(verb: string, path: string)

  /** The nine methods Fiber v2 routes, compared exactly (case included).
      A request with any other verb is answered by Fiber itself, before
      any middleware or route; `App.Chain` applies this check, so the
      matching below is only ever asked about these verbs. */
  predicate KnownMethod(verb: string) {
    verb in ["GET", "HEAD", "POST", "PUT", "DELETE", "CONNECT", "OPTIONS", "TRACE", "PATCH"]
  }

  /** Whether Fiber offers the request to a registration's handler: `Use`
      at "/" takes every request, the others only GET and HEAD. */
  function Matches(r: Registration, req: Request): (b: bool)
    ensures r.kind == Use && PrettyPath(r.path) == "/" ==> b
    ensures b && r.kind != Use ==> req.verb == "GET" || req.verb == "HEAD"
    ensures b && r.kind == Get ==> MatchParts(ParseRoute(PrettyPath(r.path)), DetectionPath(req.path))
  {
    var d := DetectionPath(req.path);
    var readOnly := req.verb == "GET" || req.verb == "HEAD";
    match r.kind
    case Use => PrettyPath(r.path) == "/" || HasPrefix(d, PrettyPath(r.path))
    case Static => readOnly && (StaticPrefix(r.path) == "/" || HasPrefix(d, StaticPrefix(r.path)))
    case Get => readOnly && MatchParts(ParseRoute(PrettyPath(r.path)), d)
  }

  /** The handlers of the registrations `offered` accepts, in table order. */
  function Filter(table: seq<Registration>, offered: Registration -> bool): (hs: seq<Handler>)
    ensures |hs| <= |table|
    decreases |table|
  {
    if table == [] then []
    else (if offered(table[0]) then [table[0].handler] else []) + Filter(table[1..], offered)
  }

  /** A filter that accepts nothing yields nothing; one that accepts
      everything yields every handler, in table order. */
  lemma {:induction false} FilterNoneOrAll(table: seq<Registration>, offered: Registration -> bool)
    ensures (forall i :: 0 <= i < |table| ==> !offered(table[i])) ==> Filter(table, offered) == []
    ensures (forall i :: 0 <= i < |table| ==> offered(table[i])) ==>
      |Filter(table, offered)| == |table| && forall i :: 0 <= i < |table| ==> Filter(table, offered)[i] == table[i].handler
    decreases |table|
  {
    if table != [] {
      FilterNoneOrAll(table[1..], offered);
    }
  }

  lemma {:induction false} FilterMembers(table: seq<Registration>, offered: Registration -> bool, h: Handler)
    ensures h in Filter(table, offered) <==> exists i :: 0 <= i < |table| && table[i].handler == h && offered(table[i])
    decreases |table|
  {
    if table != [] {
      FilterMembers(table[1..], offered, h);
      if h in Filter(table[1..], offered) {
        var i :| 0 <= i < |table[1..]| && table[1..][i].handler == h && offered(table[1..][i]);
        assert table[i + 1] == table[1..][i];
      }
      if exists i :: 0 <= i < |table| && table[i].handler == h && offered(table[i]) {
        var i :| 0 <= i < |table| && table[i].handler == h && offered(table[i]);
        if i > 0 {
          assert table[1..][i - 1] == table[i];
        }
      }
    }
  }

  /** Only handlers of the table are offered anything. */
  lemma FilterFrom(table: seq<Registration>, offered: Registration -> bool, h: Handler)
    requires h in Filter(table, offered)
    ensures exists i :: 0 <= i < |table| && table[i].handler == h
  {
    FilterMembers(table, offered, h);
  }

  lemma {:induction false} FilterAppend(a: seq<Registration>, b: seq<Registration>, offered: Registration -> bool)
    ensures Filter(a + b, offered) == Filter(a, offered) + Filter(b, offered)
    decreases |a|
  {
    if a != [] {
      assert (a + b)[0] == a[0];
      assert (a + b)[1..] == a[1..] + b;
      FilterAppend(a[1..], b, offered);
    } else {
      assert a + b == b;
    }
  }

  /** The handlers a request may reach, in registration order: the first
      runs, and each later one runs only if the one before it calls `Next`. */
  function Dispatch(table: seq<Registration>, req: Request): (chain: seq<Handler>)
    ensures |chain| <= |table|
  {
    Filter(table, r => Matches(r, req))
  }

  /** A handler is offered the request exactly when one of its
      registrations matches it. */
  lemma DispatchMembers(table: seq<Registration>, req: Request, h: Handler)
    ensures h in Dispatch(table, req) <==> exists i :: 0 <= i < |table| && table[i].handler == h && Matches(table[i], req)
  {
    FilterMembers(table, r => Matches(r, req), h);
  }

  /** No registration matching means no handler runs; every registration
      matching means every handler may, in table order. */
  lemma DispatchNoneOrAll(table: seq<Registration>, req: Request)
    ensures (forall i :: 0 <= i < |table| ==> !Matches(table[i], req)) ==> Dispatch(table, req) == []
    ensures (forall i :: 0 <= i < |table| ==> Matches(table[i], req)) ==>
      |Dispatch(table, req)| == |table| && forall i :: 0 <= i < |table| ==> Dispatch(table, req)[i] == table[i].handler
  {
    FilterNoneOrAll(table, r => Matches(r, req));
  }

  lemma DispatchFrom(table: seq<Registration>, req: Request, h: Handler)
    requires h in Dispatch(table, req)
    ensures exists i :: 0 <= i < |table| && table[i].handler == h
  {
    FilterFrom(table, r => Matches(r, req), h);
  }

  lemma DispatchAppend(a: seq<Registration>, b: seq<Registration>, req: Request)
    ensures Dispatch(a + b, req) == Dispatch(a, req) + Dispatch(b, req)
  {
    FilterAppend(a, b, r => Matches(r, req));
  }

  const PublicVariable := "CRM_PUBLIC_PATH"
  const AdminPrefix := "/admin"
  const ApiPrefix := "/api"

  /** The `/admin` group: the CSRF middleware, then its pages. */
  function AdminGroup(): seq<Registration> {
    [Registration(Use, GroupPath(AdminPrefix, ""), CsrfGuard)] + AdminPages()
  }

  function AdminPages(): seq<Registration> {
    [ Registration(Get, GroupPath(AdminPrefix, "/"), AdminIndexPage),
      Registration(Get, GroupPath(AdminPrefix, "/pages"), AdminPagesPage),
      Registration(Get, GroupPath(AdminPrefix, "/pages/:id"), AdminPagePage),
      Registration(Get, GroupPath(AdminPrefix, "/pages/:id/sections"), AdminSectionsPage),
      Registration(Get, GroupPath(AdminPrefix, "/pages/:id/sections/:section"), AdminSectionPage) ]
  }

  /** What `api.Group("/v1", ...)` amounts to. */
  const V1Path := "/api/v1"

  /** The prefix of `api.Group("/v1", ...)`. */
  function V1Prefix(): string {
    GroupPath(ApiPrefix, "/v1")
  }

  /** The `/api/v1` group: the version header middleware, then the API. */
  function ApiGroup(): seq<Registration> {
    [Registration(Use, V1Prefix(), VersionHeader)] + ApiRoutes()
  }

  function ApiRoutes(): seq<Registration> {
    [ Registration(Get, GroupPath(V1Prefix(), "/pages"), GetPages),
      Registration(Get, GroupPath(V1Prefix(), "/pages/:id"), GetPage),
      Registration(Get, GroupPath(V1Prefix(), "/pages/:id/sections"), GetSections),
      Registration(Get, GroupPath(V1Prefix(), "/pages/:id/sections/:section"), GetSection) ]
  }

  /** Everything registered before the groups: the static files and the
      index page. */
  function Front(publicPath: string): seq<Registration> {
    [ Registration(Static, "/public", StaticFiles(publicPath)),
      Registration(Get, "/", IndexPage) ]
  }

  /** `app.Use(handlers.NotFound)`, registered last. */
  const Fallback: seq<Registration> := [Registration(Use, "", NotFound)]

  /** `initRouter`, with the static root read from the environment. */
  function InitRouter(env: Environment): (table: seq<Registration>)
    ensures |table| == 14
    ensures table[0].handler == StaticFiles(Getenv(env, PublicVariable, "./public"))
    ensures table[|table| - 1].handler == NotFound
  {
    Front(Getenv(env, PublicVariable, "./public")) + AdminGroup() + ApiGroup() + Fallback
  }

  // ---------------------------------------------------------------------
  // What the table guarantees

  /** `x` is offered the request before `y` is. */
  predicate Before(chain: seq<Handler>, x: Handler, y: Handler) {
    exists i, j :: 0 <= i < j < |chain| && chain[i] == x && chain[j] == y
  }

  lemma HandlerAbsent(table: seq<Registration>, req: Request, h: Handler)
    requires forall i :: 0 <= i < |table| ==> table[i].handler != h
    ensures h !in Dispatch(table, req)
  {
    DispatchMembers(table, req, h);
  }

  lemma SingleDispatch(r: Registration, req: Request)
    ensures Dispatch([r], req) == if Matches(r, req) then [r.handler] else []
  {
    assert [r][1..] == [];
    assert Filter([r][1..], x => Matches(x, req)) == [];
  }

  /** Dispatching a table made of a front part, two groups that each open
      with a middleware, and a tail. */
  lemma DispatchGroups(
    front: seq<Registration>, g: Registration, pages: seq<Registration>,
    v: Registration, api: seq<Registration>, tail: seq<Registration>, req: Request)
    ensures Dispatch(front + ([g] + pages) + ([v] + api) + tail, req) ==
      Dispatch(front, req) + Dispatch([g], req) + Dispatch(pages, req)
      + Dispatch([v], req) + Dispatch(api, req) + Dispatch(tail, req)
  {
    FilterGroups(front, g, pages, v, api, tail, r => Matches(r, req));
  }

  lemma FilterGroups(
    front: seq<Registration>, g: Registration, pages: seq<Registration>,
    v: Registration, api: seq<Registration>, tail: seq<Registration>, offered: Registration -> bool)
    ensures Filter(front + ([g] + pages) + ([v] + api) + tail, offered) ==
      Filter(front, offered) + Filter([g], offered) + Filter(pages, offered)
      + Filter([v], offered) + Filter(api, offered) + Filter(tail, offered)
  {
    var a, b, c, d, e, f := Filter(front, offered), Filter([g], offered), Filter(pages, offered),
      Filter([v], offered), Filter(api, offered), Filter(tail, offered);
    FilterAppend([g], pages, offered);
    FilterAppend([v], api, offered);
    FilterAppend(front, [g] + pages, offered);
    FilterAppend(front + ([g] + pages), [v] + api, offered);
    FilterAppend(front + ([g] + pages) + ([v] + api), tail, offered);
    Associate(a, b, c, d, e, f);
  }

  lemma Associate(a: seq<Handler>, b: seq<Handler>, c: seq<Handler>, d: seq<Handler>, e: seq<Handler>, f: seq<Handler>)
    ensures (a + (b + c)) + (d + e) + f == a + b + c + d + e + f
  {
  }

  /** The chain a request walks, group by group. */
  lemma ChainShape(env: Environment, req: Request)
    ensures Dispatch(InitRouter(env), req) ==
        Dispatch(Front(Getenv(env, PublicVariable, "./public")), req)
        + Dispatch([AdminGroup()[0]], req) + Dispatch(AdminPages(), req)
        + Dispatch([ApiGroup()[0]], req) + Dispatch(ApiRoutes(), req)
        + Dispatch(Fallback, req)
  {
    var front := Front(Getenv(env, PublicVariable, "./public"));
    var g := AdminGroup();
    var v := ApiGroup();
    assert g == [g[0]] + AdminPages();
    assert v == [v[0]] + ApiRoutes();
    DispatchGroups(front, g[0], AdminPages(), v[0], ApiRoutes(), Fallback, req);
  }

  /** Every admin page is a GET route written under "/admin". */
  lemma AdminPagePaths(r: Registration)
    requires r in AdminPages()
    ensures r.kind == Get && r.path != "" && r.path[0] == '/' && HasPrefix(r.path, AdminPrefix)
  {
    var rest :| rest in ["/", "/pages", "/pages/:id", "/pages/:id/sections", "/pages/:id/sections/:section"]
      && r.path == GroupPath(AdminPrefix, rest);
    GroupPathJoins(AdminPrefix, rest);
  }

  lemma V1PrefixIs()
    ensures V1Prefix() == V1Path
  {
    GroupPathJoins(ApiPrefix, "/v1");
  }

  /** Every API route is a GET route written under "/api/v1". */
  lemma ApiRoutePaths(r: Registration)
    requires r in ApiRoutes()
    ensures r.kind == Get && r.path != "" && r.path[0] == '/' && HasPrefix(r.path, V1Path)
  {
    V1PrefixIs();
    var rest :| rest in ["/pages", "/pages/:id", "/pages/:id/sections", "/pages/:id/sections/:section"]
      && r.path == GroupPath(V1Path, rest);
    GroupPathJoins(V1Path, rest);
  }

  /** A request offered to a handler of a table of GET routes that all
      begin with the same lower-case literal text has a path that begins
      with it. */
  lemma DispatchedUnderPrefix(table: seq<Registration>, lit: string, req: Request, h: Handler)
    requires lit != "" && ':' !in lit && IsLowerPath(lit) && lit[|lit| - 1] != '/'
    requires forall r :: r in table ==> r.kind == Get && r.path != "" && r.path[0] == '/' && HasPrefix(r.path, lit)
    requires h in Dispatch(table, req)
    ensures HasPrefix(DetectionPath(req.path), lit)
  {
    DispatchMembers(table, req, h);
    var i :| 0 <= i < |table| && table[i].handler == h && Matches(table[i], req);
    var r := table[i];
    assert r in table;
    PrettyPathKeepsPrefix(r.path, lit);
    MatchStartsWithLiteral(PrettyPath(r.path), lit, DetectionPath(req.path));
  }

  /** The two group prefixes are plain lower-case text. */
  lemma PrefixesArePlain()
    ensures AdminPrefix != "" && ':' !in AdminPrefix && IsLowerPath(AdminPrefix) && AdminPrefix[|AdminPrefix| - 1] != '/'
    ensures V1Path != "" && ':' !in V1Path && IsLowerPath(V1Path) && V1Path[|V1Path| - 1] != '/'
  {
  }

  lemma AdminPagesUnderPrefix()
    ensures forall r :: r in AdminPages() ==> r.kind == Get && r.path != "" && r.path[0] == '/' && HasPrefix(r.path, AdminPrefix)
  {
    forall r | r in AdminPages()
      ensures r.kind == Get && r.path != "" && r.path[0] == '/' && HasPrefix(r.path, AdminPrefix)
    {
      AdminPagePaths(r);
    }
  }

  lemma ApiRoutesUnderPrefix()
    ensures forall r :: r in ApiRoutes() ==> r.kind == Get && r.path != "" && r.path[0] == '/' && HasPrefix(r.path, V1Path)
  {
    forall r | r in ApiRoutes()
      ensures r.kind == Get && r.path != "" && r.path[0] == '/' && HasPrefix(r.path, V1Path)
    {
      ApiRoutePaths(r);
    }
  }

  /** A request offered to an admin page has a path under "/admin". */
  lemma AdminPageNeedsAdminPath(req: Request, h: Handler)
    requires h in Dispatch(AdminPages(), req)
    ensures HasPrefix(DetectionPath(req.path), AdminPrefix)
  {
    AdminPagesUnderPrefix();
    PrefixesArePlain();
    DispatchedUnderPrefix(AdminPages(), AdminPrefix, req, h);
  }

  /** A request offered to an API handler has a path under "/api/v1". */
  lemma ApiHandlerNeedsApiPath(req: Request, h: Handler)
    requires h in Dispatch(ApiRoutes(), req)
    ensures HasPrefix(DetectionPath(req.path), V1Path)
  {
    ApiRoutesUnderPrefix();
    PrefixesArePlain();
    DispatchedUnderPrefix(ApiRoutes(), V1Path, req, h);
  }

  /** The CSRF middleware is offered the requests whose path, read as
      Fiber reads it, starts with "/admin", and no others. */
  lemma GuardMatchesAdminPaths(req: Request)
    ensures Dispatch([AdminGroup()[0]], req) ==
      if HasPrefix(DetectionPath(req.path), AdminPrefix) then [CsrfGuard] else []
  {
    PrefixesArePlain();
    PrettyPathOfNormal(AdminPrefix);
    SingleDispatch(AdminGroup()[0], req);
  }

  lemma VersionHeaderMatchesV1Paths(req: Request)
    ensures Dispatch([ApiGroup()[0]], req) ==
      if HasPrefix(DetectionPath(req.path), V1Path) then [VersionHeader] else []
  {
    V1PrefixIs();
    PrefixesArePlain();
    PrettyPathOfNormal(V1Path);
    SingleDispatch(ApiGroup()[0], req);
  }

  lemma FallbackMatchesAll(req: Request)
    ensures Dispatch(Fallback, req) == [NotFound]
  {
    assert ToLower("/") == "/";
    SingleDispatch(Fallback[0], req);
  }

  lemma ApiPathIsNotAdmin(d: string)
    requires HasPrefix(d, V1Path)
    ensures !HasPrefix(d, AdminPrefix)
  {
    assert d[2] == 'p';
  }

  /** Each part of the table offers requests only to its own handlers. */
  lemma FrontOffers(publicPath: string, req: Request, h: Handler)
    requires h in Dispatch(Front(publicPath), req)
    ensures h == StaticFiles(publicPath) || h == IndexPage
  {
    DispatchFrom(Front(publicPath), req, h);
  }

  lemma AdminPageHandlers()
    ensures |AdminPages()| == 5
    ensures forall i :: 0 <= i < |AdminPages()| ==> IsAdminPage(AdminPages()[i].handler)
  {
  }

  lemma AdminPagesOffer(req: Request, h: Handler)
    requires h in Dispatch(AdminPages(), req)
    ensures IsAdminPage(h)
  {
    DispatchFrom(AdminPages(), req, h);
    AdminPageHandlers();
  }

  lemma ApiRouteHandlers()
    ensures |ApiRoutes()| == 4
    ensures forall i :: 0 <= i < |ApiRoutes()| ==> IsApiHandler(ApiRoutes()[i].handler)
  {
  }

  lemma ApiRoutesOffer(req: Request, h: Handler)
    requires h in Dispatch(ApiRoutes(), req)
    ensures IsApiHandler(h)
  {
    DispatchFrom(ApiRoutes(), req, h);
    ApiRouteHandlers();
  }

  /** The parts of the chain a request walks, as `ChainShape` lists them,
      and what each part can hold. */
  lemma ChainParts(env: Environment, req: Request)
    returns (front: seq<Handler>, guard: seq<Handler>, pages: seq<Handler>, version: seq<Handler>, api: seq<Handler>)
    ensures Dispatch(InitRouter(env), req) == front + guard + pages + version + api + [NotFound]
    ensures forall h :: h in front ==> h == StaticFiles(Getenv(env, PublicVariable, "./public")) || h == IndexPage
    ensures guard == if HasPrefix(DetectionPath(req.path), AdminPrefix) then [CsrfGuard] else []
    ensures forall h :: h in pages ==> IsAdminPage(h) && HasPrefix(DetectionPath(req.path), AdminPrefix)
    ensures version == if HasPrefix(DetectionPath(req.path), V1Path) then [VersionHeader] else []
    ensures forall h :: h in api ==> IsApiHandler(h) && HasPrefix(DetectionPath(req.path), V1Path)
    ensures forall h :: h in Dispatch(InitRouter(env), req) <==>
      h in front || h in guard || h in pages || h in version || h in api || h == NotFound
  {
    var p := Getenv(env, PublicVariable, "./public");
    ChainShape(env, req);
    FallbackMatchesAll(req);
    front := Dispatch(Front(p), req);
    guard := Dispatch([AdminGroup()[0]], req);
    pages := Dispatch(AdminPages(), req);
    version := Dispatch([ApiGroup()[0]], req);
    api := Dispatch(ApiRoutes(), req);
    forall h | h in front
      ensures h == StaticFiles(p) || h == IndexPage
    {
      FrontOffers(p, req, h);
    }
    GuardMatchesAdminPaths(req);
    forall h | h in pages
      ensures IsAdminPage(h) && HasPrefix(DetectionPath(req.path), AdminPrefix)
    {
      AdminPagesOffer(req, h);
      AdminPageNeedsAdminPath(req, h);
    }
    VersionHeaderMatchesV1Paths(req);
    forall h | h in api
      ensures IsApiHandler(h) && HasPrefix(DetectionPath(req.path), V1Path)
    {
      ApiRoutesOffer(req, h);
      ApiHandlerNeedsApiPath(req, h);
    }
    InParts(front, guard, pages, version, api);
  }

  /** In a chain laid out as `ChainParts` lays it out, an admin page can
      only come from the admin pages and an API handler only from the API
      routes. */
  lemma PartOf(
    front: seq<Handler>, guard: seq<Handler>, pages: seq<Handler>, version: seq<Handler>, api: seq<Handler>,
    p: string, h: Handler)
    requires forall x :: x in front ==> x == StaticFiles(p) || x == IndexPage
    requires guard == [] || guard == [CsrfGuard]
    requires forall x :: x in pages ==> IsAdminPage(x)
    requires version == [] || version == [VersionHeader]
    requires forall x :: x in api ==> IsApiHandler(x)
    requires h in front || h in guard || h in pages || h in version || h in api || h == NotFound
    ensures IsAdminPage(h) ==> h in pages
    ensures IsApiHandler(h) ==> h in api
  {
  }

  /** Membership in a chain of six parts is membership in one of them. */
  lemma InParts(front: seq<Handler>, guard: seq<Handler>, pages: seq<Handler>, version: seq<Handler>, api: seq<Handler>)
    ensures forall h :: h in front + guard + pages + version + api + [NotFound] <==>
      h in front || h in guard || h in pages || h in version || h in api || h == NotFound
  {
  }

  /** In a chain laid out as `ChainParts` lays it out, whatever sits in
      the third part comes after the one-element second part. */
  lemma ThirdAfterSecond(front: seq<Handler>, x: Handler, pages: seq<Handler>, version: seq<Handler>, api: seq<Handler>, h: Handler)
    requires h in pages
    ensures Before(front + [x] + pages + version + api + [NotFound], x, h)
  {
    var chain := front + [x] + pages + version + api + [NotFound];
    var k :| 0 <= k < |pages| && pages[k] == h;
    assert chain[|front|] == x;
    assert chain[|front| + 1 + k] == h;
  }

  /** Likewise, whatever sits in the fifth part comes after the one-element
      fourth part. */
  lemma FifthAfterFourth(front: seq<Handler>, guard: seq<Handler>, pages: seq<Handler>, x: Handler, api: seq<Handler>, h: Handler)
    requires h in api
    ensures Before(front + guard + pages + [x] + api + [NotFound], x, h)
  {
    var chain := front + guard + pages + [x] + api + [NotFound];
    var k :| 0 <= k < |api| && api[k] == h;
    var n := |front| + |guard| + |pages|;
    assert chain[n] == x;
    assert chain[n + 1 + k] == h;
  }

  /** A request reaches the CSRF middleware exactly when its path, read as
      Fiber reads it (case folded, trailing slashes dropped), starts with
      "/admin". */
  lemma CsrfGuardIffAdminPath(env: Environment, req: Request)
    ensures CsrfGuard in Dispatch(InitRouter(env), req) <==> HasPrefix(DetectionPath(req.path), AdminPrefix)
  {
    var front, guard, pages, version, api := ChainParts(env, req);
    assert CsrfGuard !in front && CsrfGuard !in pages && CsrfGuard !in version && CsrfGuard !in api;
  }

  /** Every admin page sits behind the CSRF middleware: a request offered to
      an admin page has been offered to the middleware before it. */
  lemma AdminPagesBehindCsrf(env: Environment, req: Request, h: Handler)
    requires IsAdminPage(h) && h in Dispatch(InitRouter(env), req)
    ensures Before(Dispatch(InitRouter(env), req), CsrfGuard, h)
  {
    var front, guard, pages, version, api := ChainParts(env, req);
    PartOf(front, guard, pages, version, api, Getenv(env, PublicVariable, "./public"), h);
    assert guard == [CsrfGuard];
    ThirdAfterSecond(front, CsrfGuard, pages, version, api, h);
  }

  /** No request that reaches an API route passes the CSRF middleware. */
  lemma ApiRoutesUnguarded(env: Environment, req: Request, h: Handler)
    requires IsApiHandler(h) && h in Dispatch(InitRouter(env), req)
    ensures CsrfGuard !in Dispatch(InitRouter(env), req)
  {
    var front, guard, pages, version, api := ChainParts(env, req);
    PartOf(front, guard, pages, version, api, Getenv(env, PublicVariable, "./public"), h);
    ApiPathIsNotAdmin(DetectionPath(req.path));
    assert guard == [];
  }

  /** Every API route is offered the request after the middleware that sets
      `Version: v1`. */
  lemma ApiRoutesAfterVersionHeader(env: Environment, req: Request, h: Handler)
    requires IsApiHandler(h) && h in Dispatch(InitRouter(env), req)
    ensures Before(Dispatch(InitRouter(env), req), VersionHeader, h)
  {
    var front, guard, pages, version, api := ChainParts(env, req);
    PartOf(front, guard, pages, version, api, Getenv(env, PublicVariable, "./public"), h);
    assert version == [VersionHeader];
    FifthAfterFourth(front, guard, pages, VersionHeader, api, h);
  }

  /** The candidates end at `NotFound`: it comes last, and only last. */
  lemma NotFoundIsLast(env: Environment, req: Request)
    ensures var chain := Dispatch(InitRouter(env), req);
      && chain != [] && chain[|chain| - 1] == NotFound
      && forall i :: 0 <= i < |chain| - 1 ==> chain[i] != NotFound
  {
    var front, guard, pages, version, api := ChainParts(env, req);
    var before := front + guard + pages + version + api;
    assert NotFound !in before;
    var chain := before + [NotFound];
    forall i | 0 <= i < |chain| - 1
      ensures chain[i] != NotFound
    {
      assert chain[i] == before[i];
    }
  }
}
